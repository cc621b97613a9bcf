/** The loop shape the extraction code repeats: visit the items in order,
    let each one either raise, contribute nothing, or contribute one value,
    and append the contributions to a list. */
module Loops {
  import opened Results

  /** The values of the `Some` entries, in order. */
  function Somes<T>(os: seq<Option<T>>): (r: seq<T>)
    ensures |r| <= |os|
  {
    if os == [] then []
    else Somes(os[..|os| - 1]) + (match os[|os| - 1] case Some(t) => [t] case None => [])
  }

  /** The positions of the `Some` entries, in order. */
  function Kept<T>(os: seq<Option<T>>): seq<nat> {
    if os == [] then []
    else Kept(os[..|os| - 1]) + (if os[|os| - 1].Some? then [|os| - 1] else [])
  }

  /** The loop: stops at the first item that raises, otherwise appends
      what each item yields. */
  function Gather<X, T>(f: X -> Result<Option<T>>, xs: seq<X>): Result<seq<T>> {
    if xs == [] then Ok([])
    else
      var init :- Gather(f, xs[..|xs| - 1]);
      var o :- f(xs[|xs| - 1]);
      Ok(init + match o case Some(t) => [t] case None => [])
  }

  /** What each item yields, reading a raise as nothing. */
  function Yields<X, T>(f: X -> Result<Option<T>>, xs: seq<X>): (r: seq<Option<T>>)
    ensures |r| == |xs|
    ensures forall i :: 0 <= i < |xs| ==> r[i] == (match f(xs[i]) case Ok(o) => o case Raise => None)
  {
    seq(|xs|, i requires 0 <= i < |xs| => match f(xs[i]) case Ok(o) => o case Raise => None)
  }

  /** The `Some` entries are exactly the ones at the kept positions: the
      result is a subsequence that keeps the order and drops no `Some`. */
  lemma {:induction false} SomesKept<T>(os: seq<Option<T>>)
    ensures |Kept(os)| == |Somes(os)|
    ensures forall j :: 0 <= j < |Kept(os)| ==>
      Kept(os)[j] < |os| && os[Kept(os)[j]] == Some(Somes(os)[j])
    ensures forall j, k :: 0 <= j < k < |Kept(os)| ==> Kept(os)[j] < Kept(os)[k]
    ensures forall i :: 0 <= i < |os| && os[i].Some? ==> i in Kept(os)
  {
    if os != [] {
      var n := |os| - 1;
      var init := os[..n];
      SomesKept(init);
      var ks, vs := Kept(init), Somes(init);
      assert forall i :: 0 <= i < n ==> init[i] == os[i];
      if os[n].Some? {
        assert Kept(os) == ks + [n];
        assert Somes(os) == vs + [os[n].value];
      } else {
        assert Kept(os) == ks;
        assert Somes(os) == vs;
      }
      forall j | 0 <= j < |Kept(os)| ensures Kept(os)[j] < |os| && os[Kept(os)[j]] == Some(Somes(os)[j]) {
        if j < |ks| {
          assert Kept(os)[j] == ks[j] && Somes(os)[j] == vs[j];
        }
      }
      forall i | 0 <= i < |os| && os[i].Some? ensures i in Kept(os) {
        if i < n {
          assert i in ks;
        }
      }
    }
  }

  /** Every value of a `Some` entry satisfies `p`, so every gathered value does. */
  lemma {:induction false} SomesAll<T>(os: seq<Option<T>>, p: T -> bool)
    requires forall i :: 0 <= i < |os| && os[i].Some? ==> p(os[i].value)
    ensures forall j :: 0 <= j < |Somes(os)| ==> p(Somes(os)[j])
  {
    if os != [] {
      var init := os[..|os| - 1];
      assert forall i :: 0 <= i < |init| ==> init[i] == os[i];
      SomesAll(init, p);
    }
  }

  /** The loop raises exactly when some item raises; otherwise it returns
      the values the items yield, in order. */
  lemma {:induction false} GatherMeaning<X, T>(f: X -> Result<Option<T>>, xs: seq<X>)
    ensures Gather(f, xs).Raise? <==> exists i :: 0 <= i < |xs| && f(xs[i]).Raise?
    ensures Gather(f, xs).Ok? ==> Gather(f, xs).value == Somes(Yields(f, xs))
  {
    if xs != [] {
      var init := xs[..|xs| - 1];
      GatherMeaning(f, init);
      assert Yields(f, xs)[..|xs| - 1] == Yields(f, init);
      if exists i :: 0 <= i < |init| && f(init[i]).Raise? {
        var i :| 0 <= i < |init| && f(init[i]).Raise?;
        assert xs[i] == init[i];
      }
      if exists i :: 0 <= i < |xs| && f(xs[i]).Raise? {
        var i :| 0 <= i < |xs| && f(xs[i]).Raise?;
        if i < |init| {
          assert init[i] == xs[i];
        }
      }
    }
  }

  /** Appending one more item to the loop's input. */
  lemma GatherSnoc<X, T>(f: X -> Result<Option<T>>, xs: seq<X>, x: X)
    ensures Gather(f, xs).Raise? || f(x).Raise? ==> Gather(f, xs + [x]).Raise?
    ensures Gather(f, xs).Ok? && f(x) == Ok(None) ==> Gather(f, xs + [x]) == Gather(f, xs)
    ensures Gather(f, xs).Ok? && f(x).Ok? && f(x).value.Some? ==>
      Gather(f, xs + [x]) == Ok(Gather(f, xs).value + [f(x).value.value])
  {
    assert (xs + [x])[..|xs|] == xs;
    if Gather(f, xs).Ok? {
      assert Gather(f, xs).value + [] == Gather(f, xs).value;
    }
  }

  /** Once an item raises, so does the whole loop. */
  lemma GatherRaiseAt<X, T>(f: X -> Result<Option<T>>, xs: seq<X>, i: nat)
    requires i < |xs| && f(xs[i]).Raise?
    ensures Gather(f, xs).Raise?
  {
    GatherMeaning(f, xs);
  }

  /** One iteration of a loop that gathers `f`'s results: an item that
      raises makes the whole gathering raise, and an item that yields a
      value appends it. */
  lemma GatherStep<X, T>(f: X -> Result<Option<T>>, xs: seq<X>, i: nat, acc: seq<T>)
    requires i < |xs| && Gather(f, xs[..i]) == Ok(acc)
    ensures f(xs[i]).Raise? ==> Gather(f, xs).Raise?
    ensures f(xs[i]) == Ok(None) ==> Gather(f, xs[..i + 1]) == Ok(acc)
    ensures f(xs[i]).Ok? && f(xs[i]).value.Some? ==> Gather(f, xs[..i + 1]) == Ok(acc + [f(xs[i]).value.value])
  {
    var ys := xs[..i + 1];
    assert ys[..|ys| - 1] == xs[..i] && ys[|ys| - 1] == xs[i];
    if f(xs[i]).Raise? {
      GatherRaiseAt(f, xs, i);
    } else if f(xs[i]).value.None? {
      assert acc + [] == acc;
    }
  }

  /** When no item raises, the loop returns what the items yield. */
  lemma GatherOk<X, T>(f: X -> Result<Option<T>>, xs: seq<X>, os: seq<Option<T>>)
    requires |os| == |xs| && forall i :: 0 <= i < |xs| ==> f(xs[i]) == Ok(os[i])
    ensures Gather(f, xs) == Ok(Somes(os))
  {
    GatherMeaning(f, xs);
    assert Yields(f, xs) == os;
  }
}
