/** The handful of Python `str` operations the notifier relies on:
    `strip`, `lower`, `split` on one separator, `join`, `startswith`,
    and finding the first occurrence of a character. */
module Text {
  import opened Results

  /** Python's `str.isspace` for one character: the ASCII whitespace
      characters, the information separators 0x1C-0x1F, NEL, NBSP and the
      Unicode space separators. */
  predicate IsSpace(c: char) {
    c == ' ' || ('\t' <= c <= '\r') || ('\U{1C}' <= c <= '\U{1F}')
    || c == '\U{85}' || c == '\U{A0}' || c == '\U{1680}'
    || ('\U{2000}' <= c <= '\U{200A}') || c == '\U{2028}' || c == '\U{2029}'
    || c == '\U{202F}' || c == '\U{205F}' || c == '\U{3000}'
  }

  /** Every character is whitespace (Python: `not s.strip()`). */
  predicate IsBlank(s: string) {
    forall i :: 0 <= i < |s| ==> IsSpace(s[i])
  }

  lemma BlankConcat(a: string, b: string)
    ensures IsBlank(a + b) <==> IsBlank(a) && IsBlank(b)
  {
    if IsBlank(a) && IsBlank(b) {
      forall i | 0 <= i < |a + b| ensures IsSpace((a + b)[i]) {
        if i >= |a| { assert (a + b)[i] == b[i - |a|]; }
      }
    }
    if IsBlank(a + b) {
      forall i | 0 <= i < |a| ensures IsSpace(a[i]) {
        assert a[i] == (a + b)[i];
      }
      forall i | 0 <= i < |b| ensures IsSpace(b[i]) {
        assert b[i] == (a + b)[i + |a|];
      }
    }
  }

  /** Neither end is whitespace: what `strip` returns. */
  predicate IsTrimmed(s: string) {
    s == [] || (!IsSpace(s[0]) && !IsSpace(s[|s| - 1]))
  }

  /** A non-empty string without surrounding whitespace. */
  predicate IsClean(s: string) {
    s != [] && IsTrimmed(s)
  }

  /** `s.lstrip()`: the longest suffix of `s` that does not start with whitespace. */
  function TrimStart(s: string): (r: string)
    ensures |r| <= |s|
    ensures r == [] || !IsSpace(r[0])
  {
    if s != [] && IsSpace(s[0]) then TrimStart(s[1..]) else s
  }

  /** `s.rstrip()`: the longest prefix of `s` that does not end with whitespace. */
  function TrimEnd(s: string): (r: string)
    ensures |r| <= |s| && r == s[..|r|]
    ensures r == [] || !IsSpace(r[|r| - 1])
  {
    if s != [] && IsSpace(s[|s| - 1]) then TrimEnd(s[..|s| - 1]) else s
  }

  /** `s.strip()`. */
  function Trim(s: string): (r: string)
    ensures IsTrimmed(r)
    ensures |r| <= |s|
  {
    TrimEnd(TrimStart(s))
  }

  lemma {:induction false} TrimStartSuffix(s: string)
    ensures TrimStart(s) == s[|s| - |TrimStart(s)|..]
  {
    if s != [] && IsSpace(s[0]) {
      TrimStartSuffix(s[1..]);
      assert s[1..][|s| - 1 - |TrimStart(s[1..])|..] == s[|s| - |TrimStart(s)|..];
    }
  }

  /** `strip` only removes characters: whatever it keeps was in the string. */
  lemma TrimKeeps(s: string, c: char)
    ensures c in Trim(s) ==> c in s
  {
    if c in Trim(s) {
      TrimStartSuffix(s);
      var t := TrimStart(s);
      var i :| 0 <= i < |Trim(s)| && Trim(s)[i] == c;
      assert t[i] == c;
      assert s[|s| - |t| + i] == c;
    }
  }

  /** Stripping a blank prefix off a string that starts with a non-space. */
  lemma {:induction false} TrimStartOf(p: string, m: string)
    requires IsBlank(p)
    requires m == [] || !IsSpace(m[0])
    ensures TrimStart(p + m) == m
  {
    if p == [] {
      assert p + m == m;
    } else {
      assert (p + m)[1..] == p[1..] + m;
      TrimStartOf(p[1..], m);
    }
  }

  /** Stripping a blank suffix off a string that ends with a non-space. */
  lemma {:induction false} TrimEndOf(m: string, q: string)
    requires IsBlank(q)
    requires m == [] || !IsSpace(m[|m| - 1])
    ensures TrimEnd(m + q) == m
  {
    if q == [] {
      assert m + q == m;
    } else {
      var s := m + q;
      assert s[|s| - 1] == q[|q| - 1];
      assert s[..|s| - 1] == m + q[..|q| - 1];
      TrimEndOf(m, q[..|q| - 1]);
    }
  }

  /** `strip` removes exactly the blank ends around a trimmed core: the
      result does not depend on how much whitespace surrounds it. */
  lemma TrimOf(p: string, m: string, q: string)
    requires IsBlank(p) && IsTrimmed(m) && IsBlank(q)
    ensures Trim(p + m + q) == m
  {
    if m == [] {
      assert p + m + q == (p + q) + [];
      TrimStartOf(p + q, []);
    } else {
      assert p + m + q == p + (m + q);
      TrimStartOf(p, m + q);
      TrimEndOf(m, q);
    }
  }

  /** A string that is already stripped is left alone by `strip`. */
  lemma TrimTrimmed(s: string)
    requires IsTrimmed(s)
    ensures Trim(s) == s
  {
    TrimOf([], s, []);
    assert [] + s + [] == s;
  }

  lemma {:induction false} TrimStartEmpty(s: string)
    requires TrimStart(s) == []
    ensures IsBlank(s)
  {
    if s != [] {
      TrimStartEmpty(s[1..]);
      assert s == [s[0]] + s[1..];
      BlankConcat([s[0]], s[1..]);
    }
  }

  lemma {:induction false} TrimEndEmpty(s: string)
    requires TrimEnd(s) == []
    ensures IsBlank(s)
  {
    if s != [] {
      TrimEndEmpty(s[..|s| - 1]);
      assert s == s[..|s| - 1] + [s[|s| - 1]];
      BlankConcat(s[..|s| - 1], [s[|s| - 1]]);
    }
  }

  /** `strip` yields the empty string exactly on blank input. */
  lemma TrimEmptyIffBlank(s: string)
    ensures Trim(s) == [] <==> IsBlank(s)
  {
    if IsBlank(s) {
      TrimOf(s, [], []);
      assert s + [] + [] == s;
    }
    if Trim(s) == [] {
      TrimEndEmpty(TrimStart(s));
      TrimStartEmpty(s);
    }
  }

  /** Stripping twice is stripping once. */
  lemma TrimIdempotent(s: string)
    ensures Trim(Trim(s)) == Trim(s)
  {
    TrimTrimmed(Trim(s));
  }

  /** `s.strip()`, kept only when something is left. */
  function Stripped(s: string): (r: Option<string>)
    ensures r.Some? ==> IsClean(r.value) && r.value == Trim(s)
    ensures r.None? <==> IsBlank(s)
  {
    TrimEmptyIffBlank(s);
    var t := Trim(s);
    if t != "" then Some(t) else None
  }

  /** Python's `str.lower`, restricted to the ASCII letters. */
  function LowerChar(c: char): (r: char)
    ensures !('A' <= r <= 'Z')
    ensures IsSpace(r) <==> IsSpace(c)
  {
    if 'A' <= c <= 'Z' then (c as int + 32) as char else c
  }

  function Lower(s: string): (r: string)
    ensures |r| == |s|
    ensures forall i :: 0 <= i < |s| ==> r[i] == LowerChar(s[i])
  {
    seq(|s|, i requires 0 <= i < |s| => LowerChar(s[i]))
  }

  /** Lower-casing keeps a clean string clean. */
  lemma LowerClean(s: string)
    requires IsClean(s)
    ensures IsClean(Lower(s))
  {
  }

  /** Python's `s.split(sep)` for a one-character separator: the pieces
      between separators, always at least one. */
  function Split(s: string, sep: char): (r: seq<string>)
    ensures |r| >= 1
    ensures forall k :: 0 <= k < |r| ==> sep !in r[k]
  {
    if s == [] then [""]
    else
      var rest := Split(s[1..], sep);
      if s[0] == sep then [""] + rest else [[s[0]] + rest[0]] + rest[1..]
  }

  /** Python's `sep.join(xs)`. */
  function Join(xs: seq<string>, sep: string): string
  {
    if xs == [] then ""
    else if |xs| == 1 then xs[0]
    else xs[0] + sep + Join(xs[1..], sep)
  }

  /** Joining the pieces of a split with the separator gives back the text. */
  lemma {:induction false} JoinSplit(s: string, sep: char)
    ensures Join(Split(s, sep), [sep]) == s
  {
    if s != [] {
      var rest := Split(s[1..], sep);
      JoinSplit(s[1..], sep);
      if s[0] == sep {
        assert ([""] + rest)[1..] == rest;
      } else if |rest| > 1 {
        assert ([[s[0]] + rest[0]] + rest[1..])[1..] == rest[1..];
        assert s == [s[0]] + s[1..];
      } else {
        assert s == [s[0]] + s[1..];
      }
    }
  }

  /** Splitting `a + sep + b` splits `a` and `b` separately: the pieces
      keep their order and none is dropped or merged. */
  lemma {:induction false} SplitConcat(a: string, b: string, sep: char)
    ensures Split(a + [sep] + b, sep) == Split(a, sep) + Split(b, sep)
  {
    var s := a + [sep] + b;
    if a == [] {
      assert s[1..] == b;
    } else {
      assert s[1..] == a[1..] + [sep] + b;
      SplitConcat(a[1..], b, sep);
    }
  }

  /** Joining non-empty stripped strings gives a non-empty stripped string,
      whatever the separator. */
  lemma {:induction false} JoinClean(xs: seq<string>, sep: string)
    requires xs != []
    requires forall k :: 0 <= k < |xs| ==> IsClean(xs[k])
    ensures IsClean(Join(xs, sep))
  {
    if |xs| > 1 {
      JoinClean(xs[1..], sep);
      var tail := Join(xs[1..], sep);
      var j := xs[0] + sep + tail;
      assert j[0] == xs[0][0];
      assert j[|j| - 1] == tail[|tail| - 1];
    }
  }

  /** The index of the first `c` in `s`, as Python's `str.partition` finds it. */
  function IndexOf(s: string, c: char): (r: Option<nat>)
    ensures r.None? <==> c !in s
    ensures r.Some? ==> r.value < |s| && s[r.value] == c && c !in s[..r.value]
  {
    if s == [] then None
    else if s[0] == c then Some(0)
    else match IndexOf(s[1..], c)
      case None => None
      case Some(i) => Some(i + 1)
  }

  /** Python's `s.startswith(p)`. */
  predicate StartsWith(s: string, p: string) {
    |p| <= |s| && s[..|p|] == p
  }
}
