/** `_escape_html`: four chained `str.replace` calls, `&` first. */
module Escape {
  import opened Text

  /** The four entities. */
  const Amp: string := "&amp;"
  const Lt: string := "&lt;"
  const Gt: string := "&gt;"
  const Quot: string := "&quot;"

  /** `s.replace(c, repl)` for a one-character pattern: every occurrence of
      `c`, left to right, is replaced by `repl`. */
  function ReplaceChar(s: string, c: char, repl: string): string {
    if s == [] then [] else (if s[0] == c then repl else [s[0]]) + ReplaceChar(s[1..], c, repl)
  }

  /** The escaping as the source chains it. */
  function EscapeHtml(text: string): string {
    ReplaceChar(ReplaceChar(ReplaceChar(ReplaceChar(text, '&', Amp), '<', Lt), '>', Gt), '"', Quot)
  }

  /** Reference definition: each character escaped on its own. */
  function EscapeChar(c: char): string {
    if c == '&' then Amp
    else if c == '<' then Lt
    else if c == '>' then Gt
    else if c == '"' then Quot
    else [c]
  }

  function EscapeEach(s: string): string {
    if s == [] then [] else EscapeChar(s[0]) + EscapeEach(s[1..])
  }

  /** The four characters the escaping rewrites. */
  predicate Special(c: char) {
    c == '&' || c == '<' || c == '>' || c == '"'
  }

  /** No raw `<`, `>` or `"`, and every `&` opens an entity: text that an
      HTML parser reads back as the characters it shows. */
  predicate Safe(r: string) {
    forall i :: 0 <= i < |r| ==> r[i] != '<' && r[i] != '>' && r[i] != '"' && (r[i] == '&' ==> EntityAt(r, i))
  }

  /** The entity that starts at position `i` of `r`, if any. */
  predicate EntityAt(r: string, i: nat)
    requires i < |r|
  {
    StartsWith(r[i..], Amp) || StartsWith(r[i..], Lt)
    || StartsWith(r[i..], Gt) || StartsWith(r[i..], Quot)
  }

  lemma {:induction false} ReplaceCharConcat(a: string, b: string, c: char, repl: string)
    ensures ReplaceChar(a + b, c, repl) == ReplaceChar(a, c, repl) + ReplaceChar(b, c, repl)
  {
    if a != [] {
      assert (a + b)[1..] == a[1..] + b;
      ReplaceCharConcat(a[1..], b, c, repl);
    } else {
      assert a + b == b;
    }
  }

  lemma {:induction false} ReplaceCharAbsent(s: string, c: char, repl: string)
    requires c !in s
    ensures ReplaceChar(s, c, repl) == s
  {
    if s != [] {
      assert s[0] != c;
      ReplaceCharAbsent(s[1..], c, repl);
      assert s == [s[0]] + s[1..];
    }
  }

  /** Escaping distributes over concatenation. */
  lemma EscapeHtmlConcat(a: string, b: string)
    ensures EscapeHtml(a + b) == EscapeHtml(a) + EscapeHtml(b)
  {
    var a1, b1 := ReplaceChar(a, '&', Amp), ReplaceChar(b, '&', Amp);
    ReplaceCharConcat(a, b, '&', Amp);
    var a2, b2 := ReplaceChar(a1, '<', Lt), ReplaceChar(b1, '<', Lt);
    ReplaceCharConcat(a1, b1, '<', Lt);
    var a3, b3 := ReplaceChar(a2, '>', Gt), ReplaceChar(b2, '>', Gt);
    ReplaceCharConcat(a2, b2, '>', Gt);
    ReplaceCharConcat(a3, b3, '"', Quot);
  }

  lemma ReplaceCharOne(x: char, c: char, repl: string)
    ensures ReplaceChar([x], c, repl) == if x == c then repl else [x]
  {
    assert [x][1..] == [];
  }

  /** The chain applied to one special character: the steps before its own
      leave it alone, its own step yields the entity, and no later step
      touches the entity. */
  lemma EscapeAmp(c: char)
    requires c == '&'
    ensures EscapeHtml([c]) == Amp
  {
    var s1 := ReplaceChar([c], '&', Amp);
    ReplaceCharOne(c, '&', Amp);
    assert s1 == Amp;
    var s2 := ReplaceChar(s1, '<', Lt);
    ReplaceCharAbsent(s1, '<', Lt);
    assert s2 == Amp;
    var s3 := ReplaceChar(s2, '>', Gt);
    ReplaceCharAbsent(s2, '>', Gt);
    assert s3 == Amp;
    var s4 := ReplaceChar(s3, '"', Quot);
    ReplaceCharAbsent(s3, '"', Quot);
    assert s4 == Amp;
  }

  lemma EscapeLt(c: char)
    requires c == '<'
    ensures EscapeHtml([c]) == Lt
  {
    var s1 := ReplaceChar([c], '&', Amp);
    ReplaceCharAbsent([c], '&', Amp);
    assert s1 == [c];
    var s2 := ReplaceChar(s1, '<', Lt);
    ReplaceCharOne(c, '<', Lt);
    assert s2 == Lt;
    var s3 := ReplaceChar(s2, '>', Gt);
    ReplaceCharAbsent(s2, '>', Gt);
    assert s3 == Lt;
    var s4 := ReplaceChar(s3, '"', Quot);
    ReplaceCharAbsent(s3, '"', Quot);
    assert s4 == Lt;
  }

  lemma EscapeGt(c: char)
    requires c == '>'
    ensures EscapeHtml([c]) == Gt
  {
    var s1 := ReplaceChar([c], '&', Amp);
    ReplaceCharAbsent([c], '&', Amp);
    assert s1 == [c];
    var s2 := ReplaceChar(s1, '<', Lt);
    ReplaceCharAbsent(s1, '<', Lt);
    assert s2 == [c];
    var s3 := ReplaceChar(s2, '>', Gt);
    ReplaceCharOne(c, '>', Gt);
    assert s3 == Gt;
    var s4 := ReplaceChar(s3, '"', Quot);
    ReplaceCharAbsent(s3, '"', Quot);
    assert s4 == Gt;
  }

  lemma EscapeQuot(c: char)
    requires c == '"'
    ensures EscapeHtml([c]) == Quot
  {
    var s1 := ReplaceChar([c], '&', Amp);
    ReplaceCharAbsent([c], '&', Amp);
    assert s1 == [c];
    var s2 := ReplaceChar(s1, '<', Lt);
    ReplaceCharAbsent(s1, '<', Lt);
    assert s2 == [c];
    var s3 := ReplaceChar(s2, '>', Gt);
    ReplaceCharAbsent(s2, '>', Gt);
    assert s3 == [c];
    var s4 := ReplaceChar(s3, '"', Quot);
    ReplaceCharOne(c, '"', Quot);
    assert s4 == Quot;
  }

  lemma EscapeHtmlChar(c: char)
    ensures EscapeHtml([c]) == EscapeChar(c)
  {
    if c == '&' {
      EscapeAmp(c);
    } else if c == '<' {
      EscapeLt(c);
    } else if c == '>' {
      EscapeGt(c);
    } else if c == '"' {
      EscapeQuot(c);
    } else {
      EscapeHtmlPlain([c]);
    }
  }

  /** The chained replacements escape each character independently: since
      `&` is replaced first, the entities introduced by the later steps are
      never escaped again. */
  lemma {:induction false} EscapeHtmlIsEach(s: string)
    ensures EscapeHtml(s) == EscapeEach(s)
  {
    if s != [] {
      assert s == [s[0]] + s[1..];
      EscapeHtmlConcat([s[0]], s[1..]);
      EscapeHtmlChar(s[0]);
      EscapeHtmlIsEach(s[1..]);
    }
  }

  /** Within one escaped character, an `&` only ever opens its entity. */
  lemma EscapeCharSafe(c: char)
    ensures var e := EscapeChar(c);
      forall i :: 0 <= i < |e| ==> e[i] != '<' && e[i] != '>' && e[i] != '"' && (e[i] == '&' ==> i == 0 && Special(c))
  {
  }

  lemma {:induction false} EscapeEachSafe(s: string)
    ensures Safe(EscapeEach(s))
  {
    if s != [] {
      EscapeEachSafe(s[1..]);
      EscapeCharSafe(s[0]);
      var e, t := EscapeChar(s[0]), EscapeEach(s[1..]);
      var r := e + t;
      assert EscapeEach(s) == r;
      assert Safe(t);
      forall i | 0 <= i < |r|
        ensures r[i] != '<' && r[i] != '>' && r[i] != '"' && (r[i] == '&' ==> EntityAt(r, i))
      {
        if i < |e| {
          assert r[i] == e[i];
          assert e[i] != '<' && e[i] != '>' && e[i] != '"' && (e[i] == '&' ==> i == 0 && Special(s[0]));
          if e[i] == '&' {
            assert r[i..][..|e|] == e;
          }
        } else {
          var j := i - |e|;
          assert r[i] == t[j];
          assert r[i..] == t[j..];
          assert t[j] != '<' && t[j] != '>' && t[j] != '"' && (t[j] == '&' ==> EntityAt(t, j));
        }
      }
    }
  }

  /** `_escape_html` leaves no raw `<`, `>` or `"`, and every `&` it leaves
      begins one of `&amp;`, `&lt;`, `&gt;`, `&quot;`. */
  lemma EscapeHtmlSafe(s: string)
    ensures Safe(EscapeHtml(s))
  {
    EscapeHtmlIsEach(s);
    EscapeEachSafe(s);
  }

  /** Text with none of the four special characters is returned unchanged. */
  lemma EscapeHtmlPlain(s: string)
    requires forall i :: 0 <= i < |s| ==> !Special(s[i])
    ensures EscapeHtml(s) == s
  {
    ReplaceCharAbsent(s, '&', Amp);
    ReplaceCharAbsent(s, '<', Lt);
    ReplaceCharAbsent(s, '>', Gt);
    ReplaceCharAbsent(s, '"', Quot);
  }

  /** Reading the entities back, as an HTML parser would. */
  function Unescape(s: string): string
    decreases |s|
  {
    if s == [] then []
    else if StartsWith(s, Amp) then "&" + Unescape(s[5..])
    else if StartsWith(s, Lt) then "<" + Unescape(s[4..])
    else if StartsWith(s, Gt) then ">" + Unescape(s[4..])
    else if StartsWith(s, Quot) then "\"" + Unescape(s[6..])
    else [s[0]] + Unescape(s[1..])
  }

  lemma StartsWithAt(s: string, p: string, i: nat)
    requires i < |p|
    ensures StartsWith(s, p) ==> i < |s| && s[i] == p[i]
  {
    if StartsWith(s, p) {
      assert s[..|p|][i] == s[i];
    }
  }

  lemma StartsWithConcat(p: string, t: string)
    ensures StartsWith(p + t, p) && (p + t)[|p|..] == t
  {
    assert (p + t)[..|p|] == p;
  }

  /** Reading back one escaped character. */
  lemma UnescapeCons(c: char, t: string)
    ensures Unescape(EscapeChar(c) + t) == [c] + Unescape(t)
  {
    var e := EscapeChar(c);
    var r := e + t;
    StartsWithConcat(e, t);
    if c == '&' {
    } else if c == '<' {
      StartsWithAt(r, Amp, 1);
    } else if c == '>' {
      StartsWithAt(r, Amp, 1);
      StartsWithAt(r, Lt, 1);
    } else if c == '"' {
      StartsWithAt(r, Amp, 1);
      StartsWithAt(r, Lt, 1);
      StartsWithAt(r, Gt, 1);
    } else {
      StartsWithAt(r, Amp, 0);
      StartsWithAt(r, Lt, 0);
      StartsWithAt(r, Gt, 0);
      StartsWithAt(r, Quot, 0);
    }
  }

  lemma {:induction false} UnescapeEach(s: string)
    ensures Unescape(EscapeEach(s)) == s
  {
    if s != [] {
      UnescapeEach(s[1..]);
      UnescapeCons(s[0], EscapeEach(s[1..]));
      assert s == [s[0]] + s[1..];
    }
  }

  /** Escaping loses nothing: reading the entities back gives the text. */
  lemma EscapeHtmlRoundTrip(s: string)
    ensures Unescape(EscapeHtml(s)) == s
  {
    EscapeHtmlIsEach(s);
    UnescapeEach(s);
  }

  lemma EscapeCharBlank(c: char)
    ensures IsBlank(EscapeChar(c)) <==> IsSpace(c)
  {
    if Special(c) {
      assert EscapeChar(c)[0] == '&';
    } else {
      assert EscapeChar(c) == [c] && EscapeChar(c)[0] == c;
    }
  }

  /** A string is blank exactly when its escaped form is. */
  lemma {:induction false} EscapeEachBlank(s: string)
    ensures IsBlank(EscapeEach(s)) <==> IsBlank(s)
  {
    if s != [] {
      EscapeEachBlank(s[1..]);
      EscapeCharBlank(s[0]);
      BlankConcat(EscapeChar(s[0]), EscapeEach(s[1..]));
      assert s == [s[0]] + s[1..];
      BlankConcat([s[0]], s[1..]);
    }
  }

  lemma EscapeHtmlBlank(s: string)
    ensures IsBlank(EscapeHtml(s)) <==> IsBlank(s)
  {
    EscapeHtmlIsEach(s);
    EscapeEachBlank(s);
  }

  function EscapeAll(xs: seq<string>): (r: seq<string>)
    ensures |r| == |xs|
    ensures forall k :: 0 <= k < |xs| ==> r[k] == EscapeHtml(xs[k])
  {
    seq(|xs|, k requires 0 <= k < |xs| => EscapeHtml(xs[k]))
  }

  /** Escaping lines joined by newlines is joining the escaped lines. */
  lemma {:induction false} EscapeJoinedLines(xs: seq<string>)
    ensures EscapeHtml(Join(xs, "\n")) == Join(EscapeAll(xs), "\n")
  {
    if xs == [] {
    } else if |xs| == 1 {
    } else {
      EscapeJoinedLines(xs[1..]);
      assert EscapeAll(xs)[1..] == EscapeAll(xs[1..]);
      EscapeHtmlConcat(xs[0] + "\n", Join(xs[1..], "\n"));
      EscapeHtmlConcat(xs[0], "\n");
      EscapeHtmlPlain("\n");
    }
  }
}
