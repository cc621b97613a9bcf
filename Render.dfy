/** `_text_to_html`: message text to HTML, line by line. A line whose
    stripped form starts with three backticks toggles a code block; lines
    inside a code block are collected and emitted as one escaped `<pre>`;
    every other line is escaped, gets its `**bold**` spans marked up and a
    `<br>`. A code block still open at the end is emitted if it holds a line. */
module Render {
  import opened Results
  import opened Text
  import opened Escape

  /** The opening tag of a code block, with its inline style. */
  const PreOpen: string := "<pre style=\"margin:8px 0;padding:12px 16px;background:#1F2937;color:#E5E7EB;font-size:12px;line-height:1.6;font-family:'SF Mono','Fira Code',Consolas,monospace;border-radius:6px;white-space:pre-wrap;word-break:break-all;overflow:hidden;\">"
  const PreClose: string := "</pre>"
  const Fence: string := "```"

  predicate IsFence(line: string) {
    StartsWith(Trim(line), Fence)
  }

  // ---------------------------------------------------------------------
  // `re.sub(r"\*\*(.+?)\*\*", r"<strong>\1</strong>", escaped)`

  /** For a string that starts with `**`: the position of the earliest `**`
      at or after `k` that can close it, the bold text in between being at
      least one character and free of newlines (`.` does not match one). */
  function CloseAt(s: string, k: nat): (r: Option<nat>)
    requires k >= 3
    ensures r.Some? ==> k <= r.value && r.value + 2 <= |s| && s[r.value] == '*' && s[r.value + 1] == '*'
    decreases |s| - k
  {
    if k + 2 > |s| || s[k - 1] == '\n' then None
    else if s[k] == '*' && s[k + 1] == '*' then Some(k)
    else CloseAt(s, k + 1)
  }

  /** The non-greedy left-to-right substitution: at each position either the
      shortest `**…**` match is replaced, or one character is copied. */
  function Bold(s: string): string
    decreases |s|
  {
    if s == [] then []
    else if |s| >= 2 && s[0] == '*' && s[1] == '*' && CloseAt(s, 3).Some? then
      var k := CloseAt(s, 3).value;
      "<strong>" + s[2..k] + "</strong>" + Bold(s[k + 2..])
    else [s[0]] + Bold(s[1..])
  }

  /** Without an asterisk there is nothing to mark up. */
  lemma {:induction false} BoldPlain(s: string)
    requires '*' !in s
    ensures Bold(s) == s
  {
    if s != [] {
      BoldPlain(s[1..]);
      assert s == [s[0]] + s[1..];
    }
  }

  /** The markup neither creates nor removes visible text. */
  lemma {:induction false} BoldBlank(s: string)
    ensures IsBlank(Bold(s)) <==> IsBlank(s)
    decreases |s|
  {
    if s != [] {
      if |s| >= 2 && s[0] == '*' && s[1] == '*' && CloseAt(s, 3).Some? {
        var k := CloseAt(s, 3).value;
        assert Bold(s)[0] == '<';
        assert !IsSpace(s[0]);
      } else {
        BoldBlank(s[1..]);
        BlankConcat([s[0]], Bold(s[1..]));
        assert s == [s[0]] + s[1..];
        BlankConcat([s[0]], s[1..]);
      }
    }
  }

  // ---------------------------------------------------------------------
  // What one line or one code block becomes

  /** The part a line outside a code block contributes. */
  function LinePart(line: string): string {
    var escaped := Bold(EscapeHtml(line));
    if Trim(escaped) != "" then escaped + "<br>" else "<br>"
  }

  /** A blank line contributes just `<br>`; any other line its escaped form
      (with bold markup) followed by `<br>`. */
  lemma LinePartShape(line: string)
    ensures LinePart(line) == if IsBlank(line) then "<br>" else Bold(EscapeHtml(line)) + "<br>"
  {
    var escaped := Bold(EscapeHtml(line));
    TrimEmptyIffBlank(escaped);
    BoldBlank(EscapeHtml(line));
    EscapeHtmlBlank(line);
  }

  /** The `<pre>` block for the lines of one code block. */
  function Pre(code: seq<string>): string {
    PreOpen + EscapeHtml(Join(code, "\n")) + PreClose
  }

  /** A code block holds its lines, each escaped, joined by newlines. */
  lemma PreShape(code: seq<string>)
    ensures Pre(code) == PreOpen + Join(EscapeAll(code), "\n") + PreClose
  {
    EscapeJoinedLines(code);
  }

  // ---------------------------------------------------------------------
  // Reference definition: the text as a sequence of blocks

  /** How the loop sees a line: a fence, or a line with content. */
  datatype Line = FenceLine | Content(text: string)

  function Classify(line: string): (r: Line)
    ensures r.FenceLine? <==> IsFence(line)
    ensures r.Content? ==> r.text == line
  {
    if IsFence(line) then FenceLine else Content(line)
  }

  function ClassifyAll(lines: seq<string>): (r: seq<Line>)
    ensures |r| == |lines|
    ensures forall k :: 0 <= k < |lines| ==> r[k] == Classify(lines[k])
  {
    seq(|lines|, k requires 0 <= k < |lines| => Classify(lines[k]))
  }

  /** A plain line, or the lines of one code block (fences excluded). */
  datatype Block = TextLine(line: string) | Code(lines: seq<string>)

  /** The texts of the lines with content, in order. */
  function NonFence(ls: seq<Line>): seq<string> {
    if ls == [] then [] else (if ls[0].FenceLine? then [] else [ls[0].text]) + NonFence(ls[1..])
  }

  function FenceCount(ls: seq<Line>): nat {
    if ls == [] then 0 else (if ls[0].FenceLine? then 1 else 0) + FenceCount(ls[1..])
  }

  /** The index of the first fence, or none if every line has content. */
  function NextFence(ls: seq<Line>): (r: Option<nat>)
    ensures r.Some? ==> r.value < |ls| && ls[r.value].FenceLine?
  {
    if ls == [] then None
    else if ls[0].FenceLine? then Some(0)
    else match NextFence(ls[1..])
      case None => None
      case Some(k) => Some(k + 1)
  }

  /** No fence comes before the one found, and none at all when none is. */
  lemma {:induction false} NextFenceFirst(ls: seq<Line>)
    ensures NextFence(ls).Some? ==> FenceCount(ls[..NextFence(ls).value]) == 0
    ensures NextFence(ls).None? ==> FenceCount(ls) == 0
  {
    if ls != [] && ls[0].Content? {
      NextFenceFirst(ls[1..]);
      if NextFence(ls).Some? {
        var k := NextFence(ls[1..]).value;
        assert ls[..k + 1][1..] == ls[1..][..k];
      }
    }
  }

  /** Lines without a fence have content, each of them. */
  lemma {:induction false} NoFenceAt(ls: seq<Line>, i: nat)
    requires FenceCount(ls) == 0 && i < |ls|
    ensures ls[i].Content?
  {
    if i > 0 {
      NoFenceAt(ls[1..], i - 1);
    }
  }

  lemma NonFenceNonEmpty(ls: seq<Line>)
    requires ls != [] && FenceCount(ls) == 0
    ensures NonFence(ls) != []
  {
  }

  /** A fence opens a code block that runs to the next fence, which closes
      it; a fence with no closing fence opens a block that runs to the end
      of the text, and is dropped when nothing follows it. */
  function Blocks(ls: seq<Line>): seq<Block>
    decreases |ls|
  {
    if ls == [] then []
    else if ls[0].Content? then [TextLine(ls[0].text)] + Blocks(ls[1..])
    else
      var tail := ls[1..];
      match NextFence(tail)
      case Some(k) => [Code(NonFence(tail[..k]))] + Blocks(tail[k + 1..])
      case None => if tail != [] then [Code(NonFence(tail))] else []
  }

  function RenderBlock(b: Block): string {
    match b
    case TextLine(l) => LinePart(l)
    case Code(c) => Pre(c)
  }

  /** The HTML parts of the blocks, one part per block, in order. */
  function RenderBlocks(bs: seq<Block>): (r: seq<string>)
    ensures |r| == |bs|
  {
    if bs == [] then [] else RenderBlocks(bs[..|bs| - 1]) + [RenderBlock(bs[|bs| - 1])]
  }

  lemma RenderBlocksSnoc(bs: seq<Block>, b: Block)
    ensures RenderBlocks(bs + [b]) == RenderBlocks(bs) + [RenderBlock(b)]
  {
    assert (bs + [b])[..|bs|] == bs;
  }

  // ---------------------------------------------------------------------
  // The line loop as a state machine

  /** The loop's variables: `in_code` and `code_lines`, and the blocks whose
      parts `html_parts` holds. */
  datatype Renderer = Renderer(inCode: bool, code: seq<string>, done: seq<Block>)

  /** One iteration of the loop. */
  function Step(st: Renderer, l: Line): Renderer {
    match l
    case FenceLine =>
      if st.inCode then Renderer(false, [], st.done + [Code(st.code)]) else st.(inCode := true)
    case Content(line) =>
      if st.inCode then st.(code := st.code + [line]) else st.(done := st.done + [TextLine(line)])
  }

  /** After the loop: an open code block with at least one line is flushed. */
  function Finish(st: Renderer): seq<Block> {
    if st.inCode && st.code != [] then st.done + [Code(st.code)] else st.done
  }

  /** Running the remaining lines from a state, then finishing. */
  function RenderFrom(st: Renderer, ls: seq<Line>): seq<Block>
    decreases |ls|
  {
    if ls == [] then Finish(st) else RenderFrom(Step(st, ls[0]), ls[1..])
  }

  /** Inside a code block, the machine collects the lines up to the next
      fence and then continues outside with the block closed. */
  lemma {:induction false} RenderInCodeClosed(code: seq<string>, done: seq<Block>, ls: seq<Line>)
    requires NextFence(ls).Some?
    ensures var k := NextFence(ls).value;
      RenderFrom(Renderer(true, code, done), ls) ==
      RenderFrom(Renderer(false, [], done + [Code(code + NonFence(ls[..k]))]), ls[k + 1..])
    decreases |ls|
  {
    if ls[0].FenceLine? {
      assert Step(Renderer(true, code, done), ls[0]) == Renderer(false, [], done + [Code(code)]);
      assert code + NonFence(ls[..0]) == code;
    } else {
      var line, rest := ls[0].text, ls[1..];
      var k := NextFence(rest).value;
      assert Step(Renderer(true, code, done), ls[0]) == Renderer(true, code + [line], done);
      RenderInCodeClosed(code + [line], done, rest);
      assert NextFence(ls) == Some(k + 1);
      assert ls[..k + 1][1..] == rest[..k];
      assert NonFence(ls[..k + 1]) == [line] + NonFence(rest[..k]);
      assert code + NonFence(ls[..k + 1]) == (code + [line]) + NonFence(rest[..k]);
      assert rest[k + 1..] == ls[k + 2..];
    }
  }

  /** Inside a code block with no fence left, the machine collects every
      remaining line and finishes. */
  lemma {:induction false} RenderInCodeOpen(code: seq<string>, done: seq<Block>, ls: seq<Line>)
    requires NextFence(ls).None?
    ensures RenderFrom(Renderer(true, code, done), ls) == Finish(Renderer(true, code + NonFence(ls), done))
    decreases |ls|
  {
    if ls == [] {
      assert code + NonFence(ls) == code;
    } else {
      var line, rest := ls[0].text, ls[1..];
      assert NextFence(rest).None?;
      assert Step(Renderer(true, code, done), ls[0]) == Renderer(true, code + [line], done);
      RenderInCodeOpen(code + [line], done, rest);
      assert NonFence(ls) == [line] + NonFence(rest);
      assert code + NonFence(ls) == (code + [line]) + NonFence(rest);
    }
  }

  /** Outside a code block, the machine produces exactly the blocks. */
  lemma {:induction false} RenderOutside(done: seq<Block>, ls: seq<Line>)
    ensures RenderFrom(Renderer(false, [], done), ls) == done + Blocks(ls)
    decreases |ls|, 1
  {
    if ls == [] {
    } else if ls[0].Content? {
      RenderOutsideContent(done, ls);
    } else if NextFence(ls[1..]).Some? {
      RenderOutsideClosed(done, ls);
    } else {
      RenderOutsideOpen(done, ls);
    }
  }

  /** A line with content outside a code block is a block of its own. */
  lemma {:induction false} RenderOutsideContent(done: seq<Block>, ls: seq<Line>)
    requires ls != [] && ls[0].Content?
    ensures RenderFrom(Renderer(false, [], done), ls) == done + Blocks(ls)
    decreases |ls|, 0
  {
    var b := TextLine(ls[0].text);
    assert Step(Renderer(false, [], done), ls[0]) == Renderer(false, [], done + [b]);
    RenderOutside(done + [b], ls[1..]);
    assert done + [b] + Blocks(ls[1..]) == done + ([b] + Blocks(ls[1..]));
  }

  /** A fence with no closing fence: the rest of the text is one code block,
      dropped when empty. */
  lemma {:induction false} RenderOutsideOpen(done: seq<Block>, ls: seq<Line>)
    requires ls != [] && ls[0].FenceLine? && NextFence(ls[1..]).None?
    ensures RenderFrom(Renderer(false, [], done), ls) == done + Blocks(ls)
  {
    var tail := ls[1..];
    assert Step(Renderer(false, [], done), ls[0]) == Renderer(true, [], done);
    RenderInCodeOpen([], done, tail);
    assert [] + NonFence(tail) == NonFence(tail);
    NextFenceFirst(tail);
    if tail == [] {
      assert NonFence(tail) == [];
    } else {
      NonFenceNonEmpty(tail);
    }
  }

  /** A fence that a later fence closes: one code block, then the lines after
      the closing fence. */
  lemma {:induction false} RenderOutsideClosed(done: seq<Block>, ls: seq<Line>)
    requires ls != [] && ls[0].FenceLine? && NextFence(ls[1..]).Some?
    ensures RenderFrom(Renderer(false, [], done), ls) == done + Blocks(ls)
    decreases |ls|, 0
  {
    var tail := ls[1..];
    var k := NextFence(tail).value;
    var b := Code(NonFence(tail[..k]));
    assert Step(Renderer(false, [], done), ls[0]) == Renderer(true, [], done);
    RenderInCodeClosed([], done, tail);
    assert [] + NonFence(tail[..k]) == NonFence(tail[..k]);
    RenderOutside(done + [b], tail[k + 1..]);
    assert done + [b] + Blocks(tail[k + 1..]) == done + ([b] + Blocks(tail[k + 1..]));
  }

  /** The two-state loop reads the lines as exactly the blocks. */
  lemma RenderIsBlocks(ls: seq<Line>)
    ensures RenderFrom(Renderer(false, [], []), ls) == Blocks(ls)
  {
    RenderOutside([], ls);
  }

  /** `_text_to_html`: the loop over the lines with its two-state machine. */
  method TextToHtml(text: string) returns (html: string)
    ensures html == Join(RenderBlocks(Blocks(ClassifyAll(Split(text, '\n')))), "\n")
  {
    var lines := Split(text, '\n');
    ghost var ls := ClassifyAll(lines);
    var parts: seq<string> := [];
    var inCode := false;
    var code: seq<string> := [];
    ghost var done: seq<Block> := [];
    var i := 0;
    while i < |lines|
      invariant 0 <= i <= |lines|
      invariant parts == RenderBlocks(done)
      invariant RenderFrom(Renderer(inCode, code, done), ls[i..]) == RenderFrom(Renderer(false, [], []), ls)
    {
      var line := lines[i];
      assert ls[i..][1..] == ls[i + 1..];
      var stripped := Trim(line);
      if StartsWith(stripped, Fence) {
        assert ls[i] == FenceLine;
        if inCode {
          parts := parts + [PreOpen + EscapeHtml(Join(code, "\n")) + PreClose];
          RenderBlocksSnoc(done, Code(code));
          done := done + [Code(code)];
          code := [];
          inCode := false;
        } else {
          inCode := true;
        }
      } else if inCode {
        assert ls[i] == Content(line);
        code := code + [line];
      } else {
        assert ls[i] == Content(line);
        var escaped := Bold(EscapeHtml(line));
        if Trim(escaped) != "" {
          parts := parts + [escaped + "<br>"];
        } else {
          parts := parts + ["<br>"];
        }
        RenderBlocksSnoc(done, TextLine(line));
        done := done + [TextLine(line)];
      }
      i := i + 1;
    }
    if inCode && code != [] {
      parts := parts + [PreOpen + EscapeHtml(Join(code, "\n")) + PreClose];
      RenderBlocksSnoc(done, Code(code));
      done := done + [Code(code)];
    }
    html := Join(parts, "\n");
    RenderIsBlocks(ls);
  }

  // ---------------------------------------------------------------------
  // Properties of the block reading

  /** The lines the blocks hold, in order. */
  function BlockLines(bs: seq<Block>): seq<string> {
    if bs == [] then []
    else (match bs[0] case TextLine(l) => [l] case Code(c) => c) + BlockLines(bs[1..])
  }

  function CodeCount(bs: seq<Block>): nat {
    if bs == [] then 0 else (if bs[0].Code? then 1 else 0) + CodeCount(bs[1..])
  }

  lemma {:induction false} NonFenceSplit(ls: seq<Line>, n: nat)
    requires n <= |ls|
    ensures NonFence(ls) == NonFence(ls[..n]) + NonFence(ls[n..])
  {
    if n > 0 {
      NonFenceSplit(ls[1..], n - 1);
      assert ls[..n][1..] == ls[1..][..n - 1];
      assert ls[1..][n - 1..] == ls[n..];
    }
  }

  lemma {:induction false} FenceCountSplit(ls: seq<Line>, n: nat)
    requires n <= |ls|
    ensures FenceCount(ls) == FenceCount(ls[..n]) + FenceCount(ls[n..])
  {
    if n > 0 {
      FenceCountSplit(ls[1..], n - 1);
      assert ls[..n][1..] == ls[1..][..n - 1];
      assert ls[1..][n - 1..] == ls[n..];
    }
  }

  /** Every line with content lands in exactly one block, in order; no
      fence line lands in any block. */
  lemma {:induction false} BlocksKeepNonFenceLines(ls: seq<Line>)
    ensures BlockLines(Blocks(ls)) == NonFence(ls)
    decreases |ls|
  {
    if ls == [] {
    } else if ls[0].Content? {
      BlocksKeepNonFenceLines(ls[1..]);
    } else {
      var tail := ls[1..];
      match NextFence(tail) {
        case Some(k) =>
          var rest := tail[k + 1..];
          var b := Code(NonFence(tail[..k]));
          BlocksKeepNonFenceLines(rest);
          NonFenceSplit(tail, k);
          assert tail[k..][1..] == rest;
          assert NonFence(tail[k..]) == NonFence(rest);
          assert ([b] + Blocks(rest))[1..] == Blocks(rest);
          assert BlockLines([b] + Blocks(rest)) == NonFence(tail[..k]) + BlockLines(Blocks(rest));
        case None =>
          if tail != [] {
            assert [Code(NonFence(tail))][1..] == [];
          }
      }
    }
  }

  /** The last line has content. */
  predicate EndsWithContent(ls: seq<Line>) {
    ls != [] && ls[|ls| - 1].Content?
  }

  /** Closed fence pairs each give one code block; a final unclosed fence
      gives one more exactly when some line follows it. */
  lemma {:induction false} CodeBlockCount(ls: seq<Line>)
    ensures CodeCount(Blocks(ls)) ==
      FenceCount(ls) / 2 + (if FenceCount(ls) % 2 == 1 && EndsWithContent(ls) then 1 else 0)
    decreases |ls|, 1
  {
    if ls == [] {
    } else if ls[0].Content? {
      CodeBlockCountContent(ls);
    } else if NextFence(ls[1..]).Some? {
      CodeBlockCountPair(ls);
    } else {
      var tail := ls[1..];
      NextFenceFirst(tail);
      assert FenceCount(ls) == 1;
      if tail != [] {
        assert [Code(NonFence(tail))][1..] == [];
        assert CodeCount(Blocks(ls)) == 1;
        NoFenceAt(tail, |tail| - 1);
        assert tail[|tail| - 1] == ls[|ls| - 1];
      }
    }
  }

  lemma {:induction false} CodeBlockCountContent(ls: seq<Line>)
    requires ls != [] && ls[0].Content?
    ensures CodeCount(Blocks(ls)) ==
      FenceCount(ls) / 2 + (if FenceCount(ls) % 2 == 1 && EndsWithContent(ls) then 1 else 0)
    decreases |ls|, 0
  {
    var rest := ls[1..];
    CodeBlockCount(rest);
    assert ([TextLine(ls[0].text)] + Blocks(rest))[1..] == Blocks(rest);
    assert CodeCount(Blocks(ls)) == CodeCount(Blocks(rest));
    assert FenceCount(ls) == FenceCount(rest);
    assert rest != [] ==> rest[|rest| - 1] == ls[|ls| - 1];
    assert FenceCount(rest) % 2 == 1 ==> rest != [];
  }

  lemma {:induction false} CodeBlockCountPair(ls: seq<Line>)
    requires ls != [] && ls[0].FenceLine? && NextFence(ls[1..]).Some?
    ensures CodeCount(Blocks(ls)) ==
      FenceCount(ls) / 2 + (if FenceCount(ls) % 2 == 1 && EndsWithContent(ls) then 1 else 0)
    decreases |ls|, 0
  {
    var tail := ls[1..];
    var k := NextFence(tail).value;
    var rest := tail[k + 1..];
    var b := Code(NonFence(tail[..k]));
    CodeBlockCount(rest);
    FenceCountSplit(tail, k);
    NextFenceFirst(tail);
    assert tail[k..][1..] == rest;
    var f := FenceCount(rest);
    assert FenceCount(tail[k..]) == 1 + f;
    assert FenceCount(ls) == f + 2;
    assert ([b] + Blocks(rest))[1..] == Blocks(rest);
    assert CodeCount(Blocks(ls)) == CodeCount(Blocks(rest)) + 1;
    assert rest != [] ==> rest[|rest| - 1] == ls[|ls| - 1];
    assert f % 2 == 1 ==> rest != [];
    assert (f + 2) / 2 == f / 2 + 1 && (f + 2) % 2 == f % 2;
  }
}
