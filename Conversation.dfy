/** `extract_conversation`: the ordered list of `{role, text}` records read
    out of a hook payload, with one rule set per source. */
module Conversation {
  import opened Results
  import opened Text
  import opened Json
  import opened Loops

  const ClaudeCode: string := "claude-code"
  const Codex: string := "codex"
  /** Fragments of one message are joined with a blank line. */
  const Paragraph: string := "\n\n"

  datatype Role = User | Assistant

  datatype Message = Message(role: Role, text: string)

  /** A `{"type": "text", "text": ...}` content block: its stripped text,
      if any. A `text` that is not a string has no `strip`, which raises. */
  function TextBlock(fields: seq<Field>): (r: Result<Option<string>>)
    ensures r.Ok? && r.value.Some? ==> IsClean(r.value.value)
  {
    if Lookup(fields, "type", JNull) != JStr("text") then Ok(None)
    else match Lookup(fields, "text", JStr(""))
      case JStr(t) => Ok(Stripped(t))
      case _ => Raise
  }

  /** One entry of a Claude Code message's `content`: only text blocks count. */
  function ClaudeFragment(c: Json): (r: Result<Option<string>>)
    ensures r.Ok? && r.value.Some? ==> IsClean(r.value.value)
  {
    if c.JObject? then TextBlock(c.fields) else Ok(None)
  }

  /** One entry of a Codex `content` list: text blocks and bare strings count. */
  function CodexFragment(c: Json): (r: Result<Option<string>>)
    ensures r.Ok? && r.value.Some? ==> IsClean(r.value.value)
  {
    match c
    case JObject(fields) => TextBlock(fields)
    case JStr(s) => Ok(Stripped(s))
    case _ => Ok(None)
  }

  /** The text fragments of a Claude Code transcript item's `message`: the
      text blocks of a dict's `content`, or a plain string stripped. */
  function MessageTexts(msg: Json): (r: Result<seq<string>>)
    ensures r.Ok? ==> forall k :: 0 <= k < |r.value| ==> IsClean(r.value[k])
  {
    match msg
    case JObject(fields) =>
      var items :- Iterate(Lookup(fields, "content", JList([])));
      var texts := Gather(ClaudeFragment, items);
      if texts.Ok? then
        CleanGathered(ClaudeFragment, items);
        texts
      else Raise
    case JStr(s) => Ok(match Stripped(s) case Some(t) => [t] case None => [])
    case _ => Ok([])
  }

  /** The record a Claude Code transcript item contributes. Only a dict has
      `get`; items of another `type` are skipped before their message is read. */
  function ClaudeItem(item: Json): (r: Result<Option<Message>>)
    ensures r.Ok? && r.value.Some? ==> IsClean(r.value.value.text)
  {
    if !item.JObject? then Raise
    else
      var ty := Lookup(item.fields, "type", JStr(""));
      if ty != JStr("human") && ty != JStr("assistant") then Ok(None)
      else
        var texts :- MessageTexts(Lookup(item.fields, "message", JObject([])));
        if texts == [] then Ok(None)
        else
          JoinClean(texts, Paragraph);
          Ok(Some(Message(if ty == JStr("human") then User else Assistant, Join(texts, Paragraph))))
  }

  /** The records of the `claude-code` source. */
  function ClaudeConversation(data: Json): Result<seq<Message>> {
    var transcript :- Get(data, "transcript", JList([]));
    var items :- Iterate(transcript);
    Gather(ClaudeItem, items)
  }

  /** The text of a Codex `content`: a non-blank string, or the fragments of
      a list joined with a blank line; nothing for anything else. */
  function CodexContent(content: Json): (r: Result<Option<string>>)
    ensures r.Ok? && r.value.Some? ==> IsClean(r.value.value)
  {
    match content
    case JStr(s) => Ok(Stripped(s))
    case JList(items) =>
      var texts := Gather(CodexFragment, items);
      if texts.Raise? then Raise
      else if texts.value == [] then Ok(None)
      else
        CleanGathered(CodexFragment, items);
        JoinClean(texts.value, Paragraph);
        Ok(Some(Join(texts.value, Paragraph)))
    case _ => Ok(None)
  }

  /** A Codex input message or last reply: a non-blank string, or a dict
      whose `content` yields text. */
  function CodexEntry(v: Json): (r: Result<Option<string>>)
    ensures r.Ok? && r.value.Some? ==> IsClean(r.value.value)
  {
    match v
    case JStr(s) => Ok(Stripped(s))
    case JObject(fields) => CodexContent(Lookup(fields, "content", JStr("")))
    case _ => Ok(None)
  }

  function AsUser(t: Option<string>): Option<Message> {
    match t
    case Some(s) => Some(Message(User, s))
    case None => None
  }

  /** One item of `input-messages`, as a user record. */
  function CodexUser(item: Json): (r: Result<Option<Message>>)
    ensures r.Ok? && r.value.Some? ==> r.value.value.role == User && IsClean(r.value.value.text)
  {
    var t :- CodexEntry(item);
    Ok(AsUser(t))
  }

  /** The records of the `codex` source: the user inputs, then the last
      reply; when neither yields anything, the pretty-printed payload. */
  function CodexConversation(data: Json, dumps: Json -> string): Result<seq<Message>> {
    var inputs :- Get(data, "input-messages", JList([]));
    var items :- Iterate(inputs);
    var users :- Gather(CodexUser, items);
    var last :- Get(data, "last-assistant-message", JStr(""));
    var reply :- CodexEntry(last);
    Ok(WithReply(users, reply, dumps(data)))
  }

  /** The user records followed by the reply, or else the fallback record. */
  function WithReply(users: seq<Message>, reply: Option<string>, raw: string): seq<Message> {
    var ms := users + match reply case Some(t) => [Message(Assistant, t)] case None => [];
    if ms == [] then [Message(Assistant, raw)] else ms
  }

  /** `extract_conversation(data, source)`; `dumps` stands for
      `json.dumps(data, ensure_ascii=False, indent=2)`. */
  function Extract(data: Json, source: string, dumps: Json -> string): (r: Result<seq<Message>>)
    ensures source != ClaudeCode && source != Codex ==> r == Ok([Message(Assistant, dumps(data))])
    ensures source != ClaudeCode && r.Ok? ==> r.value != []
  {
    if source == ClaudeCode then ClaudeConversation(data)
    else if source == Codex then CodexConversation(data, dumps)
    else Ok([Message(Assistant, dumps(data))])
  }

  // ---------------------------------------------------------------------
  // The loops

  /** The inner loop over a Claude Code message's `content`. */
  method CollectClaudeFragments(items: seq<Json>) returns (r: Result<seq<string>>)
    ensures r == Gather(ClaudeFragment, items)
  {
    var texts: seq<string> := [];
    var i := 0;
    while i < |items|
      invariant 0 <= i <= |items|
      invariant Gather(ClaudeFragment, items[..i]) == Ok(texts)
    {
      GatherStep(ClaudeFragment, items, i, texts);
      var t := ClaudeFragment(items[i]);
      if t.Raise? {
        return Raise;
      }
      if t.value.Some? {
        texts := texts + [t.value.value];
      }
      i := i + 1;
    }
    assert items[..i] == items;
    return Ok(texts);
  }

  /** The inner loop over a Codex `content` list. */
  method CollectCodexFragments(items: seq<Json>) returns (r: Result<seq<string>>)
    ensures r == Gather(CodexFragment, items)
  {
    var texts: seq<string> := [];
    var i := 0;
    while i < |items|
      invariant 0 <= i <= |items|
      invariant Gather(CodexFragment, items[..i]) == Ok(texts)
    {
      GatherStep(CodexFragment, items, i, texts);
      var c := items[i];
      if c.JObject? {
        var t := TextBlock(c.fields);
        if t.Raise? {
          return Raise;
        }
        if t.value.Some? {
          texts := texts + [t.value.value];
        }
      } else if c.JStr? && Stripped(c.s).Some? {
        texts := texts + [Trim(c.s)];
      }
      i := i + 1;
    }
    assert items[..i] == items;
    return Ok(texts);
  }

  /** The body of the transcript loop for one item. */
  method ClaudeItemOf(item: Json) returns (r: Result<Option<Message>>)
    ensures r == ClaudeItem(item)
  {
    if !item.JObject? {
      return Raise;
    }
    var ty := Lookup(item.fields, "type", JStr(""));
    if ty != JStr("human") && ty != JStr("assistant") {
      return Ok(None);
    }
    var role := if ty == JStr("human") then User else Assistant;
    var msg := Lookup(item.fields, "message", JObject([]));
    var texts: seq<string> := [];
    if msg.JObject? {
      var content := Iterate(Lookup(msg.fields, "content", JList([])));
      if content.Raise? {
        return Raise;
      }
      var got := CollectClaudeFragments(content.value);
      if got.Raise? {
        return Raise;
      }
      texts := got.value;
    } else if msg.JStr? && Stripped(msg.s).Some? {
      texts := [Trim(msg.s)];
    }
    if texts == [] {
      return Ok(None);
    }
    return Ok(Some(Message(role, Join(texts, Paragraph))));
  }

  /** The loop over the `transcript` items. */
  method CollectClaudeMessages(xs: seq<Json>) returns (r: Result<seq<Message>>)
    ensures r == Gather(ClaudeItem, xs)
  {
    var messages: seq<Message> := [];
    var i := 0;
    while i < |xs|
      invariant 0 <= i <= |xs|
      invariant Gather(ClaudeItem, xs[..i]) == Ok(messages)
    {
      GatherStep(ClaudeItem, xs, i, messages);
      var m := ClaudeItemOf(xs[i]);
      if m.Raise? {
        return Raise;
      }
      if m.value.Some? {
        messages := messages + [m.value.value];
      }
      i := i + 1;
    }
    assert xs[..i] == xs;
    return Ok(messages);
  }

  /** The branches shared by a Codex input item and the last reply. */
  method CodexItemText(v: Json) returns (r: Result<Option<string>>)
    ensures r == CodexEntry(v)
  {
    if v.JStr? && Stripped(v.s).Some? {
      return Ok(Some(Trim(v.s)));
    } else if v.JObject? {
      var content := Lookup(v.fields, "content", JStr(""));
      if content.JStr? && Stripped(content.s).Some? {
        return Ok(Some(Trim(content.s)));
      } else if content.JList? {
        var texts := CollectCodexFragments(content.items);
        if texts.Raise? {
          return Raise;
        }
        if texts.value != [] {
          return Ok(Some(Join(texts.value, Paragraph)));
        }
      }
    }
    return Ok(None);
  }

  /** The loop over `input-messages`. */
  method CollectCodexUsers(xs: seq<Json>) returns (r: Result<seq<Message>>)
    ensures r == Gather(CodexUser, xs)
  {
    var messages: seq<Message> := [];
    var i := 0;
    while i < |xs|
      invariant 0 <= i <= |xs|
      invariant Gather(CodexUser, xs[..i]) == Ok(messages)
    {
      GatherStep(CodexUser, xs, i, messages);
      var t := CodexItemText(xs[i]);
      if t.Raise? {
        return Raise;
      }
      if t.value.Some? {
        messages := messages + [Message(User, t.value.value)];
      }
      i := i + 1;
    }
    assert xs[..i] == xs;
    return Ok(messages);
  }

  /** The `codex` branch of `extract_conversation`. */
  method CodexMessages(data: Json, dumps: Json -> string) returns (r: Result<seq<Message>>)
    ensures r == CodexConversation(data, dumps)
  {
    var inputs := Get(data, "input-messages", JList([]));
    if inputs.Raise? {
      return Raise;
    }
    var items := Iterate(inputs.value);
    if items.Raise? {
      return Raise;
    }
    var users := CollectCodexUsers(items.value);
    if users.Raise? {
      return Raise;
    }
    var messages := users.value;
    var last := Get(data, "last-assistant-message", JStr(""));
    if last.Raise? {
      return Raise;
    }
    var reply := CodexItemText(last.value);
    if reply.Raise? {
      return Raise;
    }
    if reply.value.Some? {
      messages := messages + [Message(Assistant, reply.value.value)];
    }
    if messages == [] {
      messages := [Message(Assistant, dumps(data))];
    }
    assert messages == WithReply(users.value, reply.value, dumps(data));
    return Ok(messages);
  }

  /** `extract_conversation`, loop by loop. */
  method ExtractConversation(data: Json, source: string, dumps: Json -> string) returns (r: Result<seq<Message>>)
    ensures r == Extract(data, source, dumps)
  {
    if source == ClaudeCode {
      var transcript := Get(data, "transcript", JList([]));
      if transcript.Raise? {
        return Raise;
      }
      var items := Iterate(transcript.value);
      if items.Raise? {
        return Raise;
      }
      r := CollectClaudeMessages(items.value);
    } else if source == Codex {
      r := CodexMessages(data, dumps);
    } else {
      r := Ok([Message(Assistant, dumps(data))]);
    }
  }

  // ---------------------------------------------------------------------
  // Properties

  /** Gathered fragments are clean when every fragment is. */
  lemma CleanGathered(f: Json -> Result<Option<string>>, items: seq<Json>)
    requires forall c :: f(c).Ok? && f(c).value.Some? ==> IsClean(f(c).value.value)
    requires Gather(f, items).Ok?
    ensures forall k :: 0 <= k < |Gather(f, items).value| ==> IsClean(Gather(f, items).value[k])
  {
    GatherMeaning(f, items);
    var ys := Yields(f, items);
    forall i | 0 <= i < |ys| && ys[i].Some? ensures IsClean(ys[i].value) {
      assert f(items[i]).Ok?;
    }
    SomesAll(ys, IsClean);
  }

  /** A transcript item yields a record exactly when it is a dict of type
      `human` or `assistant` whose message has text; `human` becomes the
      user role and `assistant` the assistant role, and the text is the
      message's fragments joined with a blank line. */
  lemma ClaudeItemMeaning(item: Json)
    ensures ClaudeItem(item).Ok? && ClaudeItem(item).value.Some? <==>
      item.JObject?
      && Lookup(item.fields, "type", JStr("")) in {JStr("human"), JStr("assistant")}
      && MessageTexts(Lookup(item.fields, "message", JObject([]))).Ok?
      && MessageTexts(Lookup(item.fields, "message", JObject([]))).value != []
    ensures ClaudeItem(item).Ok? && ClaudeItem(item).value.Some? ==>
      var m := ClaudeItem(item).value.value;
      (m.role == User <==> Lookup(item.fields, "type", JStr("")) == JStr("human"))
      && m.text == Join(MessageTexts(Lookup(item.fields, "message", JObject([]))).value, Paragraph)
  {
  }

  /** The `claude-code` records are the records of the transcript items
      that yield one, in transcript order and without omission, each with
      a non-empty stripped text. The call raises exactly when some item
      raises. */
  lemma ClaudeExtraction(data: Json, items: seq<Json>)
    requires Get(data, "transcript", JList([])).Ok?
    requires Iterate(Get(data, "transcript", JList([])).value) == Ok(items)
    ensures ClaudeConversation(data).Raise? <==> exists i :: 0 <= i < |items| && ClaudeItem(items[i]).Raise?
    ensures ClaudeConversation(data).Ok? ==>
      var ms := ClaudeConversation(data).value;
      var ys := Yields(ClaudeItem, items);
      ms == Somes(ys) && |Kept(ys)| == |ms|
      && (forall j :: 0 <= j < |Kept(ys)| ==> Kept(ys)[j] < |items| && ClaudeItem(items[Kept(ys)[j]]) == Ok(Some(ms[j])))
      && (forall j, k :: 0 <= j < k < |Kept(ys)| ==> Kept(ys)[j] < Kept(ys)[k])
      && (forall i :: 0 <= i < |items| && ys[i].Some? ==> i in Kept(ys))
      && (forall j :: 0 <= j < |ms| ==> IsClean(ms[j].text))
  {
    GatherMeaning(ClaudeItem, items);
    var ys := Yields(ClaudeItem, items);
    SomesKept(ys);
    if ClaudeConversation(data).Ok? {
      forall j | 0 <= j < |Kept(ys)| ensures ClaudeItem(items[Kept(ys)[j]]) == Ok(Some(Somes(ys)[j])) {
        var i := Kept(ys)[j];
        assert ClaudeItem(items[i]).Ok?;
      }
      forall i | 0 <= i < |ys| && ys[i].Some? ensures IsClean(ys[i].value.text) {
        assert ClaudeItem(items[i]).Ok?;
      }
      SomesAll(ys, (m: Message) => IsClean(m.text));
    }
  }

  /** Every gathered input message is a user record with a clean text. */
  lemma CodexUsersShape(items: seq<Json>)
    requires Gather(CodexUser, items).Ok?
    ensures forall j :: 0 <= j < |Gather(CodexUser, items).value| ==>
      Gather(CodexUser, items).value[j].role == User && IsClean(Gather(CodexUser, items).value[j].text)
  {
    GatherMeaning(CodexUser, items);
    var ys := Yields(CodexUser, items);
    forall i | 0 <= i < |ys| && ys[i].Some? ensures ys[i].value.role == User && IsClean(ys[i].value.text) {
      assert CodexUser(items[i]).Ok?;
    }
    SomesAll(ys, (m: Message) => m.role == User && IsClean(m.text));
  }

  /** The `codex` records in full. The call raises exactly when an input
      message or the last reply raises. Otherwise the user records are
      what the `input-messages` entries yield, in order and without
      omission; a reply with text always follows them as the one assistant
      record; and the pretty-printed payload stands alone exactly when
      neither yields anything. */
  lemma CodexExtraction(data: Json, dumps: Json -> string, items: seq<Json>)
    requires Get(data, "input-messages", JList([])).Ok?
    requires Iterate(Get(data, "input-messages", JList([])).value) == Ok(items)
    ensures CodexConversation(data, dumps).Raise? <==>
      (exists i :: 0 <= i < |items| && CodexUser(items[i]).Raise?)
      || CodexEntry(Lookup(data.fields, "last-assistant-message", JStr(""))).Raise?
    ensures CodexConversation(data, dumps).Ok? ==>
      var ms := CodexConversation(data, dumps).value;
      var ys := Yields(CodexUser, items);
      var users := Somes(ys);
      var reply := CodexEntry(Lookup(data.fields, "last-assistant-message", JStr(""))).value;
      (users == [] && reply.None? ==> ms == [Message(Assistant, dumps(data))])
      && (reply.Some? ==> ms == users + [Message(Assistant, reply.value)])
      && (reply.None? && users != [] ==> ms == users)
      && |Kept(ys)| == |users|
      && (forall j :: 0 <= j < |Kept(ys)| ==> Kept(ys)[j] < |items| && CodexUser(items[Kept(ys)[j]]) == Ok(Some(users[j])))
      && (forall j, k :: 0 <= j < k < |Kept(ys)| ==> Kept(ys)[j] < Kept(ys)[k])
      && (forall i :: 0 <= i < |items| && ys[i].Some? ==> i in Kept(ys))
  {
    GatherMeaning(CodexUser, items);
    var ys := Yields(CodexUser, items);
    SomesKept(ys);
    if CodexConversation(data, dumps).Ok? {
      forall j | 0 <= j < |Kept(ys)| ensures CodexUser(items[Kept(ys)[j]]) == Ok(Some(Somes(ys)[j])) {
        var i := Kept(ys)[j];
        assert CodexUser(items[i]).Ok?;
      }
    }
  }

  /** The `codex` records: never empty; every record but the last is a
      user record, so users come first and there is at most one assistant
      record; either all texts are non-empty and stripped, or the list is
      the single fallback record holding the pretty-printed payload. */
  lemma CodexShape(data: Json, dumps: Json -> string)
    requires CodexConversation(data, dumps).Ok?
    ensures var ms := CodexConversation(data, dumps).value;
      ms != []
      && (forall j :: 0 <= j < |ms| - 1 ==> ms[j].role == User)
      && (ms == [Message(Assistant, dumps(data))] || forall j :: 0 <= j < |ms| ==> IsClean(ms[j].text))
  {
    var items := Iterate(Get(data, "input-messages", JList([])).value).value;
    CodexUsersShape(items);
  }

  /** The only assistant record of a non-fallback `codex` list is the text
      of `last-assistant-message`. */
  lemma CodexReply(data: Json, dumps: Json -> string)
    requires CodexConversation(data, dumps).Ok?
    requires var ms := CodexConversation(data, dumps).value; ms[|ms| - 1].role == Assistant
    ensures var ms := CodexConversation(data, dumps).value;
      ms[|ms| - 1].text == dumps(data)
      || CodexEntry(Get(data, "last-assistant-message", JStr("")).value) == Ok(Some(ms[|ms| - 1].text))
  {
    var items := Iterate(Get(data, "input-messages", JList([])).value).value;
    CodexUsersShape(items);
  }

  // ---------------------------------------------------------------------
  // Which text each piece contributes

  /** The stripped texts of the non-blank strings of `ss`, in order. */
  function NonBlankTrimmed(ss: seq<string>): seq<string> {
    if ss == [] then []
    else NonBlankTrimmed(ss[..|ss| - 1]) + (if IsBlank(ss[|ss| - 1]) then [] else [Trim(ss[|ss| - 1])])
  }

  /** The strings `ss` as JSON strings. */
  function Strings(ss: seq<string>): (r: seq<Json>)
    ensures |r| == |ss| && forall i :: 0 <= i < |ss| ==> r[i] == JStr(ss[i])
  {
    seq(|ss|, i requires 0 <= i < |ss| => JStr(ss[i]))
  }

  /** The texts `ts` as user records. */
  function Users(ts: seq<string>): (r: seq<Message>)
    ensures |r| == |ts| && forall i :: 0 <= i < |ts| ==> r[i] == Message(User, ts[i])
  {
    seq(|ts|, i requires 0 <= i < |ts| => Message(User, ts[i]))
  }

  /** `{"type": "text", "text": t}`. */
  function TextBlockOf(t: string): Json {
    JObject([Field("type", JStr("text")), Field("text", JStr(t))])
  }

  /** A Claude Code content entry contributes the stripped `text` of a dict
      whose `type` is `"text"`, when that text is not blank; a non-string
      `text` there raises; every other entry contributes nothing. */
  lemma ClaudeFragmentMeaning(c: Json)
    ensures var block := c.JObject? && Lookup(c.fields, "type", JNull) == JStr("text");
      var t := if c.JObject? then Lookup(c.fields, "text", JStr("")) else JNull;
      (ClaudeFragment(c).Raise? <==> block && !t.JStr?)
      && (ClaudeFragment(c) == Ok(None) <==> !block || (t.JStr? && IsBlank(t.s)))
      && (block && t.JStr? && !IsBlank(t.s) ==> ClaudeFragment(c) == Ok(Some(Trim(t.s))))
  {
  }

  /** A Codex content entry contributes what a Claude Code one does, and a
      non-blank bare string its stripped text as well. */
  lemma CodexFragmentMeaning(c: Json)
    ensures !c.JStr? ==> CodexFragment(c) == ClaudeFragment(c)
    ensures c.JStr? ==> CodexFragment(c) == Ok(if IsBlank(c.s) then None else Some(Trim(c.s)))
  {
  }

  /** `{"type": "text", "text": t}` contributes `t` stripped, unless blank. */
  lemma TextBlockText(t: string)
    ensures ClaudeFragment(TextBlockOf(t)) == Ok(if IsBlank(t) then None else Some(Trim(t)))
    ensures CodexFragment(TextBlockOf(t)) == ClaudeFragment(TextBlockOf(t))
  {
    var fields := TextBlockOf(t).fields;
    assert KeyIndex(fields, "type") == Some(0);
    assert KeyIndex(fields, "text") == Some(1) by {
      assert KeyIndex(fields[1..], "text") == Some(0);
    }
  }

  /** A content list made only of text blocks contributes the stripped
      non-blank texts, in order, to either source. */
  lemma {:induction false} TextBlocksGather(ts: seq<string>)
    ensures var blocks := seq(|ts|, i requires 0 <= i < |ts| => TextBlockOf(ts[i]));
      Gather(ClaudeFragment, blocks) == Ok(NonBlankTrimmed(ts))
      && Gather(CodexFragment, blocks) == Ok(NonBlankTrimmed(ts))
  {
    var blocks := seq(|ts|, i requires 0 <= i < |ts| => TextBlockOf(ts[i]));
    if ts != [] {
      var n := |ts| - 1;
      TextBlocksGather(ts[..n]);
      assert blocks[..n] == seq(n, i requires 0 <= i < n => TextBlockOf(ts[..n][i]));
      TextBlockText(ts[n]);
      if IsBlank(ts[n]) {
        assert NonBlankTrimmed(ts) == NonBlankTrimmed(ts[..n]) + [];
      }
    }
  }

  /** A plain-string Claude Code message contributes its stripped text
      alone, or nothing when it is blank. */
  lemma MessageTextsString(s: string)
    ensures MessageTexts(JStr(s)) == Ok(if IsBlank(s) then [] else [Trim(s)])
  {
  }

  /** A dict message contributes what its `content` entries contribute, in
      order; a `content` that cannot be iterated raises. */
  lemma MessageTextsDict(fields: seq<Field>)
    ensures Iterate(Lookup(fields, "content", JList([]))).Raise? ==> MessageTexts(JObject(fields)).Raise?
    ensures Iterate(Lookup(fields, "content", JList([]))).Ok? ==>
      MessageTexts(JObject(fields)) == Gather(ClaudeFragment, Iterate(Lookup(fields, "content", JList([]))).value)
  {
  }

  /** A message of any other kind contributes nothing. */
  lemma MessageTextsOther(msg: Json)
    requires !msg.JObject? && !msg.JStr?
    ensures MessageTexts(msg) == Ok([])
  {
  }

  /** A Codex entry: a string contributes its stripped text unless blank; a
      dict its `content`, read the same way when it is a string, or the
      fragments of a list joined with a blank line; anything else nothing. */
  lemma CodexEntryMeaning(v: Json)
    ensures v.JStr? ==> CodexEntry(v) == Ok(if IsBlank(v.s) then None else Some(Trim(v.s)))
    ensures v.JObject? && Lookup(v.fields, "content", JStr("")).JStr? ==>
      var s := Lookup(v.fields, "content", JStr("")).s;
      CodexEntry(v) == Ok(if IsBlank(s) then None else Some(Trim(s)))
    ensures v.JObject? && Lookup(v.fields, "content", JStr("")).JList? ==>
      var g := Gather(CodexFragment, Lookup(v.fields, "content", JStr("")).items);
      (CodexEntry(v).Raise? <==> g.Raise?)
      && (g.Ok? ==> CodexEntry(v) == Ok(if g.value == [] then None else Some(Join(g.value, Paragraph))))
    ensures (!v.JStr? && !(v.JObject? && Lookup(v.fields, "content", JStr("")).JStr?)
      && !(v.JObject? && Lookup(v.fields, "content", JStr("")).JList?)) ==> CodexEntry(v) == Ok(None)
  {
  }

  /** `input-messages` made of bare strings gives one user record per
      non-blank string, its stripped text, in order. */
  lemma {:induction false} CodexUsersStrings(ss: seq<string>)
    ensures Gather(CodexUser, Strings(ss)) == Ok(Users(NonBlankTrimmed(ss)))
  {
    if ss != [] {
      var n := |ss| - 1;
      CodexUsersStrings(ss[..n]);
      assert Strings(ss) == Strings(ss[..n]) + [JStr(ss[n])];
      GatherSnoc(CodexUser, Strings(ss[..n]), JStr(ss[n]));
      CodexEntryMeaning(JStr(ss[n]));
      if IsBlank(ss[n]) {
        assert CodexUser(JStr(ss[n])) == Ok(None);
        assert Gather(CodexUser, Strings(ss)) == Gather(CodexUser, Strings(ss[..n]));
        assert NonBlankTrimmed(ss) == NonBlankTrimmed(ss[..n]) + [];
        assert NonBlankTrimmed(ss) == NonBlankTrimmed(ss[..n]);
      } else {
        assert Users(NonBlankTrimmed(ss)) == Users(NonBlankTrimmed(ss[..n])) + [Message(User, Trim(ss[n]))];
      }
    }
  }

  /** A `codex` payload whose `input-messages` are strings `ss` and whose
      reply is the string `reply`: the stripped non-blank inputs as user
      records, in order, then the stripped reply as the assistant record;
      with a blank reply, the user records alone, or the fallback when
      there are none. */
  lemma CodexStringPayload(data: Json, dumps: Json -> string, ss: seq<string>, reply: string)
    requires data.JObject?
    requires Lookup(data.fields, "input-messages", JList([])) == JList(Strings(ss))
    requires Lookup(data.fields, "last-assistant-message", JStr("")) == JStr(reply)
    ensures !IsBlank(reply) ==>
      CodexConversation(data, dumps) == Ok(Users(NonBlankTrimmed(ss)) + [Message(Assistant, Trim(reply))])
    ensures IsBlank(reply) && NonBlankTrimmed(ss) != [] ==>
      CodexConversation(data, dumps) == Ok(Users(NonBlankTrimmed(ss)))
    ensures IsBlank(reply) && NonBlankTrimmed(ss) == [] ==>
      CodexConversation(data, dumps) == Ok([Message(Assistant, dumps(data))])
  {
    CodexUsersStrings(ss);
    CodexEntryMeaning(JStr(reply));
    if IsBlank(reply) {
      assert Users(NonBlankTrimmed(ss)) + [] == Users(NonBlankTrimmed(ss));
    }
  }

  /** `{"type": ty, "message": s}`, a transcript item with a plain-string message. */
  function StringTurn(ty: string, s: string): Json {
    JObject([Field("type", JStr(ty)), Field("message", JStr(s))])
  }

  /** A `human` or `assistant` item whose message is a plain string gives
      that role's record with the stripped string, or nothing when blank. */
  lemma StringTurnItem(human: bool, s: string)
    ensures ClaudeItem(StringTurn(if human then "human" else "assistant", s)) ==
      Ok(if IsBlank(s) then None else Some(Message(if human then User else Assistant, Trim(s))))
  {
    var item := StringTurn(if human then "human" else "assistant", s);
    assert KeyIndex(item.fields, "type") == Some(0);
    assert KeyIndex(item.fields, "message") == Some(1) by {
      assert KeyIndex(item.fields[1..], "message") == Some(0);
    }
    MessageTextsString(s);
  }

  /** Plain-string transcript turns, each `(is human, message)`. */
  function Turns(ts: seq<(bool, string)>): (r: seq<Json>)
    ensures |r| == |ts|
    ensures forall i :: 0 <= i < |ts| ==> r[i] == StringTurn(if ts[i].0 then "human" else "assistant", ts[i].1)
  {
    seq(|ts|, i requires 0 <= i < |ts| => StringTurn(if ts[i].0 then "human" else "assistant", ts[i].1))
  }

  /** The record of one turn: its role and stripped message, unless blank. */
  function TurnRecord(t: (bool, string)): Option<Message> {
    if IsBlank(t.1) then None else Some(Message(if t.0 then User else Assistant, Trim(t.1)))
  }

  /** A transcript of plain-string `human` and `assistant` turns gives the
      records of the non-blank turns, in order (`Loops.SomesKept` says
      which), each with its role and stripped text. */
  lemma ClaudeStringTurns(ts: seq<(bool, string)>)
    ensures Gather(ClaudeItem, Turns(ts)) == Ok(Somes(seq(|ts|, i requires 0 <= i < |ts| => TurnRecord(ts[i]))))
  {
    var os := seq(|ts|, i requires 0 <= i < |ts| => TurnRecord(ts[i]));
    forall i | 0 <= i < |ts| ensures ClaudeItem(Turns(ts)[i]) == Ok(os[i]) {
      StringTurnItem(ts[i].0, ts[i].1);
    }
    GatherOk(ClaudeItem, Turns(ts), os);
  }

  /** A `claude-code` payload whose transcript is plain-string turns. */
  lemma ClaudeStringPayload(data: Json, ts: seq<(bool, string)>)
    requires data.JObject?
    requires Lookup(data.fields, "transcript", JList([])) == JList(Turns(ts))
    ensures ClaudeConversation(data) == Ok(Somes(seq(|ts|, i requires 0 <= i < |ts| => TurnRecord(ts[i]))))
  {
    ClaudeStringTurns(ts);
  }

  /** One input `u` and the reply `a`, both already stripped and
      non-empty (as `"fix bug"` and `"done"` are), give the user record `u`
      then the assistant record `a`. */
  lemma CodexOneExchange(data: Json, dumps: Json -> string, u: string, a: string)
    requires IsClean(u) && IsClean(a)
    requires data.JObject?
    requires Lookup(data.fields, "input-messages", JList([])) == JList([JStr(u)])
    requires Lookup(data.fields, "last-assistant-message", JStr("")) == JStr(a)
    ensures CodexConversation(data, dumps) == Ok([Message(User, u), Message(Assistant, a)])
  {
    assert Strings([u]) == [JStr(u)];
    assert !IsBlank(u) && !IsBlank(a) by {
      assert !IsSpace(u[0]) && !IsSpace(a[0]);
    }
    CodexStringPayload(data, dumps, [u], a);
    var users := Users(NonBlankTrimmed([u]));
    assert CodexConversation(data, dumps) == Ok(users + [Message(Assistant, Trim(a))]);
    assert users == [Message(User, u)] by {
      assert [u][..0] == [];
      TrimTrimmed(u);
      assert NonBlankTrimmed([u]) == [u];
    }
    TrimTrimmed(a);
    assert [Message(User, u)] + [Message(Assistant, a)] == [Message(User, u), Message(Assistant, a)];
  }

  /** A `human` turn `u` then an `assistant` turn `a`, both already
      stripped and non-empty (as `"hi"` and `"hello"` are), give the user
      record `u` then the assistant record `a`. */
  lemma ClaudeOneExchange(data: Json, u: string, a: string)
    requires IsClean(u) && IsClean(a)
    requires data.JObject?
    requires Lookup(data.fields, "transcript", JList([])) == JList([StringTurn("human", u), StringTurn("assistant", a)])
    ensures ClaudeConversation(data) == Ok([Message(User, u), Message(Assistant, a)])
  {
    var ts := [(true, u), (false, a)];
    assert Turns(ts) == [StringTurn("human", u), StringTurn("assistant", a)];
    ClaudeStringPayload(data, ts);
    assert !IsBlank(u) && !IsBlank(a) by {
      assert !IsSpace(u[0]) && !IsSpace(a[0]);
    }
    TrimTrimmed(u);
    TrimTrimmed(a);
    var os := seq(|ts|, i requires 0 <= i < |ts| => TurnRecord(ts[i]));
    assert os == [Some(Message(User, u)), Some(Message(Assistant, a))];
    assert os[..1][..0] == [] && os[..1] == [os[0]];
    assert Somes(os[..1]) == [Message(User, u)];
    assert Somes(os) == [Message(User, u), Message(Assistant, a)];
  }
}
