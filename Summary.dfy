/** What `format_message` and `build_email_html` derive from a payload
    besides the conversation itself: the last user instruction and the last
    reply of a Claude Code transcript, and the metadata rows of the email
    with their shortened ids. */
module Summary {
  import opened Results
  import opened Text
  import opened Json
  import opened Loops
  import opened Conversation

  /** `last_user_msg` and `last_ai_msg`. */
  datatype LastTurns = LastTurns(user: string, reply: string)

  /** What the scan reads from one transcript item: its `type` and its
      fragments joined with a blank line. Unlike the extraction, the scan
      reads the message of every item, whatever its type. */
  function ScanItem(item: Json): (r: Result<(Json, string)>)
    ensures r.Ok? ==> r.value.1 == "" || IsClean(r.value.1)
  {
    if !item.JObject? then Raise
    else
      var texts :- MessageTexts(Lookup(item.fields, "message", JObject([])));
      if texts != [] then JoinClean(texts, Paragraph); Ok((Lookup(item.fields, "type", JStr("")), Join(texts, Paragraph)))
      else Ok((Lookup(item.fields, "type", JStr("")), Join(texts, Paragraph)))
  }

  /** One step of the scan: a non-empty text replaces the last user or the
      last assistant text, according to the item's type. */
  function Remember(st: LastTurns, ty: Json, full: string): LastTurns {
    if full == "" then st
    else if ty == JStr("human") then st.(user := full)
    else if ty == JStr("assistant") then st.(reply := full)
    else st
  }

  /** The scan over the transcript items, in order. */
  function ScanLast(items: seq<Json>): Result<LastTurns> {
    if items == [] then Ok(LastTurns("", ""))
    else
      var st :- ScanLast(items[..|items| - 1]);
      var seen :- ScanItem(items[|items| - 1]);
      Ok(Remember(st, seen.0, seen.1))
  }

  /** The scan as `format_message` runs it on a Claude Code payload. */
  function LastTurnsOf(data: Json): Result<LastTurns> {
    var transcript :- Get(data, "transcript", JList([]));
    var items :- Iterate(transcript);
    ScanLast(items)
  }

  /** The loop of `format_message` over the transcript. */
  method ScanTranscript(items: seq<Json>) returns (r: Result<LastTurns>)
    ensures r == ScanLast(items)
  {
    var lastUser := "";
    var lastReply := "";
    var i := 0;
    while i < |items|
      invariant 0 <= i <= |items|
      invariant ScanLast(items[..i]) == Ok(LastTurns(lastUser, lastReply))
    {
      assert items[..i + 1][..i] == items[..i];
      var item := items[i];
      if !item.JObject? {
        ScanRaiseAt(items, i);
        return Raise;
      }
      var msgType := Lookup(item.fields, "type", JStr(""));
      var msg := Lookup(item.fields, "message", JObject([]));
      var texts: seq<string> := [];
      if msg.JObject? {
        var content := Iterate(Lookup(msg.fields, "content", JList([])));
        if content.Raise? {
          ScanRaiseAt(items, i);
          return Raise;
        }
        var got := CollectClaudeFragments(content.value);
        if got.Raise? {
          ScanRaiseAt(items, i);
          return Raise;
        }
        texts := got.value;
      } else if msg.JStr? && Stripped(msg.s).Some? {
        texts := [Trim(msg.s)];
      }
      var fullText := Join(texts, Paragraph);
      if fullText != "" {
        if msgType == JStr("human") {
          lastUser := fullText;
        } else if msgType == JStr("assistant") {
          lastReply := fullText;
        }
      }
      i := i + 1;
    }
    assert items[..i] == items;
    return Ok(LastTurns(lastUser, lastReply));
  }

  /** Once an item cannot be read, the scan raises. */
  lemma {:induction false} ScanRaiseAt(items: seq<Json>, i: nat)
    requires i < |items| && ScanItem(items[i]).Raise?
    ensures ScanLast(items).Raise?
    decreases |items|
  {
    if i < |items| - 1 {
      var init := items[..|items| - 1];
      assert init[i] == items[i];
      ScanRaiseAt(init, i);
    }
  }

  /** The text of the last record with the given role, or "" if none. */
  function LastText(ms: seq<Message>, role: Role): string {
    if ms == [] then ""
    else if ms[|ms| - 1].role == role then ms[|ms| - 1].text
    else LastText(ms[..|ms| - 1], role)
  }

  /** When the records have non-empty texts, the last text of a role is
      empty exactly when no record has that role. */
  lemma {:induction false} LastTextEmpty(ms: seq<Message>, role: Role)
    requires forall j :: 0 <= j < |ms| ==> ms[j].text != ""
    ensures LastText(ms, role) == "" <==> forall j :: 0 <= j < |ms| ==> ms[j].role != role
  {
    if ms != [] {
      var init := ms[..|ms| - 1];
      assert forall j :: 0 <= j < |init| ==> init[j] == ms[j];
      LastTextEmpty(init, role);
    }
  }

  /** One item read by both loops: when the scan can read it, so can the
      extraction, and the record it yields is what the scan remembers. */
  lemma ScanAgreesOnItem(st: LastTurns, item: Json)
    requires ScanItem(item).Ok?
    ensures ClaudeItem(item).Ok?
    ensures var seen := ScanItem(item).value;
      var m := ClaudeItem(item).value;
      Remember(st, seen.0, seen.1) == match m
        case None => st
        case Some(msg) => if msg.role == User then st.(user := msg.text) else st.(reply := msg.text)
  {
    var texts := MessageTexts(Lookup(item.fields, "message", JObject([]))).value;
    if texts != [] {
      JoinClean(texts, Paragraph);
    }
  }

  /** The scan agrees with the extraction: whenever the scan succeeds, the
      extraction does too, and the last user instruction and the last reply
      are the texts of the last user and the last assistant record. */
  lemma {:induction false} ScanAgrees(items: seq<Json>)
    requires ScanLast(items).Ok?
    ensures Gather(ClaudeItem, items).Ok?
    ensures ScanLast(items).value.user == LastText(Gather(ClaudeItem, items).value, User)
    ensures ScanLast(items).value.reply == LastText(Gather(ClaudeItem, items).value, Assistant)
  {
    if items != [] {
      var init, x := items[..|items| - 1], items[|items| - 1];
      assert items == init + [x];
      var st := ScanLast(init).value;
      var seen := ScanItem(x).value;
      assert ScanLast(items) == Ok(Remember(st, seen.0, seen.1));
      ScanAgrees(init);
      ScanAgreesOnItem(st, x);
      GatherSnoc(ClaudeItem, init, x);
      var ms := Gather(ClaudeItem, init).value;
      match ClaudeItem(x).value {
        case None =>
          assert Gather(ClaudeItem, items) == Ok(ms);
        case Some(m) =>
          assert Gather(ClaudeItem, items) == Ok(ms + [m]);
          LastTextSnoc(ms, m, User);
          LastTextSnoc(ms, m, Assistant);
      }
    }
  }

  lemma LastTextSnoc(ms: seq<Message>, m: Message, role: Role)
    ensures LastText(ms + [m], role) == if m.role == role then m.text else LastText(ms, role)
  {
    assert (ms + [m])[..|ms|] == ms;
  }

  /** `format_message`'s last user instruction and last reply are those of
      `extract_conversation` for the same Claude Code payload, and each is
      empty exactly when there is no record of its role. */
  lemma LastTurnsAgree(data: Json, dumps: Json -> string)
    requires LastTurnsOf(data).Ok?
    ensures Extract(data, ClaudeCode, dumps).Ok?
    ensures var ms := Extract(data, ClaudeCode, dumps).value;
      var st := LastTurnsOf(data).value;
      st.user == LastText(ms, User) && st.reply == LastText(ms, Assistant)
      && (st.user == "" <==> forall j :: 0 <= j < |ms| ==> ms[j].role != User)
      && (st.reply == "" <==> forall j :: 0 <= j < |ms| ==> ms[j].role != Assistant)
  {
    var items := Iterate(Get(data, "transcript", JList([])).value).value;
    ScanAgrees(items);
    ClaudeExtraction(data, items);
    var ms := Extract(data, ClaudeCode, dumps).value;
    LastTextEmpty(ms, User);
    LastTextEmpty(ms, Assistant);
  }

  /** The agreement holds only one way: a `system` item whose text block
      carries a number is skipped by the extraction but makes the scan
      raise, since the scan strips every item's text. */
  lemma ScanStricterThanExtraction()
    ensures var item := JObject([
        Field("type", JStr("system")),
        Field("message", JObject([Field("content", JList([JObject([Field("type", JStr("text")), Field("text", JInt(1))])]))]))]);
      ScanLast([item]).Raise? && Gather(ClaudeItem, [item]) == Ok([])
  {
    var block := JObject([Field("type", JStr("text")), Field("text", JInt(1))]);
    var msg := JObject([Field("content", JList([block]))]);
    var item := JObject([Field("type", JStr("system")), Field("message", msg)]);
    assert Lookup(block.fields, "type", JNull) == JStr("text");
    assert Lookup(block.fields, "text", JStr("")) == JInt(1);
    assert ClaudeFragment(block).Raise?;
    GatherRaiseAt(ClaudeFragment, [block], 0);
    assert Lookup(msg.fields, "content", JList([])) == JList([block]);
    assert MessageTexts(msg).Raise?;
    assert item.fields[1..] == [Field("message", msg)];
    assert KeyIndex(item.fields[1..], "message") == Some(0);
    assert Lookup(item.fields, "message", JObject([])) == msg;
    assert ScanItem(item).Raise?;
    ScanRaiseAt([item], 0);
    assert Lookup(item.fields, "type", JStr("")) == JStr("system");
    assert ClaudeItem(item) == Ok(None);
    GatherSnoc(ClaudeItem, [], item);
    assert [] + [item] == [item];
  }

  // ---------------------------------------------------------------------
  // The metadata rows of the email

  /** `sid[:limit] + "..." if len(sid) > limit else sid`. */
  function Shorten(id: string, limit: nat): (r: string)
    ensures |id| <= limit ==> r == id
    ensures |id| > limit ==> |r| == limit + 3 && r[..limit] == id[..limit] && r[limit..] == "..."
  {
    if |id| > limit then id[..limit] + "..." else id
  }

  /** Two long ids that share their first `limit` characters are shown alike. */
  lemma ShortenPrefix(a: string, b: string, limit: nat)
    requires |a| > limit && |b| > limit && a[..limit] == b[..limit]
    ensures Shorten(a, limit) == Shorten(b, limit)
  {
  }

  const SessionLimit: nat := 12
  const ThreadLimit: nat := 16

  /** A name of the metadata table and the value shown next to it. */
  datatype Row = Row(name: string, value: string)

  /** `data.get(key, "") if isinstance(data, dict) else ""`. */
  function MetaField(data: Json, key: string): Json {
    if data.JObject? then Lookup(data.fields, key, JStr("")) else JStr("")
  }

  /** The row for an optional field, present when the field is truthy. */
  function OptionalRow(data: Json, key: string, name: string, limit: Option<nat>, str: Json -> string): (r: seq<Row>)
    ensures |r| <= 1
    ensures r != [] <==> Truthy(MetaField(data, key))
    ensures r != [] ==> r[0].name == name
  {
    var v := MetaField(data, key);
    if !Truthy(v) then []
    else match limit
      case None => [Row(name, str(v))]
      case Some(n) => [Row(name, Shorten(str(v), n))]
  }

  /** `meta_rows`: the completion time, then the working directory, session
      id, event type, thread id and turn id that the payload carries.
      `now` stands for the formatted clock and `str` for Python's `str()`. */
  function MetaRows(data: Json, now: string, str: Json -> string): (r: seq<Row>)
    ensures 1 <= |r| <= 6 && r[0] == Row("完成时间", now)
  {
    [Row("完成时间", now)]
    + OptionalRow(data, "cwd", "工作目录", None, str)
    + OptionalRow(data, "session_id", "会话ID", Some(SessionLimit), str)
    + OptionalRow(data, "type", "事件类型", None, str)
    + OptionalRow(data, "thread-id", "线程ID", Some(ThreadLimit), str)
    + OptionalRow(data, "turn-id", "轮次ID", Some(ThreadLimit), str)
  }

  /** The value shown next to the first row with the given name. */
  function Shown(rows: seq<Row>, name: string): Option<string> {
    if rows == [] then None
    else if rows[0].name == name then Some(rows[0].value)
    else Shown(rows[1..], name)
  }

  lemma {:induction false} ShownConcat(a: seq<Row>, b: seq<Row>, name: string)
    ensures Shown(a + b, name) == if Shown(a, name).Some? then Shown(a, name) else Shown(b, name)
  {
    if a == [] {
      assert a + b == b;
    } else {
      assert (a + b)[1..] == a[1..] + b;
      ShownConcat(a[1..], b, name);
    }
  }

  /** What an optional row shows under a name: its value when the name is
      its own and the field is truthy, nothing otherwise. */
  lemma ShownOptional(data: Json, key: string, name: string, limit: Option<nat>, str: Json -> string, query: string)
    ensures Shown(OptionalRow(data, key, name, limit, str), query) ==
      if name == query && Truthy(MetaField(data, key)) then
        Some(if limit.Some? then Shorten(str(MetaField(data, key)), limit.value) else str(MetaField(data, key)))
      else None
  {
  }

  /** The metadata of the payload, row by row: what the table shows under
      `name`, given the rows before it. */
  lemma MetaShown(data: Json, now: string, str: Json -> string, name: string)
    ensures Shown(MetaRows(data, now, str), name) ==
      var rows := [
        [Row("完成时间", now)],
        OptionalRow(data, "cwd", "工作目录", None, str),
        OptionalRow(data, "session_id", "会话ID", Some(SessionLimit), str),
        OptionalRow(data, "type", "事件类型", None, str),
        OptionalRow(data, "thread-id", "线程ID", Some(ThreadLimit), str),
        OptionalRow(data, "turn-id", "轮次ID", Some(ThreadLimit), str)];
      if Shown(rows[0], name).Some? then Shown(rows[0], name)
      else if Shown(rows[1], name).Some? then Shown(rows[1], name)
      else if Shown(rows[2], name).Some? then Shown(rows[2], name)
      else if Shown(rows[3], name).Some? then Shown(rows[3], name)
      else if Shown(rows[4], name).Some? then Shown(rows[4], name)
      else Shown(rows[5], name)
  {
    var a := [Row("完成时间", now)];
    var b := OptionalRow(data, "cwd", "工作目录", None, str);
    var c := OptionalRow(data, "session_id", "会话ID", Some(SessionLimit), str);
    var d := OptionalRow(data, "type", "事件类型", None, str);
    var e := OptionalRow(data, "thread-id", "线程ID", Some(ThreadLimit), str);
    var f := OptionalRow(data, "turn-id", "轮次ID", Some(ThreadLimit), str);
    ShownConcat(a + b + c + d + e, f, name);
    ShownConcat(a + b + c + d, e, name);
    ShownConcat(a + b + c, d, name);
    ShownConcat(a + b, c, name);
    ShownConcat(a, b, name);
  }

  /** Each of the three ids is shown when the payload has it: the id
      itself when it has at most its limit of characters (12 for the
      session, 16 for the thread and the turn), otherwise that many of its
      first characters and `...`. */
  lemma MetaIdShown(data: Json, now: string, str: Json -> string, key: string, name: string, limit: nat)
    requires (key, name, limit) in {("session_id", "会话ID", SessionLimit), ("thread-id", "线程ID", ThreadLimit), ("turn-id", "轮次ID", ThreadLimit)}
    ensures Shown(MetaRows(data, now, str), name) ==
      if Truthy(MetaField(data, key)) then Some(Shorten(str(MetaField(data, key)), limit)) else None
  {
    IdRowShown(data, now, str, key, name, limit);
    ShownOptional(data, key, name, Some(limit), str, name);
  }

  /** The rows show `name` as the optional row of `key` does, when no
      other row carries that name. */
  lemma IdRowShown(data: Json, now: string, str: Json -> string, key: string, name: string, limit: nat)
    requires (key, name, limit) in {("session_id", "会话ID", SessionLimit), ("thread-id", "线程ID", ThreadLimit), ("turn-id", "轮次ID", ThreadLimit)}
    ensures Shown(MetaRows(data, now, str), name) == Shown(OptionalRow(data, key, name, Some(limit), str), name)
  {
    var a := [Row("完成时间", now)];
    var b := OptionalRow(data, "cwd", "工作目录", None, str);
    var c := OptionalRow(data, "session_id", "会话ID", Some(SessionLimit), str);
    var d := OptionalRow(data, "type", "事件类型", None, str);
    var e := OptionalRow(data, "thread-id", "线程ID", Some(ThreadLimit), str);
    var f := OptionalRow(data, "turn-id", "轮次ID", Some(ThreadLimit), str);
    OtherRowsHide(data, str, name);
    assert Shown(a, name).None?;
    ShownConcat(a, b, name);
    ShownConcat(a + b, c, name);
    ShownConcat(a + b + c, d, name);
    ShownConcat(a + b + c + d, e, name);
    ShownConcat(a + b + c + d + e, f, name);
  }

  /** Rows under other names show nothing under `name`. */
  lemma OtherRowsHide(data: Json, str: Json -> string, name: string)
    requires name in {"会话ID", "线程ID", "轮次ID"}
    ensures Shown(OptionalRow(data, "cwd", "工作目录", None, str), name).None?
    ensures Shown(OptionalRow(data, "type", "事件类型", None, str), name).None?
    ensures name != "会话ID" ==> Shown(OptionalRow(data, "session_id", "会话ID", Some(SessionLimit), str), name).None?
    ensures name != "线程ID" ==> Shown(OptionalRow(data, "thread-id", "线程ID", Some(ThreadLimit), str), name).None?
    ensures name != "轮次ID" ==> Shown(OptionalRow(data, "turn-id", "轮次ID", Some(ThreadLimit), str), name).None?
  {
    ShownOptional(data, "cwd", "工作目录", None, str, name);
    ShownOptional(data, "session_id", "会话ID", Some(SessionLimit), str, name);
    ShownOptional(data, "type", "事件类型", None, str, name);
    ShownOptional(data, "thread-id", "线程ID", Some(ThreadLimit), str, name);
    ShownOptional(data, "turn-id", "轮次ID", Some(ThreadLimit), str, name);
  }
}
