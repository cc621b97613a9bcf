/** Reading the hook's input, dispatching to the enabled channels and
    deciding the exit status: `parse_input`, `send_email`'s configuration
    guard, `send_notification` and the end of `main`. */
module Dispatch {
  import opened Results
  import opened Text
  import opened Json
  import opened Config

  // ---------------------------------------------------------------------
  // `parse_input`

  /** The source, the event type and the payload; `None` as payload is
      Python's None: a Codex event that is not one to notify about, or
      piped input that decodes to `null`. */
  datatype Parsed = Parsed(source: string, eventType: Json, data: Option<Json>)

  const TurnComplete: Json := JStr("agent-turn-complete")

  /** The payload a decoded value becomes: a decoded `null` is Python's None. */
  function Payload(v: Json): (r: Option<Json>)
    ensures r.None? <==> v.JNull?
    ensures r.Some? ==> r.value == v
  {
    if v.JNull? then None else Some(v)
  }

  /** The standard-input path: taken only while the payload found so far is
      empty and the input is piped; blank or undecodable input leaves the
      payload as it is. */
  function FromStdin(found: Parsed, stdin: Option<string>, loads: string -> Option<Json>): (r: Parsed)
    ensures r == found
      || (r.source == "claude-code" && r.eventType == JStr("stop")
          && stdin.Some? && loads(stdin.value).Some? && r.data == Payload(loads(stdin.value).value))
  {
    if found.data.Some? && !Truthy(found.data.value) && stdin.Some?
       && Stripped(stdin.value).Some? && loads(stdin.value).Some? then
      Parsed("claude-code", JStr("stop"), Payload(loads(stdin.value).value))
    else found
  }

  /** `parse_input`. `argv1` is the first command-line argument if there is
      one; `stdin` is the standard input when it is not a terminal; `loads`
      is `json.loads`, `None` standing for a JSONDecodeError. Reading `type`
      off an argument that decodes to something other than a dict raises. */
  function ParseInput(argv1: Option<string>, stdin: Option<string>, loads: string -> Option<Json>): Result<Parsed> {
    var fromArgv := if argv1.Some? then loads(argv1.value) else None;
    match fromArgv
    case Some(d) =>
      var eventType :- Get(d, "type", JStr(""));
      if eventType != TurnComplete then Ok(Parsed("codex", eventType, None))
      else Ok(FromStdin(Parsed("codex", eventType, Some(d)), stdin, loads))
    case None => Ok(FromStdin(Parsed("unknown", JStr(""), Some(JObject([]))), stdin, loads))
  }

  /** A Codex event of any other type is skipped. */
  lemma ParseSkipsOtherEvents(argv1: string, stdin: Option<string>, loads: string -> Option<Json>)
    requires loads(argv1).Some? && loads(argv1).value.JObject?
    requires Get(loads(argv1).value, "type", JStr("")).value != TurnComplete
    ensures ParseInput(Some(argv1), stdin, loads).Ok?
    ensures ParseInput(Some(argv1), stdin, loads).value.data.None?
  {
  }

  /** A Codex payload that is kept is a dict of type `agent-turn-complete`,
      and standard input is then not read. */
  lemma ParseCodex(argv1: string, stdin: Option<string>, loads: string -> Option<Json>)
    requires loads(argv1).Some?
    requires ParseInput(Some(argv1), stdin, loads).Ok?
    requires ParseInput(Some(argv1), stdin, loads).value.data.Some?
    ensures var p := ParseInput(Some(argv1), stdin, loads).value;
      p.source == "codex" && p.data == loads(argv1) && p.data.value.JObject?
      && Lookup(p.data.value.fields, "type", JStr("")) == TurnComplete
  {
    var d := loads(argv1).value;
    var k := KeyIndex(d.fields, "type").value;
    assert d.fields[k] in d.fields;
  }

  /** Without a usable argument, non-blank piped input that decodes is a
      Claude Code stop event carrying the decoded value, or None for `null`. */
  lemma ParseClaude(argv1: Option<string>, stdin: string, loads: string -> Option<Json>)
    requires argv1.None? || loads(argv1.value).None?
    requires Stripped(stdin).Some? && loads(stdin).Some?
    ensures ParseInput(argv1, Some(stdin), loads) ==
      Ok(Parsed("claude-code", JStr("stop"), if loads(stdin).value.JNull? then None else loads(stdin)))
  {
  }

  /** Piped input that decodes to `null` leaves Python's None as payload,
      which `main` takes for an event to skip: the exit status is 0. */
  lemma ParseNullSkipped(argv1: Option<string>, stdin: string, loads: string -> Option<Json>,
                         channels: seq<string>, results: map<string, bool>)
    requires argv1.None? || loads(argv1.value).None?
    requires Stripped(stdin).Some? && loads(stdin) == Some(JNull)
    ensures ParseInput(argv1, Some(stdin), loads) == Ok(Parsed("claude-code", JStr("stop"), None))
    ensures ExitCode(channels, ParseInput(argv1, Some(stdin), loads).value.data, results) == 0
  {
  }

  /** With neither input usable, the payload is an empty dict from an
      unknown source. */
  lemma ParseNothing(argv1: Option<string>, stdin: Option<string>, loads: string -> Option<Json>)
    requires argv1.None? || loads(argv1.value).None?
    requires stdin.None? || Stripped(stdin.value).None? || loads(stdin.value).None?
    ensures ParseInput(argv1, stdin, loads) == Ok(Parsed("unknown", JStr(""), Some(JObject([]))))
  {
  }

  // ---------------------------------------------------------------------
  // `send_email`

  /** How a channel handler call ended. */
  datatype Outcome = Returned(sent: bool) | Threw

  /** The five settings without which no email is attempted. */
  const EmailSettings: seq<string> := ["SMTP_HOST", "SMTP_USER", "SMTP_PASSWORD", "EMAIL_FROM", "EMAIL_TO"]

  predicate EmailConfigured(environ: map<string, string>, env: map<string, string>) {
    forall k :: 0 <= k < |EmailSettings| ==> GetConfig(environ, env, EmailSettings[k], "") != ""
  }

  /** `send_email`: False straight away unless all five settings are set;
      otherwise `delivery` is how parsing the port and the SMTP exchange
      ended. */
  function SendEmail(environ: map<string, string>, env: map<string, string>, delivery: Outcome): (r: Outcome)
    ensures !EmailConfigured(environ, env) ==> r == Returned(false)
    ensures EmailConfigured(environ, env) ==> r == delivery
  {
    if !EmailConfigured(environ, env) then Returned(false) else delivery
  }

  /** A missing setting is enough to send nothing. */
  lemma MissingSettingSendsNothing(environ: map<string, string>, env: map<string, string>, k: nat, delivery: Outcome)
    requires k < |EmailSettings| && EmailSettings[k] !in environ && EmailSettings[k] !in env
    ensures SendEmail(environ, env, delivery) == Returned(false)
  {
  }

  /** The recipients: the entries of `EMAIL_TO`. */
  function Recipients(environ: map<string, string>, env: map<string, string>): (r: seq<string>)
    ensures forall k :: 0 <= k < |r| ==> IsClean(r[k]) && ',' !in r[k]
  {
    Entries(GetConfig(environ, env, "EMAIL_TO", ""))
  }

  /** `SMTP_USE_SSL`, lower-cased, must read `true`; it does when unset. */
  function UseSsl(environ: map<string, string>, env: map<string, string>): (r: bool)
    ensures "SMTP_USE_SSL" !in environ && "SMTP_USE_SSL" !in env ==> r
  {
    Lower(GetConfig(environ, env, "SMTP_USE_SSL", "true")) == "true"
  }

  // ---------------------------------------------------------------------
  // `send_notification`

  /** The channels that have a handler. */
  const Registry: set<string> := {"email"}

  /** What a handler call contributes to the results: an exception counts
      as a failure. */
  function Succeeded(o: Outcome): bool {
    match o
    case Returned(b) => b
    case Threw => false
  }

  /** The results after the loop, where `call(i)` is how the handler call
      for the `i`-th enabled channel ended. */
  function ResultsOf(channels: seq<string>, call: nat -> Outcome): map<string, bool> {
    if channels == [] then map[]
    else
      var results := ResultsOf(channels[..|channels| - 1], call);
      var c := channels[|channels| - 1];
      if c in Registry then results[c := Succeeded(call(|channels| - 1))] else results
  }

  /** `send_notification`'s loop over the enabled channels. */
  method SendNotification(channels: seq<string>, call: nat -> Outcome) returns (results: map<string, bool>)
    ensures results == ResultsOf(channels, call)
  {
    results := map[];
    var i := 0;
    while i < |channels|
      invariant 0 <= i <= |channels|
      invariant results == ResultsOf(channels[..i], call)
    {
      assert channels[..i + 1][..i] == channels[..i];
      var channel := channels[i];
      if channel in Registry {
        var outcome := call(i);
        match outcome {
          case Returned(sent) => results := results[channel := sent];
          case Threw => results := results[channel := false];
        }
      }
      i := i + 1;
    }
    assert channels[..i] == channels;
  }

  /** A result is recorded for exactly the enabled channels that have a handler. */
  lemma {:induction false} ResultsKeys(channels: seq<string>, call: nat -> Outcome)
    ensures ResultsOf(channels, call).Keys == set i | 0 <= i < |channels| && channels[i] in Registry :: channels[i]
  {
    if channels != [] {
      var init := channels[..|channels| - 1];
      ResultsKeys(init, call);
      var s := set i | 0 <= i < |channels| && channels[i] in Registry :: channels[i];
      var t := set i | 0 <= i < |init| && init[i] in Registry :: init[i];
      assert forall i :: 0 <= i < |init| ==> init[i] == channels[i];
      assert t <= s;
      var last := channels[|channels| - 1];
      if last in Registry {
        assert s == t + {last};
      } else {
        assert s == t;
      }
    }
  }

  /** A channel listed twice is dispatched twice and its last outcome counts. */
  lemma {:induction false} ResultsLast(channels: seq<string>, call: nat -> Outcome, i: nat)
    requires i < |channels| && channels[i] in Registry
    requires forall j :: i < j < |channels| ==> channels[j] != channels[i]
    ensures channels[i] in ResultsOf(channels, call)
    ensures ResultsOf(channels, call)[channels[i]] == Succeeded(call(i))
  {
    if i < |channels| - 1 {
      var init := channels[..|channels| - 1];
      ResultsLast(init, call, i);
    }
  }

  // ---------------------------------------------------------------------
  // The end of `main`

  /** The number of channels that report success. */
  function SuccessCount(results: map<string, bool>): nat {
    |set c | c in results && results[c]|
  }

  /** `main`'s exit status once the input is parsed and the channels have
      run: 0 with no channel enabled or a skipped event; 1 for an empty
      payload; otherwise 0 exactly when some channel succeeded. */
  function ExitCode(channels: seq<string>, data: Option<Json>, results: map<string, bool>): (r: int)
    ensures r == 0 || r == 1
  {
    if channels == [] then 0
    else if data.None? then 0
    else if !Truthy(data.value) then 1
    else if SuccessCount(results) > 0 then 0
    else 1
  }

  /** The exit status is 0 exactly when nothing had to be sent, or when some
      channel reported success. */
  lemma ExitZeroIff(channels: seq<string>, data: Option<Json>, results: map<string, bool>)
    ensures ExitCode(channels, data, results) == 0 <==>
      channels == [] || data.None? || (Truthy(data.value) && exists c :: c in results && results[c])
  {
    var ok := set c | c in results && results[c];
    if exists c :: c in results && results[c] {
      var c :| c in results && results[c];
      assert c in ok;
    } else {
      assert ok == {};
    }
  }

  /** With channels enabled but none of them registered, a payload that is
      not empty still ends with status 1: no channel can report success. */
  lemma NoHandlerFails(channels: seq<string>, data: Json, call: nat -> Outcome)
    requires channels != [] && Truthy(data)
    requires forall i :: 0 <= i < |channels| ==> channels[i] !in Registry
    ensures ExitCode(channels, Some(data), ResultsOf(channels, call)) == 1
  {
    ResultsKeys(channels, call);
    assert ResultsOf(channels, call).Keys == {};
    ExitZeroIff(channels, Some(data), ResultsOf(channels, call));
  }
}
