/** The `.env` settings: `load_env`'s line loop, `get_config`'s lookup
    order and `get_enabled_channels`' comma-separated list. */
module Config {
  import opened Results
  import opened Text

  // ---------------------------------------------------------------------
  // `load_env`

  /** One stripped line of the settings file: empty lines, comments and
      lines without `=` define nothing; otherwise the line is cut at its
      first `=` and both halves are stripped. */
  function Definition(l: string): (r: Option<(string, string)>)
    ensures r.Some? ==> '=' !in r.value.0 && IsTrimmed(r.value.0) && IsTrimmed(r.value.1)
  {
    if l == "" || StartsWith(l, "#") then None
    else match IndexOf(l, '=')
      case None => None
      case Some(i) =>
        TrimKeeps(l[..i], '=');
        Some((Trim(l[..i]), Trim(l[i + 1..])))
  }

  /** One line of the settings file, stripped and then read. */
  function EnvLine(line: string): (r: Option<(string, string)>)
    ensures r.Some? ==> '=' !in r.value.0 && IsTrimmed(r.value.0) && IsTrimmed(r.value.1)
  {
    Definition(Trim(line))
  }

  /** What each line defines. */
  function Defs(lines: seq<string>): (r: seq<Option<(string, string)>>)
    ensures |r| == |lines|
    ensures forall i :: 0 <= i < |lines| ==> r[i] == EnvLine(lines[i])
  {
    seq(|lines|, i requires 0 <= i < |lines| => EnvLine(lines[i]))
  }

  /** The settings that a sequence of definitions leaves, a later definition
      overriding an earlier one. */
  function Bindings(defs: seq<Option<(string, string)>>): map<string, string> {
    if defs == [] then map[]
    else
      var env := Bindings(defs[..|defs| - 1]);
      match defs[|defs| - 1]
      case Some(kv) => env[kv.0 := kv.1]
      case None => env
  }

  /** The settings a file defines. */
  function ParseEnv(lines: seq<string>): map<string, string> {
    Bindings(Defs(lines))
  }

  /** Reading one more definition. */
  lemma BindingsStep(defs: seq<Option<(string, string)>>, i: nat)
    requires i < |defs|
    ensures Bindings(defs[..i + 1]) ==
      if defs[i].Some? then Bindings(defs[..i])[defs[i].value.0 := defs[i].value.1] else Bindings(defs[..i])
  {
    assert defs[..i + 1][..i] == defs[..i];
  }

  /** The body of `load_env`'s loop for one line: strip it, skip blank and
      comment lines, and cut the rest at the first `=`. */
  method ReadLine(raw: string) returns (d: Option<(string, string)>)
    ensures d == EnvLine(raw)
  {
    var line := Trim(raw);
    if line == "" || StartsWith(line, "#") {
      return None;
    }
    var eq := IndexOf(line, '=');
    if eq.None? {
      return None;
    }
    var key, value := line[..eq.value], line[eq.value + 1..];
    return Some((Trim(key), Trim(value)));
  }

  /** `load_env`: `file` holds the file's lines, or is `None` when there is
      no settings file. */
  method LoadEnv(file: Option<seq<string>>) returns (env: map<string, string>)
    ensures file.None? ==> env == map[]
    ensures file.Some? ==> env == ParseEnv(file.value)
  {
    env := map[];
    if file.None? {
      return;
    }
    var lines := file.value;
    ghost var defs := Defs(lines);
    var i := 0;
    while i < |lines|
      invariant 0 <= i <= |lines|
      invariant env == Bindings(defs[..i])
    {
      var d := ReadLine(lines[i]);
      BindingsStep(defs, i);
      if d.Some? {
        env := env[d.value.0 := d.value.1];
      }
      i := i + 1;
    }
    assert defs[..i] == defs;
  }

  /** A line defines nothing exactly when it is blank, a comment, or has no `=`. */
  lemma EnvLineNone(line: string)
    ensures EnvLine(line).None? <==>
      IsBlank(line) || StartsWith(Trim(line), "#") || '=' !in Trim(line)
  {
    TrimEmptyIffBlank(line);
  }

  /** The first occurrence found by position. */
  lemma IndexOfAt(s: string, c: char, i: nat)
    requires i < |s| && s[i] == c && c !in s[..i]
    ensures IndexOf(s, c) == Some(i)
  {
    var j := IndexOf(s, c).value;
    assert forall k :: 0 <= k < i ==> s[..i][k] == s[k];
    assert forall k :: 0 <= k < j ==> s[..j][k] == s[k];
  }

  /** A stripped `key=value` line defines `key` as `value`. */
  lemma DefinitionOf(key: string, value: string)
    requires IsTrimmed(key) && IsTrimmed(value)
    requires '=' !in key && !StartsWith(key, "#")
    ensures Definition(key + "=" + value) == Some((key, value))
  {
    var m := key + "=" + value;
    assert m[..|key|] == key && m[|key|] == '=' && m[|key| + 1..] == value;
    IndexOfAt(m, '=', |key|);
    if key != [] {
      assert m[..1] == key[..1];
    } else {
      assert m[0] == '=';
    }
    assert !StartsWith(m, "#");
    TrimTrimmed(key);
    TrimTrimmed(value);
  }

  /** A stripped line that is not a comment is cut at its first `=`: the
      key is the stripped text before it, the value the stripped text after. */
  lemma DefinitionAt(l: string, i: nat)
    requires l != "" && !StartsWith(l, "#")
    requires i < |l| && l[i] == '=' && '=' !in l[..i]
    ensures Definition(l) == Some((Trim(l[..i]), Trim(l[i + 1..])))
  {
    IndexOfAt(l, '=', i);
  }

  /** `KEY = VALUE`, with any whitespace around the line and around the
      `=`, defines `KEY` as `VALUE`. */
  lemma EnvLinePadded(p: string, key: string, r: string, s: string, value: string, q: string)
    requires IsBlank(p) && IsBlank(r) && IsBlank(s) && IsBlank(q)
    requires IsClean(key) && IsClean(value)
    requires '=' !in key && !StartsWith(key, "#")
    ensures EnvLine(p + key + r + "=" + s + value + q) == Some((key, value))
  {
    var m := key + r + "=" + s + value;
    var i := |key| + |r|;
    assert m[0] == key[0] && m[|m| - 1] == value[|value| - 1];
    assert p + key + r + "=" + s + value + q == p + m + q;
    TrimOf(p, m, q);
    assert m[..i] == key + r && m[i] == '=' && m[i + 1..] == s + value;
    assert forall j :: 0 <= j < |r| ==> r[j] != '=' by {
      forall j | 0 <= j < |r| ensures r[j] != '=' {
        assert IsSpace(r[j]);
      }
    }
    assert '=' !in m[..i];
    assert !StartsWith(m, "#") by {
      assert m[..1] == key[..1];
    }
    DefinitionAt(m, i);
    TrimOf([], key, r);
    assert [] + key + r == key + r;
    TrimOf(s, value, []);
    assert s + value + [] == s + value;
  }

  /** `KEY=VALUE` with any whitespace around it reads back as the pair, so
      the value may itself contain `=`. */
  lemma EnvLineRoundTrip(p: string, key: string, value: string, q: string)
    requires IsBlank(p) && IsBlank(q)
    requires IsTrimmed(key) && IsTrimmed(value)
    requires '=' !in key && !StartsWith(key, "#")
    ensures EnvLine(p + key + "=" + value + q) == Some((key, value))
  {
    var m := key + "=" + value;
    assert IsTrimmed(m) by {
      if key != [] { assert m[0] == key[0]; }
      if value != [] { assert m[|m| - 1] == value[|value| - 1]; }
    }
    assert p + key + "=" + value + q == p + m + q;
    TrimOf(p, m, q);
    DefinitionOf(key, value);
  }

  lemma {:induction false} BindingsConcat(a: seq<Option<(string, string)>>, b: seq<Option<(string, string)>>)
    ensures Bindings(a + b) == Bindings(a) + Bindings(b)
  {
    if b == [] {
      assert a + b == a;
    } else {
      var init := b[..|b| - 1];
      assert (a + b)[..|a + b| - 1] == a + init;
      assert (a + b)[|a + b| - 1] == b[|b| - 1];
      BindingsConcat(a, init);
    }
  }

  /** Reading two files' worth of lines is reading each, the second
      overriding the first. */
  lemma ParseEnvConcat(a: seq<string>, b: seq<string>)
    ensures ParseEnv(a + b) == ParseEnv(a) + ParseEnv(b)
  {
    assert Defs(a + b) == Defs(a) + Defs(b);
    BindingsConcat(Defs(a), Defs(b));
  }

  lemma {:induction false} BindingsKeys(defs: seq<Option<(string, string)>>, k: string)
    ensures k in Bindings(defs) <==> exists i :: 0 <= i < |defs| && defs[i].Some? && defs[i].value.0 == k
  {
    if defs != [] {
      var init := defs[..|defs| - 1];
      BindingsKeys(init, k);
      if exists i :: 0 <= i < |init| && init[i].Some? && init[i].value.0 == k {
        var i :| 0 <= i < |init| && init[i].Some? && init[i].value.0 == k;
        assert defs[i] == init[i];
      }
      if exists i :: 0 <= i < |defs| && defs[i].Some? && defs[i].value.0 == k {
        var i :| 0 <= i < |defs| && defs[i].Some? && defs[i].value.0 == k;
        if i < |init| {
          assert init[i] == defs[i];
        }
      }
    }
  }

  /** A key is set exactly when some line defines it. */
  lemma ParseEnvKeys(lines: seq<string>, k: string)
    ensures k in ParseEnv(lines) <==>
      exists i :: 0 <= i < |lines| && EnvLine(lines[i]).Some? && EnvLine(lines[i]).value.0 == k
  {
    var defs := Defs(lines);
    BindingsKeys(defs, k);
    if exists i :: 0 <= i < |defs| && defs[i].Some? && defs[i].value.0 == k {
      var i :| 0 <= i < |defs| && defs[i].Some? && defs[i].value.0 == k;
      assert EnvLine(lines[i]) == defs[i];
    }
  }

  lemma BindingsLast(defs: seq<Option<(string, string)>>, i: nat, k: string, v: string)
    requires i < |defs| && defs[i] == Some((k, v))
    requires forall j :: i < j < |defs| ==> defs[j].None? || defs[j].value.0 != k
    ensures k in Bindings(defs) && Bindings(defs)[k] == v
  {
    var a, b := defs[..i + 1], defs[i + 1..];
    assert defs == a + b;
    BindingsConcat(a, b);
    assert a[..i] == defs[..i];
    forall j | 0 <= j < |b| ensures b[j].None? || b[j].value.0 != k {
      assert b[j] == defs[i + 1 + j];
    }
    BindingsKeys(b, k);
  }

  /** The value of a key is the one on the last line that defines it. */
  lemma LastLineWins(lines: seq<string>, i: nat, k: string, v: string)
    requires i < |lines| && EnvLine(lines[i]) == Some((k, v))
    requires forall j :: i < j < |lines| ==> EnvLine(lines[j]).None? || EnvLine(lines[j]).value.0 != k
    ensures k in ParseEnv(lines) && ParseEnv(lines)[k] == v
  {
    BindingsLast(Defs(lines), i, k, v);
  }

  // ---------------------------------------------------------------------
  // `get_config`

  /** The process environment first, then the settings file, then the default. */
  function GetConfig(environ: map<string, string>, env: map<string, string>, key: string, default: string): string {
    if key in environ then environ[key] else if key in env then env[key] else default
  }

  /** The lookup reads the settings file overlaid with the environment. */
  lemma GetConfigOverlay(environ: map<string, string>, env: map<string, string>, key: string, default: string)
    ensures GetConfig(environ, env, key, default) ==
      if key in env + environ then (env + environ)[key] else default
  {
  }

  // ---------------------------------------------------------------------
  // Comma-separated lists

  /** The stripped, non-blank pieces, in order. */
  function NonBlank(pieces: seq<string>): (r: seq<string>)
    ensures forall k :: 0 <= k < |r| ==> IsClean(r[k])
  {
    if pieces == [] then []
    else match Stripped(pieces[0])
      case Some(t) => [t] + NonBlank(pieces[1..])
      case None => NonBlank(pieces[1..])
  }

  lemma {:induction false} NonBlankConcat(a: seq<string>, b: seq<string>)
    ensures NonBlank(a + b) == NonBlank(a) + NonBlank(b)
  {
    if a == [] {
      assert a + b == b;
    } else {
      assert (a + b)[1..] == a[1..] + b;
      NonBlankConcat(a[1..], b);
    }
  }

  /** The entries of a comma-separated list: `[c.strip() for c in
      s.split(",") if c.strip()]`. */
  function Entries(s: string): (r: seq<string>)
    ensures forall k :: 0 <= k < |r| ==> IsClean(r[k]) && ',' !in r[k]
  {
    var r := NonBlank(Split(s, ','));
    EntriesNoComma(Split(s, ','));
    r
  }

  lemma {:induction false} EntriesNoComma(pieces: seq<string>)
    requires forall k :: 0 <= k < |pieces| ==> ',' !in pieces[k]
    ensures forall k :: 0 <= k < |NonBlank(pieces)| ==> ',' !in NonBlank(pieces)[k]
  {
    if pieces != [] {
      EntriesNoComma(pieces[1..]);
      if Stripped(pieces[0]).Some? && ',' in Trim(pieces[0]) {
        TrimKeeps(pieces[0], ',');
      }
    }
  }

  /** `s1 + "," + s2` lists the entries of `s1`, then those of `s2`. */
  lemma EntriesConcat(a: string, b: string)
    ensures Entries(a + "," + b) == Entries(a) + Entries(b)
  {
    assert a + "," + b == a + [','] + b;
    SplitConcat(a, b, ',');
    NonBlankConcat(Split(a, ','), Split(b, ','));
  }

  /** One entry without surrounding whitespace or commas lists itself. */
  lemma EntriesOne(c: string)
    requires IsClean(c) && ',' !in c
    ensures Entries(c) == [c]
  {
    SplitNoSep(c, ',');
    TrimTrimmed(c);
    assert Stripped(c) == Some(c);
    assert NonBlank([c]) == [c] + NonBlank([c][1..]);
    assert [c][1..] == [];
  }

  /** A piece without a comma lists its stripped text, unless it is blank. */
  lemma EntriesPiece(c: string)
    requires ',' !in c
    ensures Entries(c) == if IsBlank(c) then [] else [Trim(c)]
  {
    SplitNoSep(c, ',');
    assert NonBlank([c]) == (match Stripped(c) case Some(t) => [t] case None => []) + NonBlank([c][1..]);
    assert [c][1..] == [];
  }

  lemma {:induction false} SplitNoSep(s: string, sep: char)
    requires sep !in s
    ensures Split(s, sep) == [s]
  {
    if s != [] {
      SplitNoSep(s[1..], sep);
      assert s == [s[0]] + s[1..];
    }
  }

  function LowerAll(xs: seq<string>): (r: seq<string>)
    ensures |r| == |xs|
    ensures forall k :: 0 <= k < |xs| ==> r[k] == Lower(xs[k])
  {
    seq(|xs|, k requires 0 <= k < |xs| => Lower(xs[k]))
  }

  predicate NoUpper(s: string) {
    forall i :: 0 <= i < |s| ==> !('A' <= s[i] <= 'Z')
  }

  /** The channel names of a `NOTIFY_CHANNELS` value: none for an empty
      value, otherwise each entry stripped, non-empty and lower-cased. */
  function ChannelList(s: string): (r: seq<string>)
    ensures s == "" ==> r == []
    ensures forall k :: 0 <= k < |r| ==> IsClean(r[k]) && NoUpper(r[k]) && ',' !in r[k]
  {
    if s == "" then []
    else
      var es := Entries(s);
      forall k | 0 <= k < |es| ensures IsClean(Lower(es[k])) {
        LowerClean(es[k]);
      }
      LowerAll(es)
  }

  /** `get_enabled_channels`. */
  function EnabledChannels(environ: map<string, string>, env: map<string, string>): seq<string> {
    ChannelList(GetConfig(environ, env, "NOTIFY_CHANNELS", ""))
  }

  /** Channel lists keep comma order and repeated names. */
  lemma LowerAllConcat(xs: seq<string>, ys: seq<string>)
    ensures LowerAll(xs + ys) == LowerAll(xs) + LowerAll(ys)
  {
  }

  lemma EntriesEmpty()
    ensures Entries("") == []
  {
    assert Split("", ',') == [""];
  }

  lemma ChannelListConcat(a: string, b: string)
    ensures ChannelList(a + "," + b) == ChannelList(a) + ChannelList(b)
  {
    EntriesConcat(a, b);
    EntriesEmpty();
    assert a + "," + b != "";
    LowerAllConcat(Entries(a), Entries(b));
  }

  /** A clean lower-case name lists itself. */
  lemma ChannelListOne(c: string)
    requires IsClean(c) && ',' !in c && NoUpper(c)
    ensures ChannelList(c) == [c]
  {
    EntriesOne(c);
    assert Lower(c) == c;
  }

  /** A piece without a comma names its stripped text, lower-cased,
      unless it is blank: `" Email "` enables `email`. */
  lemma ChannelListPiece(c: string)
    requires ',' !in c
    ensures ChannelList(c) == if IsBlank(c) then [] else [Lower(Trim(c))]
  {
    EntriesPiece(c);
  }
}
