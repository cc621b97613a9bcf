# AI Task Notify, modelled in Dafny

`notify.py` is a hook script that Claude Code (through its Stop hook, JSON on
standard input) and the Codex CLI (through `notify`, JSON as the first
argument) run when an agent finishes a turn. It reads its settings from a
`.env` file overlaid by the process environment, works out which
notification channels are enabled, pulls the conversation out of the
weakly typed payload and emails an HTML rendering of it. This project
models the deterministic core of that script and proves what it does:

- `Results.dfy`: `Option`, and `Result` for a Python exception (`Raise`).
- `Text.dfy`: the `str` operations the script uses (`strip`, `lower`,
  `split`, `join`, `startswith`, `partition`'s first `=`).
- `Json.dfy`: the decoded payload (strings, lists, dicts, `null`,
  booleans and numbers), `dict.get`, which raises on anything but a
  dict, and Python iteration.
- `Escape.dfy`: `_escape_html`, with a per-character reference definition,
  a safety predicate and an inverse.
- `Config.dfy`: the `.env` line loop of `load_env`, `get_config` and
  `get_enabled_channels`.
- `Loops.dfy`: the "append what each item yields, stop at the first
  exception" loop that `extract_conversation` runs several times.
- `Conversation.dfy`: `extract_conversation` for the `claude-code`,
  `codex` and any other source, as functions and as the loop methods.
- `Render.dfy`: `_text_to_html` as the source's two-state machine (the
  `in_code` flag and the `code_lines` buffer), proved equal to a block
  structure: text lines and fenced code blocks.
- `Summary.dfy`: `format_message`'s scan for the last user and assistant
  turn, its agreement with the extractor, and the metadata rows of
  `build_email_html` with their id truncation.
- `Dispatch.dfy`: `parse_input`, the configuration guard of
  `send_email`, the result map of `send_notification` and `main`'s exit
  status.

Where the script reads the outside world, the model takes a parameter:
the file's lines (`None` for a missing file), the environment map, the
first argument, the piped standard input (`None` for a terminal), the
clock's text, and `json.loads`, `json.dumps` and `str` as functions. A
channel handler is a function from the call's position to how it ended
(`Returned(b)` or `Threw`).

The code differs from a reading of the script's intent in a few places,
and the model follows the code:

- A field of the wrong type is not always treated permissively. `.get`
  on a transcript item that is not a dict, `.strip()` on a `text` that
  is not a string, and iteration over a number all raise. The model
  returns `Raise` there.
- `format_message`'s scan raises on some items that the extractor skips.
  An item whose `type` is neither `human` nor `assistant` is still
  scanned, and a non-string `text` inside it raises
  (`Summary.ScanStricterThanExtraction`). Whenever the scan succeeds,
  it agrees with the extractor (`Summary.LastTurnsAgree`).
- With channels enabled but none registered, the results map is empty
  and `main` exits with 1 (`Dispatch.NoHandlerFails`).
- An unterminated fence with no following lines produces no `<pre>`
  block (`Render.CodeBlockCount`).
- The Codex reply is added only when it is non-blank, so a Codex result
  may hold no assistant record (`Conversation.CodexShape`).

## Model

| member | source | states |
|---|---|---|
| Text.Stripped | notify.py:92-93 | `Some` exactly when the text is not all whitespace, and then it is the stripped text, non-empty and with no whitespace at either end |
| Text.TrimOf | notify.py:39 | `strip` removes exactly the whitespace around a trimmed core, whatever its amount |
| Text.TrimIdempotent | notify.py:39 | stripping an already stripped line changes nothing |
| Text.TrimEmptyIffBlank | notify.py:40 | a line strips to the empty string exactly when it is all whitespace |
| Text.JoinSplit | notify.py:157 | joining the lines of a text with newlines gives the text back |
| Text.SplitConcat | notify.py:62 | splitting `a + "," + b` gives the pieces of `a` followed by those of `b` |
| Text.IndexOf | notify.py:43 | the first occurrence of the character, or none exactly when it does not occur |
| Text.JoinClean | notify.py:98 | joining non-empty stripped fragments gives a non-empty stripped text |
| Json.Get | notify.py:82-83 | `v.get(key, default)`: the first field with the key, as `Json.KeyIndex` locates it, or the default; anything but a dict raises (`Conversation.ClaudeExtraction`, `Dispatch.ParseSkipsOtherEvents`) |
| Json.Iterate | notify.py:82 | `for x in v`: a list's items, a string's characters, a dict's keys; anything else raises (`Conversation.ClaudeExtraction`, `Conversation.CodexExtraction`) |
| Json.KeyIndex | notify.py:83 | the position of the first field with the key, or none exactly when no field has it |
| Escape.EscapeHtml | notify.py:67-74 | `_escape_html` as the four chained replacements; its contract is stated by `Escape.EscapeHtmlIsEach`, `Escape.EscapeHtmlSafe`, `Escape.EscapeHtmlPlain` and `Escape.EscapeHtmlRoundTrip` |
| Escape.EscapeHtmlIsEach | notify.py:67-74 | the four chained replacements, `&` first, equal escaping each character on its own: no entity is escaped twice |
| Escape.EscapeHtmlSafe | notify.py:67-74 | the output has no raw `<`, `>` or `"`, and every `&` in it begins `&amp;`, `&lt;`, `&gt;` or `&quot;` |
| Escape.EscapeHtmlPlain | notify.py:67-74 | text without any of the four characters is returned unchanged |
| Escape.EscapeHtmlRoundTrip | notify.py:67-74 | decoding the four entities in the output gives back the original text |
| Escape.EscapeHtmlConcat | notify.py:67-74 | escaping a concatenation is concatenating the escapings |
| Escape.EscapeHtmlBlank | notify.py:186-189 | the escaped line is blank exactly when the line is |
| Escape.EscapeJoinedLines | notify.py:167 | escaping code lines joined by newlines equals joining the escaped lines |
| Config.EnvLine | notify.py:39-44 | one line of the file, stripped, then read by `Config.Definition`; what it defines is stated by `Config.EnvLineNone` and `Config.EnvLinePadded` |
| Config.ParseEnv | notify.py:38-44 | the settings a file defines, a later line overriding an earlier one (`Config.ParseEnvKeys`, `Config.LastLineWins`, `Config.ParseEnvConcat`) |
| Config.LoadEnv | notify.py:25-46 | a missing file gives no settings; otherwise the settings are exactly the ones the file's lines define, read in order |
| Config.ReadLine | notify.py:39-44 | the loop body for one line returns exactly what `Config.EnvLine` says the line defines |
| Config.EnvLineNone | notify.py:39-44 | a line defines nothing exactly when it is blank, starts with `#` once stripped, or has no `=` |
| Config.Definition | notify.py:42-44 | a definition's key has no `=` and key and value are stripped; `Config.DefinitionAt` gives the pair itself |
| Config.DefinitionAt | notify.py:40-44 | a non-empty stripped line that is not a comment is cut at its first `=`: the key is the stripped text before it, the value the stripped text after it |
| Config.EnvLineRoundTrip | notify.py:39-44 | `key=value` with any surrounding whitespace reads back as exactly that key and value, even when the value holds `=` |
| Config.EnvLinePadded | notify.py:39-44 | `KEY = VALUE`, with whitespace around the line and on either side of the `=`, defines exactly `KEY` as `VALUE` |
| Config.ParseEnvKeys | notify.py:38-44 | a key is set exactly when some line defines it |
| Config.LastLineWins | notify.py:38-44 | a key takes the value of the last line that defines it |
| Config.ParseEnvConcat | notify.py:38-44 | the settings of two consecutive runs of lines are the first overlaid by the second |
| Config.GetConfig | notify.py:49-54 | `get_config`: the environment's value, else the file's, else the default (`Config.GetConfigOverlay`) |
| Config.GetConfigOverlay | notify.py:49-54 | the lookup is the file's settings overlaid by the environment, with the default for a key in neither |
| Config.EnabledChannels | notify.py:57-62 | `get_enabled_channels`: the channel list of the `NOTIFY_CHANNELS` setting, as `Config.GetConfig` reads it; its entries are stated by `Config.ChannelList`, `Config.ChannelListPiece` and `Config.ChannelListConcat` |
| Config.ChannelList | notify.py:57-62 | an empty setting gives no channels; every entry is non-empty, stripped, lower-case and free of commas |
| Config.ChannelListConcat | notify.py:60-62 | the entries of `a,b` are those of `a` then those of `b`: comma order and duplicates are kept |
| Config.ChannelListOne | notify.py:62 | a stripped lower-case name without a comma is read as itself alone |
| Config.ChannelListPiece | notify.py:60-62 | a piece without a comma enables its stripped text lower-cased, or nothing when it is blank: with `Config.ChannelListConcat`, `email, SMS` enables `email` then `sms` |
| Config.EntriesPiece | notify.py:62 | a piece without a comma lists its stripped text, or nothing when it is blank |
| Config.EntriesConcat | notify.py:62 | before lower-casing, entries keep comma order and duplicates |
| Loops.GatherMeaning | notify.py:90-94 | the append loop raises exactly when one of its items raises; otherwise it yields what the items yield, in order |
| Loops.GatherOk | notify.py:90-94 | when no item raises, the loop returns what the items yield |
| Loops.SomesKept | notify.py:97-98 | the kept values are the items that yield something, in increasing position, none omitted |
| Conversation.MessageTexts | notify.py:87-96 | the fragments a message contributes, each non-empty and stripped; which ones is stated by `Conversation.MessageTextsString`, `Conversation.MessageTextsDict`, `Conversation.MessageTextsOther` and `Conversation.ClaudeFragmentMeaning` |
| Conversation.ClaudeFragmentMeaning | notify.py:91-94 | a content entry contributes the stripped `text` of a dict whose `type` is `"text"` unless it is blank; a non-string `text` there raises; every other entry contributes nothing |
| Conversation.CodexFragmentMeaning | notify.py:113-119 | a Codex content entry contributes what a Claude Code one does, and a non-blank bare string its stripped text as well |
| Conversation.TextBlockText | notify.py:91-94 | `{"type": "text", "text": t}` contributes `t` stripped, or nothing when `t` is blank, to either source |
| Conversation.TextBlocksGather | notify.py:90-94 | a content list of text blocks contributes the stripped non-blank texts, in order |
| Conversation.MessageTextsString | notify.py:95-96 | a plain-string message contributes its stripped text alone, or nothing when it is blank |
| Conversation.MessageTextsDict | notify.py:89-94 | a dict message contributes what its `content` entries contribute, in order; a `content` that cannot be iterated raises |
| Conversation.MessageTextsOther | notify.py:88-96 | a message that is neither a dict nor a string contributes nothing |
| Conversation.ClaudeItem | notify.py:83-98 | the record one transcript item contributes, with clean text; stated in full by `Conversation.ClaudeItemMeaning` |
| Conversation.ClaudeConversation | notify.py:81-98 | the `claude-code` records (`Conversation.ClaudeExtraction`, `Summary.LastTurnsAgree`) |
| Conversation.ClaudeItemMeaning | notify.py:83-98 | a transcript item gives a record exactly when it is a dict of type `human` or `assistant` with some text; `human` maps to user, and the text is the fragments joined with a blank line |
| Conversation.ClaudeExtraction | notify.py:81-98 | raises exactly when an item raises; otherwise the records are the items that yield one, in transcript order, none omitted, none with empty text |
| Conversation.CodexUser | notify.py:103-121 | an `input-messages` entry gives at most one record, a user record with stripped non-empty text |
| Conversation.CodexEntry | notify.py:104-141 | the text of an input message or of the last reply, always non-empty and stripped; which text is stated by `Conversation.CodexEntryMeaning` |
| Conversation.CodexEntryMeaning | notify.py:104-141 | a string entry gives its stripped text unless blank; a dict gives its `content` read the same way when that is a string, or the fragments of a list joined with a blank line, raising when a fragment raises; anything else gives nothing |
| Conversation.CodexUsersStrings | notify.py:103-105 | `input-messages` made of strings gives one user record per non-blank string, its stripped text, in order |
| Conversation.CodexStringPayload | notify.py:100-146 | string inputs and a string reply: the stripped non-blank inputs as user records in order, then the stripped reply; with a blank reply the user records alone, or the pretty-printed payload when there are none |
| Conversation.CodexOneExchange | notify.py:100-126 | one clean input and a clean reply (such as `"fix bug"` and `"done"`) give exactly that user record then that assistant record |
| Conversation.StringTurnItem | notify.py:83-98 | a `human` or `assistant` item whose message is a plain string gives that role's record with the stripped string, or nothing when it is blank |
| Conversation.ClaudeStringTurns | notify.py:82-98 | a transcript of plain-string turns gives the records of the non-blank turns, in order, each with its role and stripped text |
| Conversation.ClaudeStringPayload | notify.py:81-98 | a `claude-code` payload whose transcript is plain-string turns gives exactly those records |
| Conversation.ClaudeOneExchange | notify.py:81-98 | a clean `human` turn then a clean `assistant` turn (such as `"hi"` and `"hello"`) give exactly that user record then that assistant record |
| Conversation.CodexConversation | notify.py:100-146 | the `codex` records (`Conversation.CodexExtraction`, `Conversation.CodexShape`, `Conversation.CodexReply`) |
| Conversation.CodexExtraction | notify.py:100-146 | raises exactly when an input message or the reply raises; otherwise the user records are what the `input-messages` entries yield, in order, none omitted; a reply with text always follows them as the last record; the pretty-printed payload stands alone exactly when neither yields anything |
| Conversation.CodexShape | notify.py:100-146 | the Codex result is never empty; every record but the last is a user record, so there is at most one assistant record and it comes last; the texts are stripped unless the result is the fallback |
| Conversation.CodexReply | notify.py:124-146 | a final assistant record is either the fallback or the text taken from `last-assistant-message` |
| Conversation.Extract | notify.py:77-152 | any other source yields exactly one assistant record holding the pretty-printed payload; no successful non-Claude result is empty |
| Conversation.ExtractConversation | notify.py:77-152 | the imperative extraction computes `Extract` |
| Conversation.CollectClaudeMessages | notify.py:82-98 | the transcript loop computes the append loop over the items' records |
| Conversation.ClaudeItemOf | notify.py:83-98 | the per-item body computes the item's record |
| Conversation.CollectClaudeFragments | notify.py:90-94 | the content loop computes the append loop over the Claude fragments |
| Conversation.CollectCodexFragments | notify.py:112-119 | the content loop computes the append loop over the Codex fragments |
| Conversation.CodexItemText | notify.py:104-121 | the per-entry body computes the entry's text |
| Conversation.CollectCodexUsers | notify.py:102-121 | the `input-messages` loop computes the append loop over the user records |
| Conversation.CodexMessages | notify.py:100-146 | the Codex branch computes the Codex conversation |
| Conversation.CodexUsersShape | notify.py:102-121 | every record from `input-messages` is a user record with stripped non-empty text |
| Render.Classify | notify.py:163-164 | a line is a fence exactly when its stripped form starts with three backticks |
| Render.TextToHtml | notify.py:155-207 | the output is the rendering of the text's blocks, one part per block, joined by newlines |
| Render.Blocks | notify.py:162-205 | the lines read as text lines and fenced code blocks (`Render.RenderIsBlocks`, `Render.BlocksKeepNonFenceLines`, `Render.CodeBlockCount`) |
| Render.RenderIsBlocks | notify.py:158-205 | the `in_code` state machine with its final flush produces the block structure of the lines |
| Render.RenderInCodeOpen | notify.py:183-205 | inside a fence with no closing fence left, the remaining lines all go into the flushed block, if there are any |
| Render.RenderInCodeClosed | notify.py:164-184 | inside a fence, the lines up to the next fence form one code block and rendering resumes outside |
| Render.BlocksKeepNonFenceLines | notify.py:162-205 | the blocks hold exactly the non-fence lines, in order: fence lines never appear and no other line is lost |
| Render.CodeBlockCount | notify.py:164-205 | one code block per closed fence pair, plus one for an unterminated fence exactly when a line follows it |
| Render.LinePart | notify.py:186-192 | the HTML part of a line outside a fence (`Render.LinePartShape`) |
| Render.Bold | notify.py:188 | the `**…**` substitution as a left-to-right lazy scan (`Render.BoldPlain`, `Render.BoldBlank`) |
| Render.LinePartShape | notify.py:183-192 | a blank line outside a fence gives `<br>`; any other its escaped, bolded form followed by `<br>` |
| Render.PreShape | notify.py:164-176 | a code block is the `<pre>` opening, the escaped lines joined by newlines, and `</pre>` |
| Render.BoldPlain | notify.py:188 | a line without `*` is left alone by the bold substitution |
| Render.BoldBlank | notify.py:188-189 | the bold substitution keeps a line blank or non-blank |
| Summary.ScanLast | notify.py:505-523 | the last user and last assistant text of the transcript (`Summary.ScanAgrees`, `Summary.LastTurnsAgree`, `Summary.ScanStricterThanExtraction`) |
| Summary.ScanTranscript | notify.py:505-523 | the loop computes the scan's last user and last assistant text |
| Summary.ScanItem | notify.py:506-518 | the text an item contributes is empty or stripped and non-empty |
| Summary.ScanAgrees | notify.py:505-523 | when the scan succeeds, so does the extractor's loop, and the scan's texts are the last user and last assistant texts of its records |
| Summary.LastTurnsAgree | notify.py:499-523 | for a Claude Code payload, the last turns equal the extractor's last record of each role, and are empty exactly when it has no record of that role |
| Summary.ScanStricterThanExtraction | notify.py:505-523 | a `system` item with a non-string text makes the scan raise while the extractor skips it |
| Summary.Shorten | notify.py:242 | an id no longer than the limit is shown as is; a longer one as its first `limit` characters and `...` |
| Summary.ShortenPrefix | notify.py:242 | two long ids with the same first `limit` characters are shown alike |
| Summary.OptionalRow | notify.py:238-250 | an optional row is present exactly when its field is truthy |
| Summary.MetaRows | notify.py:237-250 | the table has one to six rows, the first always the completion time |
| Summary.MetaShown | notify.py:237-250 | the row shown under a name is the first of the time row and the five optional rows, in order, that carries it |
| Summary.MetaIdShown | notify.py:240-250 | each id row shows the id, shortened to 12 for the session and to 16 for the thread and the turn, exactly when the field is truthy |
| Dispatch.Payload | notify.py:613 | a decoded `null` is Python's None, any other decoded value is kept as the payload |
| Dispatch.FromStdin | notify.py:609-617 | the standard-input path either leaves the result alone or gives a `claude-code` `stop` event whose payload is the decoded piped input, None for `null` |
| Dispatch.ParseInput | notify.py:583-619 | `parse_input` (`Dispatch.ParseSkipsOtherEvents`, `Dispatch.ParseCodex`, `Dispatch.ParseClaude`, `Dispatch.ParseNullSkipped`, `Dispatch.ParseNothing`) |
| Dispatch.ParseSkipsOtherEvents | notify.py:595-603 | a Codex dict of any other type gives no payload |
| Dispatch.ParseCodex | notify.py:595-606 | a kept Codex payload is the decoded dict, of type `agent-turn-complete` |
| Dispatch.ParseClaude | notify.py:609-619 | without a usable argument, non-blank piped JSON is a `claude-code` `stop` event carrying the decoded value, or None when it is `null` |
| Dispatch.ParseNullSkipped | notify.py:609-637 | piped `null` leaves a None payload, so `main` exits with 0 whatever the channels and results |
| Dispatch.ParseNothing | notify.py:590-619 | with neither input usable, the payload is an empty dict from source `unknown` |
| Dispatch.SendEmail | notify.py:422-429 | with any of the five settings empty, nothing is sent and the result is false; otherwise the result is the delivery's |
| Dispatch.MissingSettingSendsNothing | notify.py:422-429 | a setting missing from both the environment and the file is enough to send nothing |
| Dispatch.Recipients | notify.py:434 | every recipient is non-empty, stripped and free of commas; with `Config.EntriesPiece` and `Config.EntriesConcat`, the recipients are the comma pieces of `EMAIL_TO`, stripped, blank ones dropped, in order |
| Dispatch.UseSsl | notify.py:432 | implicit TLS is used when the setting is unset |
| Dispatch.ResultsOf | notify.py:478-492 | the results map of `send_notification` (`Dispatch.ResultsKeys`, `Dispatch.ResultsLast`, `Dispatch.NoHandlerFails`) |
| Dispatch.SendNotification | notify.py:478-492 | the loop computes the results of the registered channels' calls, an exception counting as failure |
| Dispatch.ResultsKeys | notify.py:481-490 | a result is recorded for exactly the enabled channels that have a handler |
| Dispatch.ResultsLast | notify.py:481-490 | a channel's result is the outcome of its last call |
| Dispatch.ExitCode | notify.py:627-656 | the exit status is 0 or 1 |
| Dispatch.ExitZeroIff | notify.py:627-656 | the status is 0 exactly when no channel is enabled, the event is skipped, or the payload is non-empty and some channel succeeded |
| Dispatch.NoHandlerFails | notify.py:481-490 | with channels enabled but none registered, a non-empty payload ends with status 1 |

## Left out

- SMTP and MIME: the connection, TLS, login and sending in `send_email` (notify.py:431-460) are network I/O. Their outcome, and the exception `int()` raises on a malformed `SMTP_PORT`, are a parameter of `Dispatch.SendEmail`.
- File and process I/O: whether the `.env` file exists and its lines, `sys.argv`, `sys.stdin.isatty()` and `read()`, and `os.environ` are parameters.
- Library calls: `json.loads`, `json.dumps` and `str()` are opaque function parameters, and `datetime.now()` is the timestamp text.
- The rest of `build_email_html`: the choice of theme colours, the HTML document around the table, the message cards with their `USER` or `AI ASSISTANT` label, the fallback block that shows the pretty-printed payload when nothing was extracted, and the escaping of each metadata row's name and value (notify.py:212-226, 252-411). This is HTML assembly around the modelled parts; the escaping it applies is `Escape.EscapeHtml`.
- The rest of `format_message`: its title, the text template, the `N/A` and `(无内容)` placeholders, `session_id[:8]`, the Codex branch and the other-source branch only assemble a plain-text body. Only its Claude Code scan, which decides which turns are shown, is modelled.
- Printing to standard output and standard error.
- The exit status when an exception escapes `main`: `data.get("type")` on an argument that decodes to something other than a dict (notify.py:599; `Dispatch.ParseInput` returns `Raise` there), or `format_message` on a wrong-typed payload, through its transcript scan, its `input-messages` loop or `session_id[:8]` (notify.py:505-528, 540-548). `Dispatch.ExitCode` covers the runs that reach the end of `main`. Exceptions inside the email handler, the extractor's among them, end as a false result (`Dispatch.SendEmail`'s `Threw` outcome).
- Render.Bold: the `**(.+?)**` substitution is a left-to-right non-greedy scan, not Python's regular-expression engine.
- Text.LowerChar: lower-cases the ASCII letters only, not the rest of Unicode.
- Text.IsSpace: Python's `str.isspace` is listed by code point for the common whitespace characters, not taken from the Unicode database.
- Json.Json: a float is an exact number, so the rounding of Python floats is not modelled, nor are the `NaN` and `Infinity` values `json.loads` also accepts; how `str` and `json.dumps` render any value is an opaque function parameter.
- Json.Lookup: the model does not enforce that a dict's keys are distinct; it reads the first field with the key.
