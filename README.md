# MongoDB log-line parser, modelled in Dafny

This project models `LogEvent` from `parser.py`. That class turns one line of a MongoDB operation log into a sparse record, a map from field name to value.

- **Construction** (`__init__`) splits the line on runs of spaces. It reads `time`, `level`, `type` and `session` from the first four tokens. A trailing `<digits>ms` token becomes the integer `duration` and is removed.
- **`Parse`** gives a non-`COMMAND` line only a `text` field. For a `COMMAND` line it runs a keyword dispatcher that pops tokens off the front of the message. The dispatcher extracts brace-balanced bodies and skips to the `...` and `code:<digits>` markers. Other tokens go to a generic `key:value` matcher, and what it rejects is collected in `errors`.
- **Normalisation** rewrites the captured query string in two passes. `$in` lists and `ObjectId` literals become placeholders, and the result is stored as `query_str`.

The model is imperative where the source is. The class `LogEvents.LogEvent` has fields `log`, `tokens`, `message` and `queryStr`, and one method per source method and per multi-step dispatcher branch. The one-line `serverStatus` branch is inline in `DispatchToken`. The `warning:` branch calls `DropWarningOfTooLong`, and the fallback branch calls `SetField`.

- Every `pop(0)` is `message := message[1..]`. The `locks:{` branch puts back its brace with `["{"] + message`.
- The loops of `_drop_warning_of_too_long`, `_get_close_brackets`, the `exception:` branch and `Parse` are `while` loops with invariants.
- Each method is proved against a specification function from the modules below:
  - `Brackets` (the brace span)
  - `Fields` (token patterns and marker scans)
  - `QueryNormaliser` (the two substitutions)
  - `Dispatch` (one dispatcher step, the loop, the whole parse)
  - `BranchSteps` (what one pass writes, keyword by keyword)

  Those functions carry the properties, proved as lemmas.
- Every Python fault is a `Result` failure with a `Fault` value, not a precondition:
  - `pop(0)` or `[0]` on an empty list is `EmptyMessage`.
  - An index past the end inside the bracket loop is `UnterminatedBrace`.
  - A missing `query_index` is `MissingKey`.
  - Appending to a non-string `errors` is `NotAString`.
  - Fewer than four tokens is `MalformedLine`.
  - Reading `_query_str` before it was ever set is `MissingAttribute`. `Parse` swallows this one, as the source's `try`/`except` does.

The model keeps these behaviours of the code:

- The span returned by `_get_close_brackets` includes its opening `{`, and its closer is cleaned to `}`.
- A missing body gives the empty string.
- `re.match` anchors only at the start, so `foo:12abc` stores 12.
- The key class `[a-zA-z]` covers every character from `A` to `z`, including ``[ \ ] ^ _ ` ``.
- The generic matcher may overwrite any key, header fields included.
- `$` also matches before one final newline. The split is on spaces only, so a trailing `\n` stays on the last token.
- The normaliser writes `query_str` only when the loop runs out of tokens; after `serverStatus` it does not run. A `query_str:<v>` token still sets the field through the generic matcher.

Some consequences of the code are worth spelling out:

- **Repeated `IXSCAN` spans** (parser.py:106). A new span is compared only with `query_index`. Two equal consecutive spans that differ from it are therefore both kept in `query_index_more`, as `ParseProperties.RepeatedIndexKeptTwice` shows.
- **Splitting** (parser.py:13). `re.split(' +')` splits on runs of the space character only. Tabs and other whitespace stay inside tokens.
- **Which faults abort.** A line with fewer than four tokens raises from the constructor (parser.py:14-17, re-raised at 26-27). Inside `Parse` these faults abort the line (parser.py:66-141):
  - a `pop(0)` or `[0]` past the end of the message;
  - an index past the end while the brace span is read;
  - a missing `query_index`;
  - a non-string `errors`.

  Three faults are caught instead:
  - a failed append to `query_index_more` starts a new list (parser.py:107-111);
  - a loader failure leaves the record as it was (parser.py:117-120);
  - the normaliser's missing-attribute fault is swallowed (parser.py:143-146).
- **Missing body** (parser.py:36-37, 80). After `command` or `query`, a token other than `{` makes `_get_close_brackets` return `[]`, so the query string becomes the empty string.

## Model

| member | source | states |
|---|---|---|
| Text.SplitSpaces | parser.py:13 | `re.split(' +')`: at least one piece, no piece contains a space, only the first and last pieces can be empty, and the first is non-empty when the line does not start with a space |
| Text.SplitRun | parser.py:13 | a space-free piece followed by a run of any length n >= 1 of spaces splits off exactly that piece, whatever the run's length |
| Text.SplitJoinRuns | parser.py:13 | splitting space-free pieces (inner ones non-empty) joined by runs of spaces of any positive lengths gives back exactly those pieces |
| Text.SplitJoin | parser.py:13 | splitting the single-space join of such pieces gives back exactly those pieces |
| Text.Join | parser.py:62 | `' '.join` is empty for no pieces, and otherwise is the run-join in which every run is one space |
| Text.DropFinalNewline | parser.py:20 | exactly one final `\n` is removed when there is one; otherwise the string is unchanged |
| Text.DecimalStringOf | parser.py:22 | `int()` loses nothing on digits without a leading zero: rendering the value gives back the digits |
| Text.Strip | parser.py:62 | `strip()` returns the infix left after cutting the leading and the trailing whitespace; all cut characters are whitespace and the result neither starts nor ends with whitespace |
| Text.DecimalRoundTrip | parser.py:22 | `int()` of the decimal rendering of `n` is `n` |
| LogEvents.Initial | parser.py:13-25 | construction fails, with `MalformedLine` only, exactly when the split has fewer than four tokens |
| LogEvents.FromTokens | parser.py:14-25 | after the split: fails with `MalformedLine` iff there are fewer than four tokens; on success the token list is the split itself or the split less its last token |
| Fields.Duration | parser.py:20-22 | a duration exists iff the last token, less one final newline, is one or more digits followed by `ms`; its value is the value of those digits |
| LogEvents.Inner | parser.py:17 | `s[1:-1]`: `s` is its first character, the result and its last character; shorter strings give `""` |
| LogEvents.InitialSpec | parser.py:13-25 | construction succeeds iff the split has at least four tokens; then `time`, `level` and `type` are tokens 0-2, `session` is token 3 trimmed, and `duration` is present exactly when the last token is one, in which case that token is dropped from `tokens` and no other key exists |
| LogEvents.LogEvent.New | parser.py:8-27 | the new object holds the record and tokens of `InitialSpec`, the message `tokens[4:]` and no query string; it fails exactly when `InitialSpec` does, and then with `MalformedLine` |
| LogEvents.LogEvent.Of | parser.py:25 | the message is `tokens[4:]` (empty for fewer tokens) and no query string exists yet |
| LogEvents.LogEvent.Pop | parser.py:67 | `pop(0)` returns the front token and removes it; on an empty message it fails and the message is left alone |
| Fields.DropThroughMarker | parser.py:29-31 | the tokens after the first `...` exist iff `...` occurs; none is before it and the rest is exactly what follows it |
| LogEvents.LogEvent.DropWarningOfTooLong | parser.py:29-31 | the loop succeeds iff a `...` is left, and then the message is what follows the first one; otherwise it fails with `EmptyMessage` |
| Brackets.CloseFrom | parser.py:39-46 | the scan stops at a `}`/`},` token at or after its start, or finds none |
| Brackets.CloseFromBalance | parser.py:39-46 | the scan's depth is the real nesting: where it stops the prefix is balanced and every earlier prefix past the start is open; when it finds nothing every prefix is open |
| Brackets.CloseBrackets | parser.py:33-52 | the span and the rest together are as long as the message; a span that starts at `{` has at least two tokens |
| Brackets.CloseBracketsSpec | parser.py:33-52 | no `{` in front gives an empty span and an unchanged message; otherwise the span starts with `{` and ends with `}`, the old message is the span with its last token restored to the original `}`/`},`, followed by the rest; the span is balanced and every proper prefix is open; it fails only on an empty message, or with `UnterminatedBrace` when every prefix stays open |
| LogEvents.LogEvent.GetCloseBrackets | parser.py:33-52 | the counter loop returns the span of `CloseBrackets` and leaves its rest as the message; on a fault the message is unchanged |
| Fields.CodeTokenOn | parser.py:127 | `code:` followed by one or more digits, with or without one final newline, is a code token |
| Fields.CodeTokenRejectsTail | parser.py:127 | `code:<digits>` followed by any character that is neither a digit nor a newline is not a code token |
| Fields.ExceptionTail | parser.py:124-128 | the scan fails only with `EmptyMessage`; on success what is left is a proper suffix of the message |
| Fields.ExceptionTailFails | parser.py:124-128 | the scan fails iff no `code:<digits>` token is left |
| Fields.ExceptionTailStop | parser.py:127-128 | on success the scan stops at a `code:<digits>` token inside the message |
| Fields.ExceptionTailFirst | parser.py:124-128 | no token before the one the scan stops at is a `code:<digits>` token |
| Fields.ExceptionTailText | parser.py:125-126 | on success the text is every token through the stop token, each with a space in front, and what is left is exactly the tokens after it |
| Fields.ExceptionTailStep | parser.py:125-128 | one pass of the loop: a code token completes the scan with the text so far plus that token; any other token joins the text and the scan goes on over the remaining tokens |
| Fields.SpacePrefixedIsJoin | parser.py:126 | appending `' ' + token` for each token gives a space followed by the single-space join |
| LogEvents.LogEvent.ReadException | parser.py:124-128 | the loop succeeds iff a `code:<digits>` token is left; `exception` gains that scan's text, the message is what follows it, and no key is added or removed |
| LogEvents.LogEvent.ParseException | parser.py:122-128 | the branch sets `exception` to `"exception:"` plus the space-prefixed tokens through the first `code:<digits>`, exactly as `Dispatch.AfterException` |
| Fields.MatchIntField | parser.py:131 | a match is a non-empty key of `A`-`z` characters, then `:`, then at least one digit; the value is that leading digit run's value |
| Fields.MatchStrField | parser.py:135 | a match is a non-empty `A`-`z` key, `:`, and the longest non-empty run of non-colon characters after it |
| Fields.MatchIntFieldOn | parser.py:131-133 | every token `key:digits` followed by a non-digit or the end matches the key and the digits' value |
| Fields.MatchStrFieldOn | parser.py:135-137 | every token `key:value` with a colon-free value, ended by `:` or the end, matches the key and that value |
| Fields.MatchIntFieldMisses | parser.py:131-135 | `key:` followed by a non-digit or nothing is not an integer field |
| Dispatch.Fallback | parser.py:130-141 | the integer form wins over the string form; otherwise `errors` is created as `" " + token` or gains `" " + token`, and a non-string `errors` fails; no key is lost |
| LogEvents.LogEvent.SetField | parser.py:130-141 | the method ends in `Fallback`'s record and fails exactly when it does |
| Dispatch.MoreIndex | parser.py:105-111 | a span equal to `query_index` changes nothing; otherwise `query_index_more` gains it at the end of an existing list, or becomes a one-element list, and no other key changes |
| LogEvents.LogEvent.AddIndexMore | parser.py:105-111 | fails with `MissingKey` iff `query_index` is absent; otherwise ends in `MoreIndex`'s record |
| Dispatch.QueryBody | parser.py:80 | succeeds iff the brace scan does; then the query string is the single-space join of the span, the message is what follows the span, the record is unchanged, and the loop continues without adding tokens |
| Dispatch.AfterWarning | parser.py:68-69 | the `warning:` branch removes at least one token from the message, keeps every key and continues the loop |
| Dispatch.AfterKillcursors | parser.py:71-73 | the `killcursors` branch removes at least one token from the message, keeps every key and continues the loop |
| Dispatch.AfterCommand | parser.py:75-80 | the `command` branch removes at least one token from the message, keeps every key and continues the loop |
| Dispatch.AfterQuery | parser.py:82-86 | the `query` branch removes at least one token from the message, keeps every key and continues the loop |
| Dispatch.AfterGetmore | parser.py:88-93 | the `getmore` branch removes at least one token from the message, keeps every key and continues the loop |
| Dispatch.AfterPlanSummary | parser.py:99-102 | the `planSummary:` branch removes at least one token from the message, keeps every key and continues the loop |
| Dispatch.AfterIxscan | parser.py:104-111 | the `IXSCAN` branch adds no tokens to the message, keeps every key and continues the loop |
| Dispatch.AfterLocks | parser.py:113-120 | the `locks:{` branch removes at least one token from the message, keeps every key and continues the loop |
| Dispatch.AfterException | parser.py:122-128 | the `exception:` branch removes at least one token from the message, keeps every key and continues the loop |
| Dispatch.AfterOther | parser.py:130-141 | the fallback branch adds no tokens to the message, keeps every key and continues the loop |
| BranchSteps.WarningStep | parser.py:68-69 | a message `warning:` … `...` rest, with no `...` before the marker, passes to `rest` with the record and the query string unchanged |
| BranchSteps.WarningRunsOut | parser.py:29-31 | `warning:` with no `...` after it fails with `EmptyMessage` |
| BranchSteps.KillcursorsStep | parser.py:71-73 | `killcursors <ns>` sets `namespace` to `<ns>` and `command` to `killcursors`, consumes both tokens and changes nothing else |
| BranchSteps.CommandStep | parser.py:75-80 | `command <ns> <sep> <name>` sets `namespace` to `<ns>` and `command` to `<name>`, drops `<sep>`, and then captures the body exactly as `QueryBody` does |
| BranchSteps.CommandRunsOut | parser.py:77-79 | `command` with fewer than three tokens after it fails with `EmptyMessage` |
| BranchSteps.QueryKeywordStep | parser.py:82-86 | `query <ns> <name>` sets `namespace` and `command` to those tokens and then captures the body exactly as `QueryBody` does |
| BranchSteps.GetmorePlanStep | parser.py:88-91 | `getmore <ns> planSummary:` sets `namespace` and `command` to `getmore`, and leaves `planSummary:` at the front for the next pass |
| BranchSteps.GetmoreBodyStep | parser.py:88-93 | `getmore <ns> <x>` with `<x>` not `planSummary:` sets the same two fields, drops `<x>`, and captures the body exactly as `QueryBody` does |
| BranchSteps.GetmoreRunsOut | parser.py:89-91 | `getmore` with no token after the namespace fails with `EmptyMessage` on the look-ahead |
| BranchSteps.PlanSummaryStep | parser.py:99-101 | `planSummary: <plan>` for a plan other than `IXSCAN` sets only `query_plan` to `<plan>` |
| BranchSteps.PlanSummaryIndexStep | parser.py:99-102 | `planSummary: IXSCAN` succeeds iff the brace span that follows does; then `query_plan` is `IXSCAN`, `query_index` is the single-space join of the span, and the message is what follows it |
| BranchSteps.LocksStep | parser.py:113-120 | `locks:{` succeeds iff the span of the message with `{` put back does; then the record is `WithLocks` of the loader's answer for the joined span, and the message is what follows |
| BranchSteps.ExceptionStep | parser.py:122-128 | `exception:` succeeds iff a `code:<digits>` token is left; then `exception` is `exception:` followed by the scan's text, and the message is what follows the code token |
| Dispatch.WithLocks | parser.py:117-120 | a loader failure leaves the record as it was; a document is stored under `locks`, adds only that key, and leaves every other field unchanged |
| LogEvents.LogEvent.ParseKillcursors | parser.py:71-73 | fails exactly when `AfterKillcursors` does, otherwise ends in its state |
| LogEvents.LogEvent.ParseCommand | parser.py:75-80 | fails exactly when `AfterCommand` does, otherwise ends in its state |
| LogEvents.LogEvent.ParseQuery | parser.py:82-86 | fails exactly when `AfterQuery` does, otherwise ends in its state |
| LogEvents.LogEvent.ParseGetmore | parser.py:88-93 | fails exactly when `AfterGetmore` does, otherwise ends in its state |
| LogEvents.LogEvent.ParsePlanSummary | parser.py:99-102 | fails exactly when `AfterPlanSummary` does, otherwise ends in its state |
| LogEvents.LogEvent.ParseIxscan | parser.py:104-111 | fails exactly when `AfterIxscan` does, otherwise ends in its state |
| LogEvents.LogEvent.ParseLocks | parser.py:113-120 | fails exactly when `AfterLocks` does, otherwise ends in its state; a loader failure leaves `locks` as it was |
| Dispatch.Step | parser.py:66-141 | one pass consumes at least one token and drops no key; it stops the loop iff the token is `serverStatus`, then with only `command` set and the rest of the message unconsumed |
| LogEvents.LogEvent.DispatchToken | parser.py:67-141 | the method fails exactly when `Step` does, with `Step`'s fault, and otherwise ends in `Step`'s state, reporting whether the loop stops |
| Dispatch.Run | parser.py:66-141 | the loop ends with an empty message, or on `serverStatus` with `command` set to it and fewer tokens left; no key is dropped |
| Dispatch.Finish | parser.py:143-146 | without a query string the state is unchanged; with one, the query string becomes its normalisation, a fixed point of both rewrites, and is stored as `query_str`, which is the only key added; no other field and not the message changes |
| Dispatch.MessageTokens | parser.py:25 | `tokens[4:]`: with four or more tokens, the first four followed by the result are the tokens; with fewer the result is empty |
| Dispatch.ParseSpec | parser.py:60-146 | a parse drops no key, and a `COMMAND` line keeps unconsumed tokens only when `serverStatus` stopped it, with `command` then set to `serverStatus` |
| LogEvents.LogEvent.Parse | parser.py:60-146 | the method fails exactly when `ParseSpec` does, with its fault, and otherwise ends in its state; the record keeps a `type` key |
| LogEvents.LogEvent.DropIdsQueryStr | parser.py:54-58 | with a query string it stores the normalised string as both the query string and `query_str`; without one it fails and changes nothing |
| QueryNormaliser.InListLength | parser.py:10 | a `$in` match ends at the first `]` after a non-empty `]`-free list |
| QueryNormaliser.ReplaceIn | parser.py:55 | the pass keeps the first character, keeps emptiness, and keeps whether a `]` occurs |
| QueryNormaliser.ReplaceObjectId | parser.py:56 | the pass keeps the first character, keeps emptiness, and keeps whether a `]` occurs |
| QueryNormaliser.InListReplaced | parser.py:55 | every `$in: [X]` with `X` non-empty and `]`-free becomes `$in: [...]`, and the scan goes on after it |
| QueryNormaliser.ObjectIdReplaced | parser.py:56 | every `ObjectId('<24 lower-case hex digits>')` becomes `ObjectId(...)`, and the scan goes on after it |
| QueryNormaliser.InCopy | parser.py:55 | text without a `$` passes the `$in` rewrite unchanged |
| QueryNormaliser.IdCopy | parser.py:56 | text without an `O` passes the `ObjectId` rewrite unchanged |
| QueryNormaliser.ReplaceInIdempotent | parser.py:55 | a second `$in` rewrite changes nothing |
| QueryNormaliser.ReplaceObjectIdIdempotent | parser.py:56 | a second `ObjectId` rewrite changes nothing |
| QueryNormaliser.PassesCommute | parser.py:55-56 | the two rewrites commute |
| QueryNormaliser.Normalise | parser.py:55-56 | the two passes in order give a string that neither pass changes again |
| QueryNormaliser.NormaliseIdempotent | parser.py:54-58 | normalising a normalised string changes nothing |
| ParseProperties.NonCommandText | parser.py:61-63 | a non-`COMMAND` line succeeds and gains only `text`, the stripped single-space join of `tokens[4:]`, with every other field, the message and the query string unchanged |
| ParseProperties.QueryStrNormalised | parser.py:143-146 | after a loop that ran out with a captured body, `query_str` holds the normalised body, equal to the final query string, and a further normalisation leaves it alone |
| ParseProperties.NoQueryNoQueryStr | parser.py:143-146 | after a loop that ran out with nothing captured, the record is the loop's own |
| ParseProperties.ServerStatusLeavesQueryUnrecorded | parser.py:95-97 | for `query db.c find { a: 1 } serverStatus` followed by any tokens, the body is captured, `command` is `serverStatus`, those tokens are left, and no `query_str` is written |
| ParseProperties.RepeatedIndexKeptTwice | parser.py:104-111 | two equal `IXSCAN` spans that differ from `query_index` are both appended to `query_index_more`, whatever tokens follow them |
| ParseProperties.CommandWithIndexPlan | parser.py:75-102 | `command test.users command: find { filter: { a: 1 } } planSummary: IXSCAN { a: 1 }` parses to `namespace` `test.users`, `command` `find`, `query_plan` `IXSCAN`, `query_index` `{ a: 1 }` and `query_str` `{ filter: { a: 1 } }` |
| ParseProperties.IndexWithoutQueryIndexFails | parser.py:106 | an `IXSCAN` span with no `query_index` makes the parse fail with `MissingKey` |
| ParseProperties.UnderscoreKeyLeadingDigits | parser.py:131-133 | `query_index:12abc` stores the integer 12 under `query_index` |
| ParseProperties.FallbackOverwritesHeader | parser.py:135-137 | `type:abc` overwrites the header field `type` |
| ParseProperties.FallbackWritesQueryStr | parser.py:135-137 | on a `COMMAND` line, `query_str:abc serverStatus` sets `query_str` to `abc` through the generic matcher although the normaliser never runs |

## Left out

- `yaml.load` (parser.py:118) is a foreign library. It is the parameter `load`. A `None` answer stands for a loader exception and leaves `locks` as it was.
- `print e` (parser.py:120) is console output.
- The `__main__` block (parser.py:148-156) is I/O: standard input, JSON output, standard error.
- The Python exception types are collapsed into `LogTypes.Fault`.
- The model treats the line as a sequence of characters. The source, under Python 2, works on byte strings, so on non-ASCII input `Inner`'s `[1:-1]` and the classes `[^:]` and `[^\]]` act on bytes rather than characters.
- `\d` is taken as the ASCII digits, and `[0-9a-f]` as ASCII hex.
- The compiled regular expressions (parser.py:10-11) are modelled as the hand-written scans `ReplaceIn` and `ReplaceObjectId`. They are not a general regex engine.
- A method that fails does not state the object's fields afterwards. Python may already have written some fields before it raised, and the model does not capture that partial state.
- Dispatch.Run: when it stops at `serverStatus`, its contract says fewer tokens are left. It does not say that those tokens are a suffix of the message.
- Dispatch.AfterWarning: its own contract says only that the loop goes on, that the branch removes at least one token, and that no key is lost. What the branch writes is stated by `BranchSteps.WarningStep`, for every message that starts with the keyword and holds the tokens the branch pops.
- Dispatch.AfterKillcursors: its own contract says only that the loop goes on, that the branch removes at least one token, and that no key is lost. What the branch writes is stated by `BranchSteps.KillcursorsStep`, for every message that starts with the keyword and holds the tokens the branch pops.
- Dispatch.AfterCommand: its own contract says only that the loop goes on, that the branch removes at least one token, and that no key is lost. What the branch writes is stated by `BranchSteps.CommandStep`, for every message that starts with the keyword and holds the tokens the branch pops.
- Dispatch.AfterQuery: its own contract says only that the loop goes on, that the branch removes at least one token, and that no key is lost. What the branch writes is stated by `BranchSteps.QueryKeywordStep`, for every message that starts with the keyword and holds the tokens the branch pops.
- Dispatch.AfterGetmore: its own contract says only that the loop goes on, that the branch removes at least one token, and that no key is lost. What the branch writes is stated by `BranchSteps.GetmorePlanStep` and `BranchSteps.GetmoreBodyStep`, for every message that starts with the keyword and holds the tokens the branch pops.
- Dispatch.AfterPlanSummary: its own contract says only that the loop goes on, that the branch removes at least one token, and that no key is lost. What the branch writes is stated by `BranchSteps.PlanSummaryStep` and `BranchSteps.PlanSummaryIndexStep`, for every message that starts with the keyword and holds the tokens the branch pops.
- Dispatch.AfterIxscan: its own contract says only that the loop goes on, that the branch adds no tokens, and that no key is lost. What the branch writes is stated by `Dispatch.MoreIndex`, `LogEvents.LogEvent.AddIndexMore` and `ParseProperties.RepeatedIndexKeptTwice`.
- Dispatch.AfterLocks: its own contract says only that the loop goes on, that the branch removes at least one token, and that no key is lost. What the branch writes is stated by `BranchSteps.LocksStep`, for every message that starts with the keyword and holds the tokens the branch pops.
- Dispatch.AfterException: its own contract says only that the loop goes on, that the branch removes at least one token, and that no key is lost. What the branch writes is stated by `BranchSteps.ExceptionStep`, for every message that starts with the keyword and holds the tokens the branch pops.
- Dispatch.AfterOther: its own contract says only that the loop goes on, that the branch adds no tokens, and that no key is lost. What the branch writes is stated by `Dispatch.Fallback` and the fallback lemmas in `ParseProperties`.
