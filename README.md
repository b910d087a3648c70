# transcript-parser, modelled in Dafny

This project models the core of willshiao/transcript-parser. That core turns
the plain text of a transcript into a record of who said what. It has two
versions: `lib/parser.js` (the newer one) and `app.js` (the older one that
the tests load).

- **Text to lines.** The text is split into lines on `\r?\n`. Blank
  lines are dropped.
- **Stripping.** Stage directions such as `(APPLAUSE)` are removed from every
  line. Then bracketed annotations are removed, or, when annotations are
  kept, timestamps such as `[20:20:34]`. The newer version then drops the
  lines that stripping emptied.
- **Labels.** A line that starts with a speaker label (`COOPER: ...`) switches
  the current speaker and loses its label. The newer version trims the name
  and silences blacklisted speakers until the next label. Lines before the
  first label belong to the speaker `none`, and both versions can drop them.
- **The record.** Each retained line is pushed onto its speaker's list in the
  output object `speaker`, and the speaker's name onto `order`.
- **Aliases.** `resolveAliasesSync` merges the keys that match an alias's
  patterns into the alias's canonical name. It then rewrites `order` the same
  way.

The model is written in the source's own form:

- The parsers are classes whose `ParseOneSync` methods run the source's loop
  over the lines. They fill a `Records.Record`, a class whose `speaker`,
  `keys` and `order` fields the methods update. Each loop is proved equal to
  a fold (`Parser.Run`, `LegacyParser.Run`) and to a line-by-line reference
  (`Expected`).
- The resolvers are methods with the source's three nested loops (keys,
  aliases, patterns), proved equal to `Resolve.MergeAll` and
  `LegacyResolve.MergeAll`.
- A JavaScript object also orders its keys, by first assignment, and the
  resolvers walk that order. So a speaker object is a map together with its
  key list (`Records.Keyed`).
- Every regular expression of the parser is written out by hand as a scanner
  that tries its alternatives in the order the regex engine does: greedy
  runs longest first, lazy ones shortest first.
- `split(regex).join('')` follows the regex split of ECMAScript 2015,
  RegExp.prototype[@@split] (section 21.2.5.11), which String.prototype.split
  hands a regex separator to. The regex is tried at the head of the text still to be
  scanned, which is the same as trying it at `lastIndex` because no pattern
  looks behind its position.
- Alias patterns are predicates on names.

The modules are:

- `Patterns` (patterns.dfy): the regexes, removal and line splitting, and
  `trim`.
- `Records` (records.dfy): turns, the output object, the record a sequence of
  pushes builds, and the `order` rewrite.
- `Resolve` (resolve.dfy): the newer alias merge.
- `Parser` (parser.dfy): lib/parser.js.
- `LegacyResolve` (legacy_resolve.dfy): the older alias merge, with
  `undefined` values.
- `LegacyParser` (legacy_parser.dfy): app.js.
- `Examples` (examples.dfy): the examples of test/regex.js.
- `Wrappers` (wrappers.dfy): `Option`.

## Model

| member | source | states |
|---|---|---|
| Patterns.RunEnd | lib/parser.js:24 | the greedy run of a character class ends at the first character outside the class; every character before it is in the class |
| Patterns.Field | lib/parser.js:26 | a timestamp field is its opening character followed by one or two digits (2 or 3 characters) |
| Patterns.StampEnd | lib/parser.js:26 | a match of `\[\d{1,2}:\d{1,2}:\d{1,2}\]` runs from a `[` to a `]` and is 7 to 10 characters long |
| Patterns.LazyClose | lib/parser.js:27 | the lazy `.+?\]` of the annotation pattern closes on a `]` at or after the earliest allowed position |
| Patterns.ActionAt | lib/parser.js:24 | a match of `\([A-Z\ ]+\)\ ?` is non-empty and lies inside the text |
| Patterns.StampAt | app.js:27 | a match of the unpadded timestamp pattern is non-empty and lies inside the text |
| Patterns.PaddedStampAt | lib/parser.js:26 | a match of the timestamp pattern with its optional leading space is non-empty and lies inside the text |
| Patterns.AnnotationAt | lib/parser.js:27 | a match of `\[.+?\]\ ?` is non-empty and lies inside the text |
| Patterns.NewLineAt | lib/parser.js:23 | a match of `\r?\n` is non-empty and lies inside the text |
| Patterns.MatchAt | lib/parser.js:23-27 | no pattern of the parser matches the empty string: every match ends after its start and inside the text |
| Patterns.SplitRest | lib/parser.js:324-327 | a split always gives at least one piece |
| Patterns.NoOpenerNoMatch | lib/parser.js:24-27 | a line without `(` has no action in it, and a line without `[` has no annotation or timestamp |
| Patterns.JoinSplitRest | lib/parser.js:324-327 | joining the pieces of a split gives the text with exactly its leftmost non-overlapping matches deleted |
| Patterns.RemoveAllIsErase | lib/parser.js:324-327 | removeAll deletes every leftmost non-overlapping match and keeps everything else in order |
| Patterns.EraseLength | lib/parser.js:324-327 | deleting the matches never lengthens the text, and shortens it whenever the pattern matches somewhere |
| Patterns.EraseWithoutMatch | lib/parser.js:324-327 | a text in which the pattern matches nowhere comes back unchanged |
| Patterns.RemoveAllUnchanged | lib/parser.js:324-327 | removeAll returns its argument unchanged if and only if the pattern matches nowhere in it |
| Patterns.RemoveAllShortens | lib/parser.js:324-327 | removeAll never lengthens a line |
| Patterns.RemoveAllEmpty | lib/parser.js:324-327 | removeAll of the empty string is empty |
| Patterns.SplitLinesHaveNoLineFeed | lib/parser.js:44 | no line that the split on `\r?\n` gives holds a line feed |
| Patterns.SplitLinesCount | lib/parser.js:44 | the split on `\r?\n` gives exactly one line more than the text has line feeds |
| Patterns.ColonTail | lib/parser.js:25 | the colon part of the label, ` ?:\ ?`, consumes at least one character and stays inside the line |
| Patterns.GreedyAside | lib/parser.js:25 | the bracketed aside `\[[A-z\ ]+\]` with the colon after it ends at least three characters past its start and inside the line |
| Patterns.AsideTail | lib/parser.js:25 | the tail after the name (optional aside, then the colon) consumes at least one character and stays inside the line |
| Patterns.GreedyBracket | app.js:26 | the aside ` \[.+\]` with the colon after it, with `.+` backtracking from the end of its run, ends at least three characters past its start and inside the line |
| Patterns.BracketTail | app.js:26 | the tail after the name (optional ` [..]`, then the colon) consumes at least one character and stays inside the line |
| Patterns.LazyName | lib/parser.js:25 | the lazy name grows one character at a time; what it finds is a non-empty prefix of the line, no shorter than what it had taken, with the rest of the match after it and inside the line |
| Patterns.GreedyName | app.js:26 | the greedy name gives back one character at a time; what it finds is a non-empty prefix of the line, longer than its start and no longer than its run, with the rest of the match after it |
| Patterns.NameFrom | lib/parser.js:25 | a name found from position p is a prefix of the line that reaches past p |
| Patterns.NameAfter | lib/parser.js:25 | a name after a timestamp is a prefix of the line that reaches past the timestamp |
| Patterns.StampedLabel | lib/parser.js:25 | a label with a timestamp group exists only when the line starts with a timestamp |
| Patterns.SpeakerLabel | lib/parser.js:25 | group 1 of the speaker pattern is a non-empty prefix of the line, and the whole match ends after it and inside the line |
| Patterns.LabelChars | lib/parser.js:25 | group 1 holds only name characters and the digits, colons and brackets of a timestamp |
| Patterns.AfterLabel | lib/parser.js:73 | replacing the label with '' leaves a proper suffix of the line |
| Patterns.TrimStart | lib/parser.js:71 | drops exactly the leading ECMAScript white space and line terminators |
| Patterns.TrimEnd | lib/parser.js:71 | drops exactly the trailing ECMAScript white space and line terminators |
| Patterns.Trim | lib/parser.js:71 | the trimmed name neither starts nor ends with white space, uses only the name's characters, and is unchanged when already trimmed |
| Records.Without | lib/parser.js:188 | the key list after a deletion holds exactly the other keys |
| Records.WithoutDistinct | lib/parser.js:188 | deleting a key keeps every key listed once |
| Records.WithKeyWellKeyed | lib/parser.js:81 | assigning a key keeps the key list exact: each key once, and every key of the object listed |
| Records.WithoutKeyWellKeyed | lib/parser.js:188 | deleting a key keeps the key list exact |
| Records.CollectOrder | lib/parser.js:85 | `order` has one entry per recorded line, and entry i is the speaker of line i |
| Records.CollectSaid | lib/parser.js:79-85 | the keys are exactly the names in `order`, and each key's list is what that speaker said, in input order |
| Records.CollectKeys | lib/parser.js:79-82 | the object's keys are the speakers in order of their first recorded line, each once |
| Records.PushLines | lib/parser.js:84 | pushing a line adds exactly that line to the record's lines |
| Records.CollectLines | lib/parser.js:79-85 | the record holds exactly the recorded lines, each once, across all speakers |
| Records.CollectMeaning | lib/parser.js:79-85 | the record built by pushing the lines one by one: `order`, the per-speaker lists, the key order and the line count are all fixed by the lines |
| Records.CollectConsistent | lib/parser.js:79-85 | the keys and `order` entries coincide, and the total number of lines equals the length of `order` |
| Records.CanonicalIsFirstMatch | lib/parser.js:197-206 | an `order` entry becomes the first canonical name, in configuration order, with a pattern that matches it, and stays as-is when there is none |
| Records.RewriteOrder | lib/parser.js:197-206 | the rewritten `order` has the same length and maps each entry to its canonical name |
| Records.Record.constructor | lib/parser.js:57-61 | the new output object has no speakers and an empty `order` |
| Records.Record.Set | lib/parser.js:81 | `speaker[name] = v` updates that key, lists a new key last, and leaves `order` alone |
| Records.Record.Remove | lib/parser.js:188 | `delete speaker[name]` removes the key from the object and from its key order, and leaves `order` alone |
| Resolve.Place | lib/parser.js:182 | the merged list holds the lines of both lists |
| Resolve.AbsorbPrepends | lib/parser.js:178-188 | a claimed key is deleted and its lines go in front of the canonical list, which is created from them if missing |
| Resolve.MergeKey | lib/parser.js:175-193 | after all aliases' turns at a key, the key is gone exactly when some alias claims it; no other key is deleted; only canonical names are added |
| Resolve.MergeAll | lib/parser.js:174-194 | the walk over the keys: unclaimed keys stay, claimed keys that are not themselves canonical names go, and only canonical names are added |
| Resolve.MergeKeyWellKeyed | lib/parser.js:175-193 | merging at one key keeps the key list exact |
| Resolve.MergeAllWellKeyed | lib/parser.js:174-194 | the whole merge keeps the key list exact |
| Resolve.MergeKeyOnce | lib/parser.js:175-191 | when only one alias claims a key, merging at the key is that alias's turn alone |
| Resolve.MergeKeyGrows | lib/parser.js:175-193 | merging at a key never removes lines from another key's list |
| Resolve.MergeKeyDelivers | lib/parser.js:176-190 | every alias that claims a key receives the key's lines, however many aliases claim it |
| Resolve.AbsorbConserves | lib/parser.js:178-188 | absorbing a key moves its lines into the canonical list and loses or copies none |
| Resolve.MergeAllConserves | lib/parser.js:174-194 | when no key is claimed by two aliases, the merge neither loses nor duplicates a line |
| Resolve.MergeAllWithoutAliases | lib/parser.js:171 | with no aliases the speaker object is returned unchanged |
| Parser.FilterLine | lib/parser.js:312-322 | filterLine gives null exactly when nothing is left of the stripped line, and otherwise the stripped line, which is no longer than the input |
| Parser.StripShortens | lib/parser.js:46-53 | stripping never lengthens a line |
| Parser.StripUnchanged | lib/parser.js:46-53 | stripping leaves a line unchanged if and only if none of the applied patterns matches anywhere in it |
| Parser.TimestampsOverridden | lib/parser.js:19 | removeTimestamps has no effect while removeAnnotations is set |
| Parser.StripEmpty | lib/parser.js:46-53 | stripping the empty line gives the empty line |
| Parser.NonEmpty | lib/parser.js:45 | the blank-line filter leaves no empty line and never lengthens the list |
| Parser.NonEmptyKeeps | lib/parser.js:45 | the blank-line filter drops only empty lines: every non-empty line is kept exactly as often as it occurs |
| Parser.NonEmptyAppend | lib/parser.js:45 | the filter works line by line, so the kept lines stay in their input order |
| Parser.StripEach | lib/parser.js:46-53 | stripping maps the lines one to one: line i of the result is line i stripped |
| Parser.PrepareIsFiltered | lib/parser.js:44-54 | filtering, stripping and filtering again keeps exactly the lines that filterLine keeps, in order |
| Parser.LabelNeverUnknown | lib/parser.js:64-71 | a trimmed label is never the name `none` |
| Parser.UnknownUntilFirstLabel | lib/parser.js:64-76 | the speaker is `none` exactly until the first labelled line |
| Parser.RunIsExpected | lib/parser.js:68-86 | the loop's speaker and ignore flag are fixed by the last label so far, and the loop records exactly the line-by-line reference |
| Parser.LastNameHolds | lib/parser.js:68-76 | the last label's name stays in force over the unlabelled lines after it |
| Parser.BlacklistedUntilNextLabel | lib/parser.js:75-77 | a blacklisted label drops its own line and every unlabelled line after it |
| Parser.UnknownIgnoresBlacklist | lib/parser.js:64-77 | the lines before the first label are recorded under `none` unless unknown speakers are removed, even when `none` is blacklisted |
| Parser.RunExcludes | lib/parser.js:75-77 | no recorded line belongs to a blacklisted speaker other than `none`, and none to `none` when unknown speakers are removed |
| Parser.RunBound | lib/parser.js:68-86 | no more lines are recorded than there are prepared lines |
| Parser.ParsedRecord | lib/parser.js:43-88 | parseOneSync's record: keys and `order` coincide, the line count equals `order`'s length, `order[i]` is the i-th recorded line's speaker, each list is its speaker's lines in input order, no blacklisted name other than `none` is a key, and `none` is no key when unknown speakers are removed |
| Parser.RecordOf | lib/parser.js:79-85 | the record of lines with no blacklisted or removed unknown speaker has none of those as a key |
| Parser.StreamStepAgrees | lib/parser.js:284-304 | without a blacklist, the stream parser's per-line step does what one step of parseOneSync's loop does |
| Parser.StreamAgreesWithoutBlacklist | lib/parser.js:284-304 | without a blacklist, the stream parser records what parseOneSync records for the same lines |
| Parser.GuardedStreamAgrees | lib/parser.js:284-304 | a stream step that carries the ignore flag records what parseOneSync records, whatever the settings |
| Parser.StreamIgnoresBlacklist | lib/parser.js:284-291 | with `BOB` blacklisted, the stream parser still records `BOB: hi`, which parseOneSync drops |
| Parser.LabelOnlyLineRecorded | lib/parser.js:54-84 | under the default settings, the line `BOB:` survives both blank-line filters and is recorded as `BOB` saying `''` |
| Parser.TranscriptParser.constructor | lib/parser.js:14-33 | the parser keeps the settings it is given |
| Parser.TranscriptParser.ParseOneSync | lib/parser.js:43-88 | the loop fills a fresh, well-keyed output object with exactly the record of the lines the fold retains |
| Parser.TranscriptParser.ResolveAliasesSync | lib/parser.js:169-209 | returns the same object, whose speakers are merged as `Resolve.MergeAll` with lines in front and whose `order` is rewritten entry by entry |
| Parser.MergeName | lib/parser.js:175-193 | the alias loop for one key updates the object as `Resolve.MergeKey` with the lines read at the visit |
| Parser.AbsorbInto | lib/parser.js:176-191 | the pattern loop of one alias merges and deletes on the first pattern that matches a name other than the alias, and then stops |
| Parser.PushTurn | lib/parser.js:79-85 | recording a line creates the speaker's key if needed, pushes the text and appends the name to `order` |
| Parser.RewriteWithoutAliases | lib/parser.js:197-206 | with no aliases the `order` rewrite changes nothing |
| LegacyResolve.MergeKey | app.js:154-170 | after all aliases' turns at a key, a key that any pattern matches is gone, its own canonical name included; no other key is deleted |
| LegacyResolve.MergeAllWithoutAliases | app.js:150 | with no aliases the speaker object is returned unchanged |
| LegacyResolve.AbsorbAppends | app.js:161-166 | a matching key's lines go behind the canonical list, and the key is deleted |
| LegacyResolve.AbsorbLifted | app.js:155-168 | one alias's turn at a key other than its canonical name is the newer turn with the lines placed behind |
| LegacyResolve.MergeKeyLifted | app.js:154-170 | at a key claimed at most once and not by its own canonical name, the older merge is the newer one with lines placed behind |
| LegacyResolve.MergeAllLifted | app.js:153-171 | under the same condition for every key, the whole older walk is the newer walk with lines placed behind |
| LegacyResolve.SelfMatchLosesLines | app.js:158-166 | with the single alias `TRUMP: [/TRUMP/]` and speakers `{TRUMP: ['x']}`, the merge deletes `TRUMP` and its line, leaving no speakers |
| LegacyResolve.SelfMatchKeptWhenGuarded | lib/parser.js:178 | on that input, the merge guarded as lib/parser.js:178 is (a name is never absorbed by its own alias) leaves `TRUMP` and its line alone |
| LegacyResolve.SecondClaimGetsUndefined | app.js:161-167 | with aliases `A: [/X/]` and `B: [/X/]` and speakers `{X: ['x']}`, `A` receives `['x']` and `B` the value `undefined` |
| LegacyParser.StripUnchanged | app.js:42-49 | stripping never lengthens a line, and leaves it unchanged if and only if none of the applied patterns matches in it |
| LegacyParser.StripEach | app.js:42-49 | each line is stripped on its own, one to one |
| LegacyParser.RunIsExpected | app.js:61-81 | the loop's speaker is the last label so far, and the loop records exactly the line-by-line reference |
| LegacyParser.LabelNeverUnknown | app.js:59-66 | group 1 is never the name `none` |
| LegacyParser.UnknownUntilFirstLabel | app.js:59-66 | the speaker is `none` exactly until the first labelled line |
| LegacyParser.KeepsEveryLine | app.js:61-81 | without removeUnknownSpeakers every prepared line is recorded, emptied lines included, under the untrimmed last label so far and without its own label |
| LegacyParser.RecordedIffLabelled | app.js:69-80 | with removeUnknownSpeakers a line is dropped exactly when no label comes at or before it |
| LegacyParser.ParsedRecord | app.js:39-83 | parseOneSync's record: keys and `order` coincide, the line count equals `order`'s length, `order[i]` is the i-th recorded line's speaker, each list is its speaker's lines in input order, no removed `none` is a key |
| LegacyParser.NoUnknownTurn | app.js:76 | with removeUnknownSpeakers no recorded line belongs to `none` |
| LegacyParser.TranscriptParser.constructor | app.js:13-31 | the parser keeps the settings it is given |
| LegacyParser.TranscriptParser.ParseOneSync | app.js:39-83 | the loop fills a fresh, well-keyed output object with exactly the record of the lines the fold retains |
| LegacyParser.TranscriptParser.ResolveAliasesSync | app.js:148-186 | returns the same object, whose speakers are merged as `LegacyResolve.MergeAll` and whose `order` is rewritten entry by entry |
| LegacyParser.MergeSpeaker | app.js:154-170 | the alias loop for one key updates the object as `LegacyResolve.MergeKey` |
| LegacyParser.AbsorbSpeaker | app.js:155-168 | the first matching pattern of an alias merges the key's current value behind the canonical value and deletes the key, then `break` |
| Examples.NewLineSplit | test/regex.js:20-23 | `'a\nb\r\nc'` splits into `a`, `b`, `c` |
| Examples.ActionSplit | test/regex.js:26-30 | the line with three stage directions splits into `'The '`, `'chicken '`, `'crossed '`, `''` |
| Examples.AnnotationRemoved | test/regex.js:47-49 | both annotations and the space after each are removed |
| Examples.AnnotationOfAnyCaseRemoved | test/regex.js:51-53 | the same for annotations with capitals, digits and `#` |
| Examples.TimestampKeepsSpace | test/regex.js:57-61 | with app.js:27's pattern the timestamped line becomes `'BERMAN: The...'`, not the `'BERMAN:The...'` the test expects |
| Examples.PaddedTimestampRemoved | lib/parser.js:26 | with the padded pattern the same line becomes `'BERMAN:The...'` |
| Examples.CooperGreedyLabel | test/regex.js:34-36 | app.js's speaker pattern labels `'COOPER:  How though?'` as `COOPER` |
| Examples.CooperLazyLabel | lib/parser.js:25 | the lazy pattern labels the same line as `COOPER` |
| Examples.JoAnnLabel | test/regex.js:38-40 | the greedy name takes the dash and the parenthesised title |
| Examples.CoreyLabel | test/regex.js:41-42 | the greedy name gives back its last space so that ` [to Trump]:` matches, and the aside is not part of the name |

## Left out

- The asynchronous `parseOne` and `resolveAliases` of both files. They are promise and callback plumbing around the same steps as the sync versions. Their order of fan-out under `Promise.all` is not modelled, nor their error paths.
- `parseStream` (lib/parser.js:268-308) without its per-line step: the `byline` stream, the `readable` events and the final callback. The step is modelled on lines that have already been read.
- The `toString` conversion of Buffer lines in `filterLine` (lib/parser.js:313). Lines are strings in the model.
- Option merging with lodash's `_.assign`, including a caller's replacement regexes. Settings are a plain record, and the model always uses the default patterns.
- Alias patterns are predicates on names. The state that `test` keeps in `lastIndex` for a global regex is not modelled, so `test` and `search` agree.
- JavaScript lists integer-like keys (such as a speaker named `2016`) first, in numeric order. The key order here is plain first-assignment order.
- A key that app.js's `for..in` adds during the walk is not visited. Engines behave this way, though ECMAScript leaves it open.
- Strings are sequences of Unicode characters, not UTF-16 code units. `.` and `trim` are modelled on characters.
- test/parser.js checks the asynchronous `parseOne`, and reads a transcript file. It is not part of this model.
- benchmark/benchmark.js (file reading and timing) is not part of this model.
- Examples.AnnotationRemoved: the text after the last annotation is an arbitrary `w` with no `[`, rather than only the test's `'not...'`. The same goes for the other examples: each tail is any text meeting a stated condition.
- Patterns.MatchAt, Patterns.StampEnd, Patterns.LazyClose, Patterns.ActionAt, Patterns.StampAt, Patterns.PaddedStampAt, Patterns.AnnotationAt, Patterns.NewLineAt, Patterns.ColonTail, Patterns.GreedyAside, Patterns.AsideTail, Patterns.GreedyBracket, Patterns.BracketTail, Patterns.LazyName, Patterns.GreedyName, Patterns.NameFrom, Patterns.NameAfter, Patterns.StampedLabel, Patterns.SpeakerLabel: their contracts state only bounds. What each pattern matches is the scanner's definition, checked against the test examples in `Examples`.
- Parser.LabelOnlyLineRecorded: shown for the line `BOB:` under the default settings only. A label-only line whose name is blacklisted is not recorded (lib/parser.js:75-77).
- LegacyResolve.SelfMatchLosesLines: shown for one input. When an earlier alias also matches the name, app.js:158-166 moves its lines to that alias first, so the lines survive there.
- LegacyResolve.SelfMatchKeptWhenGuarded: shown for one input. The guard of lib/parser.js:178 only keeps a name from its own alias; another alias that matches it still takes it.
- LegacyResolve.SecondClaimGetsUndefined: shown for one input. When the second canonical name already has a list, app.js:161-162 appends an `undefined` element to it instead.
- The parameters are typed, so the TypeErrors of the source are not modelled: `transcript.split` on a value that is not a string (lib/parser.js:44, app.js:40), and reading `data.speaker` of `null` when aliases are configured (lib/parser.js:171-173, app.js:150-152). With no aliases, `null` is returned unchanged, which the model does not represent either.

## Findings

| source | as written | input that shows it | evidently intended | confidence | as-written member | corrected member |
|---|---|---|---|---|---|---|
| app.js:27 | the timestamp pattern has no optional leading space, so the space before a timestamp stays | `'[20:20:34] BERMAN: [2:1:41] The...'` becomes `'BERMAN: The...'`, and test/regex.js:60 expects `'BERMAN:The...'` | the pattern of lib/parser.js:26, with the leading `\ ?` | high, not executed | Examples.TimestampKeepsSpace | Examples.PaddedTimestampRemoved |
| app.js:158 | there is no check that the key differs from the canonical name, so a name matching its own pattern is deleted | aliases `{TRUMP: [/TRUMP/]}`, speakers `{TRUMP: ['x']}`: the result has no speakers | leave a canonical name alone, as lib/parser.js:178 does | high, not executed | LegacyResolve.SelfMatchLosesLines | LegacyResolve.SelfMatchKeptWhenGuarded |
| app.js:161-164 | the speaker's list is read again after the first alias deleted it | aliases `{A: [/X/], B: [/X/]}`, speakers `{X: ['x']}`: `B` becomes `undefined` | no alias receives `undefined`; the correction modelled is lib/parser.js:174-186's, where every claiming alias receives the lines read at the visit (letting only the first claim win would fix it equally) | medium, not executed | LegacyResolve.SecondClaimGetsUndefined | Resolve.MergeKeyDelivers |
| lib/parser.js:284-304 | the stream parser never consults the blacklist | blacklist `['BOB']`, the line `'BOB: hi'`: the stream records it, and parseOneSync drops it | carry the ignore flag as parseOneSync does (lib/parser.js:75-77) | medium, not executed | Parser.StreamIgnoresBlacklist | Parser.GuardedStreamAgrees |
