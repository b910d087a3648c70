/**
 * lib/parser.js, the newer transcript parser: the settings, the line
 * filters, the synchronous parser, the per-line step of the stream parser,
 * and the synchronous alias resolver.
 */
module Parser {
  import opened Wrappers
  import opened Patterns
  import opened Records
  import Resolve

  /**
   * The settings the parser reads (lib/parser.js:16-30).  The regex set is
   * always the default one, and an alias configuration is a list of
   * canonical names in the order of the configuration object's keys.
   */
  datatype Settings = Settings(
    removeActions: bool,
    removeAnnotations: bool,
    removeTimestamps: bool,
    removeUnknownSpeakers: bool,
    aliases: seq<Alias>,
    blacklist: seq<string>)

  const Defaults := Settings(true, true, true, false, [], [])

  /** The speaker of the lines before the first label (lib/parser.js:64). */
  const Unknown := "none"

  /* ---------------------------------------------------------------- stripping */

  /**
   * The pattern removed after the actions: annotations when they are removed,
   * else timestamps when they are; never both (lib/parser.js:47-53, 315-319).
   */
  function LaterPattern(settings: Settings): Option<Pattern> {
    if settings.removeAnnotations then Some(Annotation)
    else if settings.removeTimestamps then Some(PaddedTimestamp)
    else None
  }

  /** The removals applied to each line: actions first, then the later pattern (lib/parser.js:46-53, 314-319). */
  function Strip(settings: Settings, line: string): string {
    var a := if settings.removeActions then RemoveAll(Action, line) else line;
    match LaterPattern(settings)
    case Some(p) => RemoveAll(p, a)
    case None => a
  }

  /** `filterLine` (lib/parser.js:312-322): null exactly when nothing is left of the line. */
  function FilterLine(settings: Settings, line: string): (r: Option<string>)
    ensures r.None? <==> Strip(settings, line) == ""
    ensures r.Some? ==> r.value == Strip(settings, line) && 0 < |r.value| <= |line|
  {
    var l := Strip(settings, line);
    StripShortens(settings, line);
    if |l| <= 0 then None else Some(l)
  }

  lemma StripShortens(settings: Settings, line: string)
    ensures |Strip(settings, line)| <= |line|
  {
    var a := if settings.removeActions then RemoveAll(Action, line) else line;
    if settings.removeActions {
      RemoveAllShortens(Action, line);
    }
    if LaterPattern(settings).Some? {
      RemoveAllShortens(LaterPattern(settings).value, a);
    }
  }

  /** The patterns Strip applies match nowhere in the line. */
  predicate Clean(settings: Settings, line: string) {
    && (settings.removeActions ==> NoMatch(Action, line))
    && (LaterPattern(settings).Some? ==> NoMatch(LaterPattern(settings).value, line))
  }

  /** A line is left as it is exactly when none of the applied patterns matches in it. */
  lemma StripUnchanged(settings: Settings, line: string)
    ensures Strip(settings, line) == line <==> Clean(settings, line)
  {
    var a := if settings.removeActions then RemoveAll(Action, line) else line;
    if settings.removeActions {
      RemoveAllUnchanged(Action, line);
      RemoveAllShortens(Action, line);
      RemoveAllIsErase(Action, line);
      EraseLength(Action, line);
    }
    if LaterPattern(settings).Some? {
      var p := LaterPattern(settings).value;
      RemoveAllUnchanged(p, a);
      RemoveAllShortens(p, a);
      RemoveAllIsErase(p, a);
      EraseLength(p, a);
      if settings.removeActions && a != line {
        assert |a| < |line|;
      }
    }
  }

  /** removeTimestamps has no effect while removeAnnotations is set (lib/parser.js:19). */
  lemma TimestampsOverridden(settings: Settings, line: string)
    requires settings.removeAnnotations
    ensures Strip(settings, line) == Strip(settings.(removeTimestamps := !settings.removeTimestamps), line)
  {
  }

  lemma StripEmpty(settings: Settings)
    ensures Strip(settings, "") == ""
  {
    StripShortens(settings, "");
  }

  /* ---------------------------------------------------------------- preparing the lines */

  /** `.filter(line => line.length > 0)` */
  function NonEmpty(ls: seq<string>): (r: seq<string>)
    ensures |r| <= |ls|
    ensures forall l <- r :: |l| > 0
  {
    if ls == [] then []
    else NonEmpty(ls[..|ls| - 1]) + (if |ls[|ls| - 1]| > 0 then [ls[|ls| - 1]] else [])
  }

  /** The filter drops the empty lines and only those: every other line is kept as often as it occurs. */
  lemma NonEmptyKeeps(ls: seq<string>)
    ensures forall x :: |x| > 0 ==> multiset(NonEmpty(ls))[x] == multiset(ls)[x]
  {
    forall x | |x| > 0 ensures multiset(NonEmpty(ls))[x] == multiset(ls)[x] {
      NonEmptyCount(ls, x);
    }
  }

  lemma {:induction false} NonEmptyCount(ls: seq<string>, x: string)
    requires |x| > 0
    ensures multiset(NonEmpty(ls))[x] == multiset(ls)[x]
  {
    if ls != [] {
      var n := |ls| - 1;
      var init := ls[..n];
      NonEmptyCount(init, x);
      assert ls == init + [ls[n]];
    }
  }

  /** The filter works line by line, so it keeps the order of the lines it keeps. */
  lemma {:induction false} NonEmptyAppend(a: seq<string>, b: seq<string>)
    ensures NonEmpty(a + b) == NonEmpty(a) + NonEmpty(b)
    decreases |b|
  {
    if b != [] {
      var n := |b| - 1;
      assert (a + b)[..|a + b| - 1] == a + b[..n];
      assert (a + b)[|a + b| - 1] == b[n];
      NonEmptyAppend(a, b[..n]);
    } else {
      assert a + b == a;
    }
  }

  /** `.map(line => removeAll(...))`, one map per removal */
  function StripEach(settings: Settings, ls: seq<string>): (r: seq<string>)
    ensures |r| == |ls|
    ensures forall i :: 0 <= i < |ls| ==> r[i] == Strip(settings, ls[i])
  {
    if ls == [] then [] else StripEach(settings, ls[..|ls| - 1]) + [Strip(settings, ls[|ls| - 1])]
  }

  /** The lines parseOneSync walks, from the pieces of the transcript (lib/parser.js:44-54). */
  function PrepareLines(settings: Settings, pieces: seq<string>): seq<string> {
    NonEmpty(StripEach(settings, NonEmpty(pieces)))
  }

  function Prepare(settings: Settings, transcript: string): seq<string> {
    PrepareLines(settings, Split(NewLine, transcript))
  }

  /** The lines filterLine keeps, in order. */
  function Filtered(settings: Settings, pieces: seq<string>): seq<string> {
    if pieces == [] then []
    else
      var f := FilterLine(settings, pieces[|pieces| - 1]);
      Filtered(settings, pieces[..|pieces| - 1]) + (if f.Some? then [f.value] else [])
  }

  /** Filtering before and after stripping keeps exactly the lines filterLine keeps: blank lines and lines that strip to nothing go. */
  lemma {:induction false} PrepareIsFiltered(settings: Settings, pieces: seq<string>)
    ensures PrepareLines(settings, pieces) == Filtered(settings, pieces)
  {
    if pieces != [] {
      var init, last := pieces[..|pieces| - 1], pieces[|pieces| - 1];
      PrepareIsFiltered(settings, init);
      var n0 := NonEmpty(init);
      if |last| > 0 {
        assert NonEmpty(pieces) == n0 + [last];
        assert (n0 + [last])[..|n0|] == n0;
        assert StripEach(settings, n0 + [last]) == StripEach(settings, n0) + [Strip(settings, last)];
        var s0 := StripEach(settings, n0);
        assert (s0 + [Strip(settings, last)])[..|s0|] == s0;
      } else {
        assert last == "";
        StripEmpty(settings);
        assert NonEmpty(pieces) == n0;
      }
    }
  }

  /* ---------------------------------------------------------------- attributing lines */

  /** The loop's state: the current speaker and whether it is blacklisted (lib/parser.js:64-66). */
  datatype Cursor = Cursor(speaker: string, ignore: bool)

  const Start := Cursor(Unknown, false)

  /** A labelled line switches the speaker to the trimmed name and loses its label (lib/parser.js:69-76). */
  function Relabel(settings: Settings, c: Cursor, line: string): (Cursor, string) {
    match SpeakerLabel(Lazy, line)
    case Some(l) =>
      var name := Trim(l.name);
      (Cursor(name, name in settings.blacklist), AfterLabel(line, l))
    case None => (c, line)
  }

  /** The line is dropped: its speaker is blacklisted, or unknown while unknown speakers are removed (lib/parser.js:77). */
  predicate Skips(settings: Settings, c: Cursor) {
    c.ignore || (c.speaker == Unknown && settings.removeUnknownSpeakers)
  }

  /** The loop of lib/parser.js:68-86 over the prepared lines: the final cursor and the retained lines. */
  function Run(settings: Settings, lines: seq<string>): (Cursor, seq<Turn>) {
    if lines == [] then (Start, [])
    else
      var before := Run(settings, lines[..|lines| - 1]);
      var next := Relabel(settings, before.0, lines[|lines| - 1]);
      (next.0, if Skips(settings, next.0) then before.1 else before.1 + [Turn(next.0.speaker, next.1)])
  }

  /** The turns parseOneSync records for a transcript. */
  function Turns(settings: Settings, transcript: string): seq<Turn> {
    Run(settings, Prepare(settings, transcript)).1
  }

  /* reference: each line's speaker is fixed by the last label at or before it */

  /** The trimmed name of the last labelled line, if any. */
  function LastName(lines: seq<string>): Option<string> {
    if lines == [] then None
    else match SpeakerLabel(Lazy, lines[|lines| - 1])
      case Some(l) => Some(Trim(l.name))
      case None => LastName(lines[..|lines| - 1])
  }

  /** The speaker of the last of the lines. */
  function SpeakerOf(lines: seq<string>): string {
    match LastName(lines)
    case Some(n) => n
    case None => Unknown
  }

  /** The last of the lines is recorded: no blacklisted label governs it, and it is not an unknown speaker's line that is to go. */
  predicate Attributed(settings: Settings, lines: seq<string>) {
    && !(LastName(lines).Some? && LastName(lines).value in settings.blacklist)
    && !(SpeakerOf(lines) == Unknown && settings.removeUnknownSpeakers)
  }

  /** What is left of a line once its label, if it has one, is removed. */
  function Text(line: string): string {
    match SpeakerLabel(Lazy, line)
    case Some(l) => AfterLabel(line, l)
    case None => line
  }

  /** The recorded lines, line by line: each attributed line with its speaker and its text. */
  function Expected(settings: Settings, lines: seq<string>): seq<Turn> {
    if lines == [] then []
    else
      Expected(settings, lines[..|lines| - 1])
      + (if Attributed(settings, lines) then [Turn(SpeakerOf(lines), Text(lines[|lines| - 1]))] else [])
  }

  /** A trimmed label is never the unknown speaker's name: `n` is not a label character. */
  lemma LabelNeverUnknown(style: LabelStyle, line: string)
    requires SpeakerLabel(style, line).Some?
    ensures Trim(SpeakerLabel(style, line).value.name) != Unknown
  {
    LabelChars(style, line);
    NotUnknown(SpeakerLabel(style, line).value.name);
  }

  lemma NotUnknown(name: string)
    requires forall c <- name :: LabelChar(c)
    ensures Trim(name) != Unknown
  {
    assert !LabelChar('n');
    assert 'n' !in Trim(name);
    assert Unknown[0] == 'n' && Unknown[0] in Unknown;
  }

  /** The speaker is the unknown one exactly until the first label. */
  lemma {:induction false} UnknownUntilFirstLabel(lines: seq<string>)
    ensures SpeakerOf(lines) == Unknown <==> LastName(lines).None?
  {
    if lines != [] {
      var last := lines[|lines| - 1];
      if SpeakerLabel(Lazy, last).Some? {
        LabelNeverUnknown(Lazy, last);
      } else {
        UnknownUntilFirstLabel(lines[..|lines| - 1]);
      }
    }
  }

  /** The loop's cursor is fixed by the last label, and the loop records exactly the expected turns. */
  lemma {:induction false} RunIsExpected(settings: Settings, lines: seq<string>)
    ensures Run(settings, lines).0 == Cursor(SpeakerOf(lines), LastName(lines).Some? && LastName(lines).value in settings.blacklist)
    ensures Run(settings, lines).1 == Expected(settings, lines)
  {
    if lines != [] {
      RunIsExpected(settings, lines[..|lines| - 1]);
    }
  }

  /** The last label's name stays in force over the unlabelled lines that follow it. */
  lemma {:induction false} LastNameHolds(lines: seq<string>, i: nat, j: nat, name: string)
    requires i <= j < |lines| && LastName(lines[..i + 1]) == Some(name)
    requires forall k {:trigger SpeakerLabel(Lazy, lines[k])} :: i < k <= j ==> SpeakerLabel(Lazy, lines[k]).None?
    ensures LastName(lines[..j + 1]) == Some(name)
    decreases j
  {
    if j > i {
      LastNameSkip(lines, j);
      LastNameHolds(lines, i, j - 1, name);
      assert lines[..j - 1 + 1] == lines[..j];
      assert LastName(lines[..j + 1]) == Some(name);
    } else {
      assert lines[..j + 1] == lines[..i + 1];
    }
  }

  /** An unlabelled line leaves the last name as it was. */
  lemma LastNameSkip(lines: seq<string>, j: nat)
    requires j < |lines| && SpeakerLabel(Lazy, lines[j]).None?
    ensures LastName(lines[..j + 1]) == LastName(lines[..j])
  {
    LastNameSnoc(lines, j);
  }

  lemma LastNameSnoc(lines: seq<string>, j: nat)
    requires j < |lines|
    ensures LastName(lines[..j + 1]) == if SpeakerLabel(Lazy, lines[j]).Some? then Some(Trim(SpeakerLabel(Lazy, lines[j]).value.name)) else LastName(lines[..j])
  {
    var p := lines[..j + 1];
    assert p[..|p| - 1] == lines[..j];
    assert p[|p| - 1] == lines[j];
  }

  /** A blacklisted label drops its own line and every unlabelled line after it (lib/parser.js:75, 77). */
  lemma BlacklistedUntilNextLabel(settings: Settings, lines: seq<string>, i: nat, j: nat)
    requires i <= j < |lines| && SpeakerLabel(Lazy, lines[i]).Some?
    requires Trim(SpeakerLabel(Lazy, lines[i]).value.name) in settings.blacklist
    requires forall k :: i < k <= j ==> SpeakerLabel(Lazy, lines[k]).None?
    ensures !Attributed(settings, lines[..j + 1])
  {
    LastNameSnoc(lines, i);
    LastNameHolds(lines, i, j, Trim(SpeakerLabel(Lazy, lines[i]).value.name));
  }

  /**
   * The blacklist does not reach the lines before the first label: `ignore`
   * is set only on a labelled line (lib/parser.js:66, 75), so a blacklisted
   * `none` is still recorded unless unknown speakers are removed.
   */
  lemma UnknownIgnoresBlacklist(settings: Settings, lines: seq<string>)
    requires LastName(lines).None? && !settings.removeUnknownSpeakers
    ensures Attributed(settings, lines) && SpeakerOf(lines) == Unknown
  {
  }

  /**
   * No recorded line belongs to a blacklisted speaker other than the unknown
   * one, and none to the unknown speaker when unknown speakers are removed.
   */
  lemma {:induction false} RunExcludes(settings: Settings, lines: seq<string>)
    ensures var c := Run(settings, lines).0; c == Start || c.ignore == (c.speaker in settings.blacklist)
    ensures forall t <- Run(settings, lines).1 :: t.speaker in settings.blacklist ==> t.speaker == Unknown
    ensures settings.removeUnknownSpeakers ==> forall t <- Run(settings, lines).1 :: t.speaker != Unknown
  {
    if lines != [] {
      RunExcludes(settings, lines[..|lines| - 1]);
    }
  }

  /** Every recorded line comes from a prepared line, and prepared lines are never empty (lib/parser.js:45, 54). */
  lemma {:induction false} RunBound(settings: Settings, lines: seq<string>)
    ensures |Run(settings, lines).1| <= |lines|
  {
    if lines != [] {
      RunBound(settings, lines[..|lines| - 1]);
    }
  }

  /**
   * The record parseOneSync returns: `order` lists the speaker of every
   * recorded line, each key holds that speaker's lines in input order, keys
   * and order entries coincide, the line count matches `order`, and no
   * blacklisted or removed unknown speaker is a key.
   */
  lemma ParsedRecord(settings: Settings, transcript: string)
    ensures var ts := Turns(settings, transcript); var d := Collect(ts);
      && Consistent(d)
      && |d.order| == |ts| && (forall i :: 0 <= i < |ts| ==> d.order[i] == ts[i].speaker)
      && (forall n :: n in d.speaker ==> d.speaker[n] == Said(ts, n))
      && (forall n :: n in d.speaker && n in settings.blacklist ==> n == Unknown)
      && (settings.removeUnknownSpeakers ==> Unknown !in d.speaker)
  {
    var lines := Prepare(settings, transcript);
    RunExcludes(settings, lines);
    RecordOf(settings, Run(settings, lines).1);
  }

  /** The record collected from turns that no blacklisted or removed unknown speaker holds. */
  lemma RecordOf(settings: Settings, ts: seq<Turn>)
    requires forall t <- ts :: t.speaker in settings.blacklist ==> t.speaker == Unknown
    requires settings.removeUnknownSpeakers ==> forall t <- ts :: t.speaker != Unknown
    ensures var d := Collect(ts);
      && Consistent(d)
      && |d.order| == |ts| && (forall i :: 0 <= i < |ts| ==> d.order[i] == ts[i].speaker)
      && (forall n :: n in d.speaker ==> d.speaker[n] == Said(ts, n))
      && (forall n :: n in d.speaker && n in settings.blacklist ==> n == Unknown)
      && (settings.removeUnknownSpeakers ==> Unknown !in d.speaker)
  {
    var d := Collect(ts);
    CollectMeaning(ts);
    CollectConsistent(ts);
    forall n | n in d.speaker
      ensures n in settings.blacklist ==> n == Unknown
      ensures settings.removeUnknownSpeakers ==> n != Unknown
    {
      assert n in d.order;
      var i :| 0 <= i < |d.order| && d.order[i] == n;
      assert ts[i] in ts && ts[i].speaker == n;
    }
  }

  /* ---------------------------------------------------------------- the stream parser's step */

  /**
   * The per-line body of parseStream (lib/parser.js:284-304): like the loop
   * of parseOneSync, but only the speaker is carried from line to line and
   * the blacklist is not consulted.
   */
  function StreamStep(settings: Settings, speaker: string, raw: string): (string, Option<Turn>) {
    match FilterLine(settings, raw)
    case None => (speaker, None)
    case Some(line) =>
      var next := match SpeakerLabel(Lazy, line)
        case Some(l) => (Trim(l.name), AfterLabel(line, l))
        case None => (speaker, line);
      (next.0, if next.0 == Unknown && settings.removeUnknownSpeakers then None else Some(Turn(next.0, next.1)))
  }

  /** The stream parser over the lines it reads, in order. */
  function StreamRun(settings: Settings, raws: seq<string>): (string, seq<Turn>) {
    if raws == [] then (Unknown, [])
    else
      var before := StreamRun(settings, raws[..|raws| - 1]);
      var step := StreamStep(settings, before.0, raws[|raws| - 1]);
      (step.0, before.1 + (if step.1.Some? then [step.1.value] else []))
  }

  /** One line of the stream parser against one step of parseOneSync's loop, without a blacklist. */
  lemma StreamStepAgrees(settings: Settings, c: Cursor, raw: string)
    requires settings.blacklist == [] && !c.ignore
    ensures var s := StreamStep(settings, c.speaker, raw); var g := FilterLine(settings, raw);
      && (g.None? ==> s == (c.speaker, None))
      && (g.Some? ==> var n := Relabel(settings, c, g.value);
            && s.0 == n.0.speaker && !n.0.ignore
            && s.1 == (if Skips(settings, n.0) then None else Some(Turn(n.0.speaker, n.1))))
  {
  }

  /** Without a blacklist the stream parser records what parseOneSync records for the same lines. */
  lemma {:induction false} StreamAgreesWithoutBlacklist(settings: Settings, raws: seq<string>)
    requires settings.blacklist == []
    ensures StreamRun(settings, raws).0 == Run(settings, Filtered(settings, raws)).0.speaker
    ensures !Run(settings, Filtered(settings, raws)).0.ignore
    ensures StreamRun(settings, raws).1 == Run(settings, PrepareLines(settings, raws)).1
  {
    PrepareIsFiltered(settings, raws);
    if raws != [] {
      var init, last := raws[..|raws| - 1], raws[|raws| - 1];
      StreamAgreesWithoutBlacklist(settings, init);
      PrepareIsFiltered(settings, init);
      var f := Filtered(settings, init);
      var c := Run(settings, f);
      StreamStepAgrees(settings, c.0, last);
      if FilterLine(settings, last).Some? {
        var f' := f + [FilterLine(settings, last).value];
        assert Filtered(settings, raws) == f';
        assert f'[..|f'| - 1] == f;
      } else {
        assert Filtered(settings, raws) == f;
      }
    }
  }

  /** The stream step with the whole cursor carried, so that a blacklisted label silences its lines as in parseOneSync. */
  function GuardedStreamStep(settings: Settings, c: Cursor, raw: string): (Cursor, Option<Turn>) {
    match FilterLine(settings, raw)
    case None => (c, None)
    case Some(line) =>
      var next := Relabel(settings, c, line);
      (next.0, if Skips(settings, next.0) then None else Some(Turn(next.0.speaker, next.1)))
  }

  function GuardedStreamRun(settings: Settings, raws: seq<string>): (Cursor, seq<Turn>) {
    if raws == [] then (Start, [])
    else
      var before := GuardedStreamRun(settings, raws[..|raws| - 1]);
      var step := GuardedStreamStep(settings, before.0, raws[|raws| - 1]);
      (step.0, before.1 + (if step.1.Some? then [step.1.value] else []))
  }

  /** With the cursor carried, the stream parser records what parseOneSync records, whatever the settings. */
  lemma {:induction false} GuardedStreamAgrees(settings: Settings, raws: seq<string>)
    ensures GuardedStreamRun(settings, raws) == Run(settings, Filtered(settings, raws))
    ensures GuardedStreamRun(settings, raws).1 == Run(settings, PrepareLines(settings, raws)).1
  {
    PrepareIsFiltered(settings, raws);
    if raws != [] {
      var init, last := raws[..|raws| - 1], raws[|raws| - 1];
      GuardedStreamAgrees(settings, init);
      GuardedStepAgrees(settings, Filtered(settings, init), last);
    }
  }

  lemma GuardedStepAgrees(settings: Settings, f: seq<string>, raw: string)
    ensures var step := GuardedStreamStep(settings, Run(settings, f).0, raw); var g := FilterLine(settings, raw);
      Run(settings, f + (if g.Some? then [g.value] else [])) == (step.0, Run(settings, f).1 + (if step.1.Some? then [step.1.value] else []))
  {
    var g := FilterLine(settings, raw);
    var before := Run(settings, f);
    if g.Some? {
      RunAppend(settings, f, g.value);
    } else {
      assert f + [] == f;
      assert before.1 + [] == before.1;
    }
  }

  lemma BobText()
    ensures Trim("BOB") == "BOB" && AfterLabel("BOB: hi", Label("BOB", 5)) == "hi"
    ensures AfterLabel("BOB:", Label("BOB", 4)) == ""
  {
    assert !IsJsSpace('B');
    assert "BOB: hi"[..3] == "BOB" && "BOB:"[..3] == "BOB";
    assert "BOB: hi"[5..] == "hi";
  }

  lemma BobLabel()
    ensures SpeakerLabel(Lazy, "BOB: hi") == Some(Label("BOB", 5))
  {
    var line := "BOB: hi";
    assert StampEnd(line, 0).None?;
    assert AsideTail(line, 1).None?;
    assert AsideTail(line, 2).None?;
    assert AsideTail(line, 3) == Some(5);
    assert line[..3] == "BOB";
    assert LazyName(line, 0, 3) == Some(Label("BOB", 5));
    assert LazyName(line, 0, 1) == LazyName(line, 0, 2) == LazyName(line, 0, 3);
  }

  /** A blacklisted speaker's line: parseOneSync drops it, the stream parser emits it. */
  lemma StreamIgnoresBlacklist()
    ensures var settings := Defaults.(blacklist := ["BOB"]);
      && StreamRun(settings, ["BOB: hi"]).1 == [Turn("BOB", "hi")]
      && Run(settings, PrepareLines(settings, ["BOB: hi"])).1 == []
  {
    var settings := Defaults.(blacklist := ["BOB"]);
    var line := "BOB: hi";
    NoOpenerNoMatch(Action, line);
    NoOpenerNoMatch(Annotation, line);
    StripUnchanged(settings, line);
    assert FilterLine(settings, line) == Some(line);
    BobLabel();
    BobText();
    assert Filtered(settings, [line]) == [line];
    PrepareIsFiltered(settings, [line]);
    assert Run(settings, [line]).1 == [];
  }

  lemma BobColonLabel()
    ensures SpeakerLabel(Lazy, "BOB:") == Some(Label("BOB", 4))
  {
    var line := "BOB:";
    assert StampEnd(line, 0).None?;
    assert AsideTail(line, 1).None?;
    assert AsideTail(line, 2).None?;
    assert AsideTail(line, 3) == Some(4);
    assert line[..3] == "BOB";
    assert LazyName(line, 0, 1) == LazyName(line, 0, 2) == LazyName(line, 0, 3) == Some(Label("BOB", 4));
  }

  lemma BobColonKept()
    ensures PrepareLines(Defaults, ["BOB:"]) == ["BOB:"]
  {
    var line := "BOB:";
    NoOpenerNoMatch(Action, line);
    NoOpenerNoMatch(Annotation, line);
    StripUnchanged(Defaults, line);
    assert FilterLine(Defaults, line) == Some(line);
    assert Filtered(Defaults, [line]) == [line];
    PrepareIsFiltered(Defaults, [line]);
  }

  /** A line that is only a label survives filterLine, and is recorded with empty text (lib/parser.js:54, 73, 84). */
  lemma LabelOnlyLineRecorded()
    ensures Run(Defaults, PrepareLines(Defaults, ["BOB:"])).1 == [Turn("BOB", "")]
  {
    BobColonKept();
    BobColonLabel();
    BobText();
  }

  /* ---------------------------------------------------------------- the object */

  /** The parser object (lib/parser.js:14-33); its settings never change once it is built. */
  class TranscriptParser {
    const settings: Settings

    constructor (settings: Settings)
      ensures this.settings == settings
    {
      this.settings := settings;
    }

    /** `parseOneSync` (lib/parser.js:43-88) */
    method ParseOneSync(transcript: string) returns (output: Record<seq<string>>)
      ensures fresh(output) && output.Valid()
      ensures DocOf(output) == Collect(Turns(settings, transcript))
    {
      var lines := Prepare(settings, transcript);
      ghost var prepared := lines;
      output := new Record();
      var speaker := Unknown;
      var ignore := false;
      ghost var turns: seq<Turn> := [];
      var i := 0;
      while i < |lines|
        invariant 0 <= i <= |lines| == |prepared|
        invariant lines[i..] == prepared[i..]
        invariant Run(settings, prepared[..i]) == (Cursor(speaker, ignore), turns)
        invariant DocOf(output) == Collect(turns) && output.Valid()
      {
        ghost var c := Cursor(speaker, ignore);
        RunSnoc(settings, prepared, i);
        assert lines[i] == prepared[i] by {
          assert lines[i..][0] == prepared[i..][0];
        }
        var found := SpeakerLabel(Lazy, lines[i]);
        if found.Some? {
          speaker := Trim(found.value.name);
          lines := lines[i := AfterLabel(lines[i], found.value)];
          ignore := speaker in settings.blacklist;
        }
        assert (Cursor(speaker, ignore), lines[i]) == Relabel(settings, c, prepared[i]);
        assert lines[i + 1..] == prepared[i + 1..] by {
          assert lines[i + 1..] == lines[i..][1..];
        }
        if ignore || (speaker == Unknown && settings.removeUnknownSpeakers) {
          assert Run(settings, prepared[..i + 1]) == (Cursor(speaker, ignore), turns);
          i := i + 1;
          continue;
        }
        PushTurn(output, Turn(speaker, lines[i]));
        CollectSnoc(turns, Turn(speaker, lines[i]));
        turns := turns + [Turn(speaker, lines[i])];
        assert Run(settings, prepared[..i + 1]) == (Cursor(speaker, ignore), turns);
        i := i + 1;
      }
      assert prepared[..i] == prepared;
    }

    /** `resolveAliasesSync` (lib/parser.js:169-209) */
    method ResolveAliasesSync(data: Record<seq<string>>) returns (result: Record<seq<string>>)
      requires data.Valid()
      modifies data
      ensures result == data && data.Valid()
      ensures data.Table() == Resolve.MergeAll(old(data.Table()), old(data.keys), settings.aliases, Resolve.Front)
      ensures data.order == RewriteOrder(settings.aliases, old(data.order))
    {
      var aliases := settings.aliases;
      if |aliases| == 0 {
        Resolve.MergeAllWithoutAliases(data.Table(), data.keys, Resolve.Front);
        RewriteWithoutAliases(data.order);
        return data;
      }
      var snapshot := data.keys;
      ghost var target := Resolve.MergeAll(data.Table(), snapshot, aliases, Resolve.Front);
      var i := 0;
      while i < |snapshot|
        invariant 0 <= i <= |snapshot|
        invariant data.Valid() && data.order == old(data.order)
        invariant Distinct(snapshot[i..]) && forall k <- snapshot[i..] :: k in data.speaker
        invariant Resolve.MergeAll(data.Table(), snapshot[i..], aliases, Resolve.Front) == target
      {
        assert snapshot[i..][1..] == snapshot[i + 1..];
        var name := snapshot[i];
        Resolve.MergeAllStep(data.Table(), snapshot[i..], aliases, Resolve.Front);
        MergeName(data, name, data.speaker[name], aliases);
        assert Resolve.MergeAll(data.Table(), snapshot[i + 1..], aliases, Resolve.Front) == target;
        i := i + 1;
      }
      assert snapshot[i..] == [];
      data.order := RewriteOrder(aliases, data.order);
      return data;
    }
  }

  /** The alias loop for one speaker (lib/parser.js:174-192): every alias that claims the name receives the lines read at the visit. */
  method MergeName(data: Record<seq<string>>, name: string, lines: seq<string>, aliases: seq<Alias>)
    requires data.Valid()
    modifies data
    ensures data.Valid() && data.order == old(data.order)
    ensures data.Table() == Resolve.MergeKey(old(data.Table()), name, lines, aliases, Resolve.Front)
  {
    var j := 0;
    while j < |aliases|
      invariant 0 <= j <= |aliases|
      invariant data.Valid() && data.order == old(data.order)
      invariant Resolve.MergeKey(data.Table(), name, lines, aliases[j..], Resolve.Front) == Resolve.MergeKey(old(data.Table()), name, lines, aliases, Resolve.Front)
    {
      assert aliases[j..][1..] == aliases[j + 1..];
      AbsorbInto(data, name, lines, aliases[j]);
      j := j + 1;
    }
  }

  /** The pattern loop for one alias (lib/parser.js:175-190): the first pattern that matches a name other than the alias moves the lines and stops. */
  method AbsorbInto(data: Record<seq<string>>, name: string, lines: seq<string>, alias: Alias)
    requires data.Valid()
    modifies data
    ensures data.Valid() && data.order == old(data.order)
    ensures data.Table() == Resolve.Absorb(old(data.Table()), name, lines, alias, Resolve.Front)
  {
    var n := 0;
    while n < |alias.patterns|
      invariant 0 <= n <= |alias.patterns|
      invariant forall m :: 0 <= m < n ==> !alias.patterns[m](name) || name == alias.name
    {
      if alias.patterns[n](name) && name != alias.name {
        var merged := if alias.name in data.speaker then lines + data.speaker[alias.name] else lines;
        WithKeyWellKeyed(data.Table(), alias.name, merged);
        data.Set(alias.name, merged);
        WithoutKeyWellKeyed(data.Table(), name);
        data.Remove(name);
        return;
      }
      n := n + 1;
    }
  }

  /** Files a line under its speaker and appends the speaker to `order` (lib/parser.js:79-85). */
  method PushTurn(output: Record<seq<string>>, t: Turn)
    requires output.Valid()
    modifies output
    ensures output.Valid() && DocOf(output) == Push(old(DocOf(output)), t)
  {
    ghost var d0 := DocOf(output);
    if t.speaker !in output.speaker {
      WithKeyWellKeyed(output.Table(), t.speaker, []);
      output.Set(t.speaker, []);
    }
    ghost var t0 := output.Table();
    WithKeyWellKeyed(t0, t.speaker, t0.speaker[t.speaker] + [t.text]);
    output.Set(t.speaker, output.speaker[t.speaker] + [t.text]);
    output.order := output.order + [t.speaker];
  }

  /** parseOneSync's loop over one more line. */
  lemma RunAppend(settings: Settings, lines: seq<string>, line: string)
    ensures var before := Run(settings, lines); var next := Relabel(settings, before.0, line);
      Run(settings, lines + [line]) == (next.0, if Skips(settings, next.0) then before.1 else before.1 + [Turn(next.0.speaker, next.1)])
  {
    assert (lines + [line])[..|lines|] == lines;
  }

  /** One more line for parseOneSync's loop. */
  lemma RunSnoc(settings: Settings, lines: seq<string>, i: nat)
    requires i < |lines|
    ensures var before := Run(settings, lines[..i]); var next := Relabel(settings, before.0, lines[i]);
      Run(settings, lines[..i + 1]) == (next.0, if Skips(settings, next.0) then before.1 else before.1 + [Turn(next.0.speaker, next.1)])
  {
    assert lines[..i + 1][..i] == lines[..i];
  }

  lemma CollectSnoc(ts: seq<Turn>, t: Turn)
    ensures Collect(ts + [t]) == Push(Collect(ts), t)
  {
    assert (ts + [t])[..|ts|] == ts;
  }

  lemma RewriteWithoutAliases(order: seq<string>)
    ensures RewriteOrder([], order) == order
  {
  }
}
