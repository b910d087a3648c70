/**
 * app.js, the older transcript parser that the tests load: the settings,
 * the line filters, `parseOneSync` and `resolveAliasesSync`.  Compared with
 * lib/parser.js it has no blacklist, keeps the captured name untrimmed, uses
 * the greedy speaker pattern and the unpadded timestamp pattern, keeps lines
 * that stripping empties, and appends merged lines behind the canonical list.
 */
module LegacyParser {
  import opened Wrappers
  import opened Patterns
  import opened Records
  import LegacyResolve
  import Parser

  /** The settings of app.js:15-22. */
  datatype Settings = Settings(
    removeActions: bool,
    removeAnnotations: bool,
    removeTimestamps: bool,
    removeUnknownSpeakers: bool,
    aliases: seq<Alias>)

  const Defaults := Settings(true, true, true, false, [])

  /** The speaker of the lines before the first label (app.js:59). */
  const Unknown := "none"

  /* ---------------------------------------------------------------- stripping */

  /** Annotations when they are removed, else timestamps when they are (app.js:43-49). */
  function LaterPattern(settings: Settings): Option<Pattern> {
    if settings.removeAnnotations then Some(Annotation)
    else if settings.removeTimestamps then Some(Timestamp)
    else None
  }

  /** The removals applied to each line: actions first, then the later pattern (app.js:42-49). */
  function Strip(settings: Settings, line: string): string {
    var a := if settings.removeActions then RemoveAll(Action, line) else line;
    match LaterPattern(settings)
    case Some(p) => RemoveAll(p, a)
    case None => a
  }

  predicate Clean(settings: Settings, line: string) {
    && (settings.removeActions ==> NoMatch(Action, line))
    && (LaterPattern(settings).Some? ==> NoMatch(LaterPattern(settings).value, line))
  }

  /** A line is left as it is exactly when none of the applied patterns matches in it. */
  lemma StripUnchanged(settings: Settings, line: string)
    ensures Strip(settings, line) == line <==> Clean(settings, line)
    ensures |Strip(settings, line)| <= |line|
  {
    var a := if settings.removeActions then RemoveAll(Action, line) else line;
    if settings.removeActions {
      RemoveAllUnchanged(Action, line);
      RemoveAllShortens(Action, line);
      RemoveAllIsErase(Action, line);
      EraseLength(Action, line);
    }
    if LaterPattern(settings).Some? {
      var p := LaterPattern(settings).value;
      RemoveAllUnchanged(p, a);
      RemoveAllShortens(p, a);
      RemoveAllIsErase(p, a);
      EraseLength(p, a);
      if settings.removeActions && a != line {
        assert |a| < |line|;
      }
    }
  }

  function StripEach(settings: Settings, ls: seq<string>): (r: seq<string>)
    ensures |r| == |ls|
    ensures forall i :: 0 <= i < |ls| ==> r[i] == Strip(settings, ls[i])
  {
    seq(|ls|, i requires 0 <= i < |ls| => Strip(settings, ls[i]))
  }

  /** The lines parseOneSync walks: blank pieces dropped, then each stripped; a line stripped to nothing stays (app.js:40-49). */
  function Prepare(settings: Settings, transcript: string): seq<string> {
    StripEach(settings, Parser.NonEmpty(Split(NewLine, transcript)))
  }

  /* ---------------------------------------------------------------- attributing lines */

  /** A labelled line switches the speaker to group 1 as it stands and loses its label (app.js:62-67). */
  function Relabel(speaker: string, line: string): (string, string) {
    match SpeakerLabel(Greedy, line)
    case Some(l) => (l.name, AfterLabel(line, l))
    case None => (speaker, line)
  }

  /** The line is dropped: its speaker is unknown and unknown speakers are removed (app.js:76). */
  predicate Skips(settings: Settings, speaker: string) {
    speaker == Unknown && settings.removeUnknownSpeakers
  }

  /** The loop of app.js:61-81: the final speaker and the recorded lines. */
  function Run(settings: Settings, lines: seq<string>): (string, seq<Turn>) {
    if lines == [] then (Unknown, [])
    else
      var before := Run(settings, lines[..|lines| - 1]);
      var next := Relabel(before.0, lines[|lines| - 1]);
      (next.0, if Skips(settings, next.0) then before.1 else before.1 + [Turn(next.0, next.1)])
  }

  function Turns(settings: Settings, transcript: string): seq<Turn> {
    Run(settings, Prepare(settings, transcript)).1
  }

  /* reference: each line's speaker is fixed by the last label at or before it */

  function LastName(lines: seq<string>): Option<string> {
    if lines == [] then None
    else match SpeakerLabel(Greedy, lines[|lines| - 1])
      case Some(l) => Some(l.name)
      case None => LastName(lines[..|lines| - 1])
  }

  function SpeakerOf(lines: seq<string>): string {
    match LastName(lines)
    case Some(n) => n
    case None => Unknown
  }

  function Text(line: string): string {
    match SpeakerLabel(Greedy, line)
    case Some(l) => AfterLabel(line, l)
    case None => line
  }

  /** The recorded lines, line by line. */
  function Expected(settings: Settings, lines: seq<string>): seq<Turn> {
    if lines == [] then []
    else
      Expected(settings, lines[..|lines| - 1])
      + (if Skips(settings, SpeakerOf(lines)) then [] else [Turn(SpeakerOf(lines), Text(lines[|lines| - 1]))])
  }

  lemma {:induction false} RunIsExpected(settings: Settings, lines: seq<string>)
    ensures Run(settings, lines).0 == SpeakerOf(lines)
    ensures Run(settings, lines).1 == Expected(settings, lines)
  {
    if lines != [] {
      var init, last := lines[..|lines| - 1], lines[|lines| - 1];
      RunIsExpected(settings, init);
      var next := Relabel(Run(settings, init).0, last);
      assert next.0 == SpeakerOf(lines) && next.1 == Text(last);
    }
  }

  /** Group 1 is never the unknown speaker's name: `n` is not a label character. */
  lemma LabelNeverUnknown(line: string)
    requires SpeakerLabel(Greedy, line).Some?
    ensures SpeakerLabel(Greedy, line).value.name != Unknown
  {
    LabelChars(Greedy, line);
    var name := SpeakerLabel(Greedy, line).value.name;
    assert !LabelChar('n');
    assert 'n' !in name;
    assert Unknown[0] == 'n' && Unknown[0] in Unknown;
  }

  /** The speaker is the unknown one exactly until the first label. */
  lemma {:induction false} UnknownUntilFirstLabel(lines: seq<string>)
    ensures SpeakerOf(lines) == Unknown <==> LastName(lines).None?
  {
    if lines != [] {
      var last := lines[|lines| - 1];
      if SpeakerLabel(Greedy, last).Some? {
        LabelNeverUnknown(last);
      } else {
        UnknownUntilFirstLabel(lines[..|lines| - 1]);
      }
    }
  }

  /**
   * Without removeUnknownSpeakers every prepared line is recorded, as the
   * speaker of the last label up to it and with its own label removed.
   */
  lemma KeepsEveryLine(settings: Settings, lines: seq<string>)
    requires !settings.removeUnknownSpeakers
    ensures var ts := Run(settings, lines).1;
      |ts| == |lines| && forall i :: 0 <= i < |lines| ==> ts[i] == Turn(SpeakerOf(lines[..i + 1]), Text(lines[i]))
  {
    RunIsExpected(settings, lines);
    ExpectedKeepsEveryLine(settings, lines);
  }

  lemma ExpectedKeepsEveryLine(settings: Settings, lines: seq<string>)
    requires !settings.removeUnknownSpeakers
    ensures var ts := Expected(settings, lines);
      |ts| == |lines| && forall i :: 0 <= i < |lines| ==> ts[i] == Turn(SpeakerOf(lines[..i + 1]), Text(lines[i]))
  {
    var stages := seq(|lines| + 1, k requires 0 <= k <= |lines| => Expected(settings, lines[..k]));
    var turns := seq(|lines|, k requires 0 <= k < |lines| => LineTurn(lines[..k + 1]));
    forall k | 0 <= k < |lines| ensures stages[k + 1] == stages[k] + [turns[k]] {
      ExpectedStep(settings, lines, k);
    }
    GrowsByOne(stages, turns);
    assert lines[..|lines|] == lines;
    forall i | 0 <= i < |lines| ensures Expected(settings, lines)[i] == Turn(SpeakerOf(lines[..i + 1]), Text(lines[i])) {
      LineTurnAt(lines, i);
    }
  }

  lemma ExpectedStep(settings: Settings, lines: seq<string>, k: nat)
    requires !settings.removeUnknownSpeakers && k < |lines|
    ensures Expected(settings, lines[..k + 1]) == Expected(settings, lines[..k]) + [LineTurn(lines[..k + 1])]
  {
    assert lines[..k + 1][..k] == lines[..k];
  }

  lemma LineTurnAt(lines: seq<string>, i: nat)
    requires i < |lines|
    ensures LineTurn(lines[..i + 1]) == Turn(SpeakerOf(lines[..i + 1]), Text(lines[i]))
  {
    assert lines[..i + 1][i] == lines[i];
  }

  /** The turn of the last line of a non-empty prefix. */
  function LineTurn(prefix: seq<string>): Turn
    requires prefix != []
  {
    Turn(SpeakerOf(prefix), Text(prefix[|prefix| - 1]))
  }

  /** A list that starts empty and grows by one turn a step ends as the list of those turns. */
  lemma {:induction false} GrowsByOne(stages: seq<seq<Turn>>, turns: seq<Turn>)
    requires |stages| == |turns| + 1 && stages[0] == []
    requires forall k :: 0 <= k < |turns| ==> stages[k + 1] == stages[k] + [turns[k]]
    ensures stages[|turns|] == turns
  {
    if turns != [] {
      var n := |turns| - 1;
      GrowsByOne(stages[..n + 1], turns[..n]);
      assert stages[n + 1] == turns[..n] + [turns[n]];
      assert turns[..n] + [turns[n]] == turns;
    }
  }

  /** With removeUnknownSpeakers a line is recorded exactly when a label comes at or before it; labelled speakers are all kept. */
  lemma RecordedIffLabelled(settings: Settings, lines: seq<string>)
    requires settings.removeUnknownSpeakers && lines != []
    ensures Skips(settings, SpeakerOf(lines)) <==> LastName(lines).None?
  {
    UnknownUntilFirstLabel(lines);
  }

  /**
   * The record parseOneSync returns: `order` lists the speaker of every
   * recorded line, each key holds that speaker's lines in input order, keys
   * and order entries coincide, the line count matches `order`, and `none`
   * is no key when unknown speakers are removed.
   */
  lemma {:induction false} ParsedRecord(settings: Settings, transcript: string)
    ensures var ts := Turns(settings, transcript); var d := Collect(ts);
      && Consistent(d)
      && |d.order| == |ts| && (forall i :: 0 <= i < |ts| ==> d.order[i] == ts[i].speaker)
      && (forall n :: n in d.speaker ==> d.speaker[n] == Said(ts, n))
      && (settings.removeUnknownSpeakers ==> Unknown !in d.speaker)
  {
    var ts := Turns(settings, transcript);
    CollectMeaning(ts);
    CollectConsistent(ts);
    if settings.removeUnknownSpeakers {
      NoUnknownTurn(settings, Prepare(settings, transcript));
    }
  }

  lemma {:induction false} NoUnknownTurn(settings: Settings, lines: seq<string>)
    requires settings.removeUnknownSpeakers
    ensures forall t <- Run(settings, lines).1 :: t.speaker != Unknown
  {
    if lines != [] {
      NoUnknownTurn(settings, lines[..|lines| - 1]);
    }
  }

  /* ---------------------------------------------------------------- the object */

  /** The parser object (app.js:13-31). */
  class TranscriptParser {
    const settings: Settings

    constructor (settings: Settings)
      ensures this.settings == settings
    {
      this.settings := settings;
    }

    /** `parseOneSync` (app.js:39-83) */
    method ParseOneSync(transcript: string) returns (output: Record<seq<string>>)
      ensures fresh(output) && output.Valid()
      ensures DocOf(output) == Collect(Turns(settings, transcript))
    {
      var lines := Prepare(settings, transcript);
      ghost var prepared := lines;
      output := new Record();
      var speaker := Unknown;
      ghost var turns: seq<Turn> := [];
      var i := 0;
      while i < |lines|
        invariant 0 <= i <= |lines| == |prepared|
        invariant lines[i..] == prepared[i..]
        invariant Run(settings, prepared[..i]) == (speaker, turns)
        invariant DocOf(output) == Collect(turns) && output.Valid()
      {
        ghost var before := speaker;
        RunSnoc(settings, prepared, i);
        assert lines[i] == prepared[i] by {
          assert lines[i..][0] == prepared[i..][0];
        }
        var found := SpeakerLabel(Greedy, lines[i]);
        if found.Some? {
          speaker := found.value.name;
          lines := lines[i := AfterLabel(lines[i], found.value)];
        }
        assert (speaker, lines[i]) == Relabel(before, prepared[i]);
        assert lines[i + 1..] == prepared[i + 1..] by {
          assert lines[i + 1..] == lines[i..][1..];
        }
        if !(speaker == Unknown && settings.removeUnknownSpeakers) {
          Parser.PushTurn(output, Turn(speaker, lines[i]));
          Parser.CollectSnoc(turns, Turn(speaker, lines[i]));
          turns := turns + [Turn(speaker, lines[i])];
        }
        i := i + 1;
      }
      assert prepared[..i] == prepared;
    }

    /** `resolveAliasesSync` (app.js:148-186) */
    method ResolveAliasesSync(data: Record<LegacyResolve.Slot>) returns (result: Record<LegacyResolve.Slot>)
      requires data.Valid()
      modifies data
      ensures result == data && data.Valid()
      ensures data.Table() == LegacyResolve.MergeAll(old(data.Table()), old(data.keys), settings.aliases)
      ensures data.order == RewriteOrder(settings.aliases, old(data.order))
    {
      var aliases := settings.aliases;
      if |aliases| == 0 {
        LegacyResolve.MergeAllWithoutAliases(data.Table(), data.keys);
        Parser.RewriteWithoutAliases(data.order);
        return data;
      }
      var snapshot := data.keys;
      ghost var target := LegacyResolve.MergeAll(data.Table(), snapshot, aliases);
      var i := 0;
      while i < |snapshot|
        invariant 0 <= i <= |snapshot|
        invariant data.Valid() && data.order == old(data.order)
        invariant LegacyResolve.MergeAll(data.Table(), snapshot[i..], aliases) == target
      {
        assert snapshot[i..][1..] == snapshot[i + 1..];
        var speaker := snapshot[i];
        LegacyResolve.MergeAllStep(data.Table(), snapshot[i..], aliases);
        if speaker in data.speaker {
          MergeSpeaker(data, speaker, aliases);
        }
        assert LegacyResolve.MergeAll(data.Table(), snapshot[i + 1..], aliases) == target;
        i := i + 1;
      }
      assert snapshot[i..] == [];
      data.order := RewriteOrder(aliases, data.order);
      return data;
    }
  }

  /** One more line for the loop. */
  lemma RunSnoc(settings: Settings, lines: seq<string>, i: nat)
    requires i < |lines|
    ensures var before := Run(settings, lines[..i]); var next := Relabel(before.0, lines[i]);
      Run(settings, lines[..i + 1]) == (next.0, if Skips(settings, next.0) then before.1 else before.1 + [Turn(next.0, next.1)])
  {
    assert lines[..i + 1][..i] == lines[..i];
  }

  /** The alias loop for one speaker (app.js:154-170). */
  method MergeSpeaker(data: Record<LegacyResolve.Slot>, speaker: string, aliases: seq<Alias>)
    requires data.Valid()
    modifies data
    ensures data.Valid() && data.order == old(data.order)
    ensures data.Table() == LegacyResolve.MergeKey(old(data.Table()), speaker, aliases)
  {
    var j := 0;
    while j < |aliases|
      invariant 0 <= j <= |aliases|
      invariant data.Valid() && data.order == old(data.order)
      invariant LegacyResolve.MergeKey(data.Table(), speaker, aliases[j..]) == LegacyResolve.MergeKey(old(data.Table()), speaker, aliases)
    {
      assert aliases[j..][1..] == aliases[j + 1..];
      AbsorbSpeaker(data, speaker, aliases[j]);
      j := j + 1;
    }
  }

  /** The pattern loop for one alias (app.js:155-168): the first matching pattern merges and deletes, then `break`. */
  method AbsorbSpeaker(data: Record<LegacyResolve.Slot>, speaker: string, alias: Alias)
    requires data.Valid()
    modifies data
    ensures data.Valid() && data.order == old(data.order)
    ensures data.Table() == LegacyResolve.Absorb(old(data.Table()), speaker, alias)
  {
    var n := 0;
    while n < |alias.patterns|
      invariant 0 <= n <= |alias.patterns|
      invariant forall m :: 0 <= m < n ==> !alias.patterns[m](speaker)
    {
      if alias.patterns[n](speaker) {
        var current := LegacyResolve.Get(data.Table(), alias.name);
        var moved := LegacyResolve.Get(data.Table(), speaker);
        var v := if current.Lines? then LegacyResolve.Lines(LegacyResolve.Concat(current.elems, moved)) else moved;
        WithKeyWellKeyed(data.Table(), alias.name, v);
        data.Set(alias.name, v);
        WithoutKeyWellKeyed(data.Table(), speaker);
        data.Remove(speaker);
        return;
      }
      n := n + 1;
    }
  }
}
