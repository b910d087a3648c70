/**
 * The pattern set of the transcript parser (lib/parser.js:22-28, app.js:23-29):
 * the newline splitter, the stage-direction ("action"), timestamp and
 * annotation patterns, and the speaker-label pattern.  Each regex is written
 * out as a scanner that follows the order in which a JavaScript regex engine
 * tries its alternatives: greedy quantifiers try the longest run first, lazy
 * ones the shortest, and the first success wins.  A scanner is sticky: it
 * tries to match at exactly one position q and returns where the match ends.
 */
module Patterns {
  import opened Wrappers

  predicate IsUpper(c: char) { 'A' <= c <= 'Z' }

  predicate IsDigit(c: char) { '0' <= c <= '9' }

  /** `.` in a JavaScript regex matches any character except these. */
  predicate IsLineTerminator(c: char) {
    c == '\n' || c == '\r' || c == '\U{2028}' || c == '\U{2029}'
  }

  /** The character classes the patterns use. */
  datatype CharClass =
    | ActionChars   // [A-Z\ ]
    | NameChars     // [A-Z\d\ \/,.\-\(\)]
    | AsideChars    // [A-z\ ]: the range A-z also holds [ \ ] ^ _ and the backquote
    | LineChars     // .

  predicate InClass(c: char, k: CharClass) {
    match k
    case ActionChars => IsUpper(c) || c == ' '
    case NameChars => IsUpper(c) || IsDigit(c) || c in " /,.-()"
    case AsideChars => 'A' <= c <= 'z' || c == ' '
    case LineChars => !IsLineTerminator(c)
  }

  /** The end of the longest run of class-k characters that starts at i. */
  function RunEnd(s: string, i: nat, k: CharClass): (j: nat)
    requires i <= |s|
    ensures i <= j <= |s|
    ensures forall m :: i <= m < j ==> InClass(s[m], k)
    ensures j < |s| ==> !InClass(s[j], k)
    decreases |s| - i
  {
    if i < |s| && InClass(s[i], k) then RunEnd(s, i + 1, k) else i
  }

  function Expect(s: string, i: nat, c: char): Option<nat> {
    if i < |s| && s[i] == c then Some(i + 1) else None
  }

  /** `\ ?` at i, greedy. */
  function OptSpace(s: string, i: nat): nat {
    if i < |s| && s[i] == ' ' then i + 1 else i
  }

  /** `\d{1,2}` at i.  Greedy; a shorter try cannot help, as a non-digit must follow. */
  function Digits(s: string, i: nat): Option<nat> {
    if i < |s| && IsDigit(s[i]) then
      Some(if i + 1 < |s| && IsDigit(s[i + 1]) then i + 2 else i + 1)
    else None
  }

  /** The character c at i, then `\d{1,2}`. */
  function Field(s: string, i: nat, c: char): (r: Option<nat>)
    ensures r.Some? ==> i + 2 <= r.value <= i + 3 && r.value <= |s| && s[i] == c
    ensures r.Some? ==> forall j :: i < j < r.value ==> IsDigit(s[j])
  {
    var a :- Expect(s, i, c);
    Digits(s, a)
  }

  /** `\[\d{1,2}:\d{1,2}:\d{1,2}\]` at q; the end of the matched span. */
  function StampEnd(s: string, q: nat): (r: Option<nat>)
    ensures r.Some? ==> q + 7 <= r.value <= q + 10 && r.value <= |s|
    ensures r.Some? ==> s[q] == '[' && s[r.value - 1] == ']'
  {
    var b :- Field(s, q, '[');
    var d :- Field(s, b, ':');
    var f :- Field(s, d, ':');
    Expect(s, f, ']')
  }

  /** The patterns that are removed from lines or split on. */
  datatype Pattern =
    | NewLine          // /\r?\n/
    | Action           // /\([A-Z\ ]+\)\ ?/
    | Timestamp        // /\[\d{1,2}:\d{1,2}:\d{1,2}\]\ ?/, app.js:27
    | PaddedTimestamp  // /\ ?\[\d{1,2}:\d{1,2}:\d{1,2}\]\ ?/, lib/parser.js:26
    | Annotation       // /\[.+?\]\ ?/

  /**
   * `.+?\]` after the `[` at q: the least c >= from with s[c] == ']' such that
   * s[q+1..c] holds no line terminator.
   */
  function LazyClose(s: string, q: nat, from: nat): (r: Option<nat>)
    requires q + 2 <= from
    ensures r.Some? ==> from <= r.value < |s| && s[r.value] == ']'
    decreases |s| - from
  {
    if from >= |s| || IsLineTerminator(s[from - 1]) then None
    else if s[from] == ']' then Some(from)
    else LazyClose(s, q, from + 1)
  }

  function ActionAt(s: string, q: nat): (r: Option<nat>)
    requires q <= |s|
    ensures r.Some? ==> q < r.value <= |s|
  {
    if q < |s| && s[q] == '(' then
      var j := RunEnd(s, q + 1, ActionChars);
      if q + 1 < j < |s| && s[j] == ')' then Some(OptSpace(s, j + 1)) else None
    else None
  }

  function StampAt(s: string, q: nat): (r: Option<nat>)
    requires q <= |s|
    ensures r.Some? ==> q < r.value <= |s|
  {
    var e :- StampEnd(s, q);
    Some(OptSpace(s, e))
  }

  function PaddedStampAt(s: string, q: nat): (r: Option<nat>)
    requires q <= |s|
    ensures r.Some? ==> q < r.value <= |s|
  {
    // with a leading space the unpadded retry would need `[` where the space is
    var start := if q < |s| && s[q] == ' ' then q + 1 else q;
    StampAt(s, start)
  }

  function AnnotationAt(s: string, q: nat): (r: Option<nat>)
    requires q <= |s|
    ensures r.Some? ==> q < r.value <= |s|
  {
    if q < |s| && s[q] == '[' then
      var c :- LazyClose(s, q, q + 2);
      Some(OptSpace(s, c + 1))
    else None
  }

  function NewLineAt(s: string, q: nat): (r: Option<nat>)
    requires q <= |s|
    ensures r.Some? ==> q < r.value <= |s|
  {
    if q + 1 < |s| && s[q] == '\r' && s[q + 1] == '\n' then Some(q + 2)
    else if q < |s| && s[q] == '\n' then Some(q + 1)
    else None
  }

  /** Where a match of p that starts exactly at q ends, if there is one.  No pattern matches the empty string. */
  function MatchAt(p: Pattern, s: string, q: nat): (r: Option<nat>)
    requires q <= |s|
    ensures r.Some? ==> q < r.value <= |s|
  {
    match p
    case NewLine => NewLineAt(s, q)
    case Action => ActionAt(s, q)
    case Timestamp => StampAt(s, q)
    case PaddedTimestamp => PaddedStampAt(s, q)
    case Annotation => AnnotationAt(s, q)
  }

  /* ---------------------------------------------------------------- split and join */

  /*
   * No pattern looks behind the position it is tried at, so a match tried at
   * the regex's lastIndex is a match at the head of the text not yet scanned.
   */

  /**
   * String.prototype.split with a regex that has no capture groups and never
   * matches the empty string: `piece` is what has been scanned since the last
   * match, s what is left to scan.
   */
  function SplitRest(p: Pattern, s: string, piece: string): (r: seq<string>)
    ensures |r| >= 1
    decreases |s|
  {
    if s == [] then [piece]
    else match MatchAt(p, s, 0)
      case Some(e) => [piece] + SplitRest(p, s[e..], "")
      case None => SplitRest(p, s[1..], piece + [s[0]])
  }

  function Split(p: Pattern, s: string): seq<string> {
    SplitRest(p, s, "")
  }

  /** Array.prototype.join('') */
  function Join(pieces: seq<string>): string {
    if pieces == [] then "" else pieces[0] + Join(pieces[1..])
  }

  /** `removeAll(text, regex)`: split on the pattern and join the pieces again. */
  function RemoveAll(p: Pattern, s: string): string {
    Join(Split(p, s))
  }

  /** s with every leftmost non-overlapping match of p deleted. */
  function Erase(p: Pattern, s: string): string
    decreases |s|
  {
    if s == [] then ""
    else match MatchAt(p, s, 0)
      case Some(e) => Erase(p, s[e..])
      case None => [s[0]] + Erase(p, s[1..])
  }

  /** p matches at no position of s. */
  predicate NoMatch(p: Pattern, s: string) {
    forall i :: 0 <= i < |s| ==> MatchAt(p, s[i..], 0).None?
  }

  /** A line without the character every match of p starts with has no match of p. */
  lemma NoOpenerNoMatch(p: Pattern, s: string)
    requires p != NewLine && (if p == Action then '(' else '[') !in s
    ensures NoMatch(p, s)
  {
    forall i | 0 <= i < |s| ensures MatchAt(p, s[i..], 0).None? {
      assert s[i..][0] == s[i] && s[i] in s;
      if i + 1 < |s| {
        assert s[i..][1] == s[i + 1] && s[i + 1] in s;
      }
    }
  }

  lemma JoinCons(x: string, rest: seq<string>)
    ensures Join([x] + rest) == x + Join(rest)
  {
    assert ([x] + rest)[1..] == rest;
  }

  /** One step of split and of erase at a match of length e. */
  lemma SplitEraseMatched(p: Pattern, s: string, piece: string, e: nat)
    requires s != [] && MatchAt(p, s, 0) == Some(e)
    ensures Join(SplitRest(p, s, piece)) == piece + Join(SplitRest(p, s[e..], ""))
    ensures Erase(p, s) == Erase(p, s[e..])
  {
    JoinCons(piece, SplitRest(p, s[e..], ""));
  }

  /** One step of split and of erase where no match starts. */
  lemma SplitEraseUnmatched(p: Pattern, s: string, piece: string)
    requires s != [] && MatchAt(p, s, 0).None?
    ensures SplitRest(p, s, piece) == SplitRest(p, s[1..], piece + [s[0]])
    ensures Erase(p, s) == [s[0]] + Erase(p, s[1..])
  {
  }

  /** Splitting and joining deletes exactly the leftmost non-overlapping matches. */
  lemma {:induction false} JoinSplitRest(p: Pattern, s: string, piece: string)
    ensures Join(SplitRest(p, s, piece)) == piece + Erase(p, s)
    decreases |s|
  {
    if s == [] {
      assert SplitRest(p, s, piece) == [piece] + [];
      JoinCons(piece, []);
      assert piece + "" == piece;
      assert Join(SplitRest(p, s, piece)) == piece + Erase(p, s);
    } else {
      var m := MatchAt(p, s, 0);
      if m.Some? {
        SplitEraseMatched(p, s, piece, m.value);
        JoinSplitRest(p, s[m.value..], "");
        assert "" + Erase(p, s[m.value..]) == Erase(p, s[m.value..]);
        assert Join(SplitRest(p, s, piece)) == piece + Erase(p, s);
      } else {
        SplitEraseUnmatched(p, s, piece);
        JoinSplitRest(p, s[1..], piece + [s[0]]);
        assert (piece + [s[0]]) + Erase(p, s[1..]) == piece + ([s[0]] + Erase(p, s[1..]));
        assert Join(SplitRest(p, s, piece)) == piece + Erase(p, s);
      }
    }
  }

  lemma {:induction false} RemoveAllIsErase(p: Pattern, s: string)
    ensures RemoveAll(p, s) == Erase(p, s)
  {
    JoinSplitRest(p, s, "");
  }

  /** A match somewhere in the rest of the text is a match somewhere in the text. */
  lemma NoMatchTail(p: Pattern, s: string)
    requires s != [] && NoMatch(p, s)
    ensures NoMatch(p, s[1..])
  {
    forall i | 0 <= i < |s| - 1 ensures MatchAt(p, s[1..][i..], 0).None? {
      assert s[1..][i..] == s[i + 1..];
    }
  }

  /** Erasing never lengthens the text, and shortens it as soon as p matches somewhere. */
  lemma {:induction false} EraseLength(p: Pattern, s: string)
    ensures |Erase(p, s)| <= |s|
    ensures !NoMatch(p, s) ==> |Erase(p, s)| < |s|
    decreases |s|
  {
    if s != [] {
      match MatchAt(p, s, 0)
      case Some(e) =>
        EraseLength(p, s[e..]);
      case None =>
        EraseLength(p, s[1..]);
        if !NoMatch(p, s) {
          var i :| 0 <= i < |s| && MatchAt(p, s[i..], 0).Some?;
          assert i != 0;
          assert s[1..][i - 1..] == s[i..];
          assert !NoMatch(p, s[1..]);
        }
    }
  }

  lemma {:induction false} EraseWithoutMatch(p: Pattern, s: string)
    requires NoMatch(p, s)
    ensures Erase(p, s) == s
    decreases |s|
  {
    if s != [] {
      assert s[0..] == s;
      NoMatchTail(p, s);
      EraseWithoutMatch(p, s[1..]);
      assert s == [s[0]] + s[1..];
    }
  }

  /** removeAll returns its argument unchanged exactly when the pattern matches nowhere in it. */
  lemma RemoveAllUnchanged(p: Pattern, s: string)
    ensures RemoveAll(p, s) == s <==> NoMatch(p, s)
  {
    RemoveAllIsErase(p, s);
    EraseLength(p, s);
    if NoMatch(p, s) {
      EraseWithoutMatch(p, s);
    }
  }

  /** removeAll never lengthens a line. */
  lemma RemoveAllShortens(p: Pattern, s: string)
    ensures |RemoveAll(p, s)| <= |s|
  {
    RemoveAllIsErase(p, s);
    EraseLength(p, s);
  }

  lemma RemoveAllEmpty(p: Pattern)
    ensures RemoveAll(p, "") == ""
  {
    RemoveAllShortens(p, "");
  }

  /* ---------------------------------------------------------------- line splitting */

  /** No piece of a split on /\r?\n/ holds a line feed. */
  lemma {:induction false} SplitLinesHaveNoLineFeed(s: string, piece: string)
    requires '\n' !in piece
    ensures forall line <- SplitRest(NewLine, s, piece) :: '\n' !in line
    decreases |s|
  {
    if s != [] {
      match MatchAt(NewLine, s, 0)
      case Some(e) =>
        SplitLinesHaveNoLineFeed(s[e..], "");
      case None =>
        assert s[0] != '\n';
        SplitLinesHaveNoLineFeed(s[1..], piece + [s[0]]);
    }
  }

  /** The number of line feeds in s. */
  function LineFeeds(s: string): nat {
    if s == [] then 0 else (if s[0] == '\n' then 1 else 0) + LineFeeds(s[1..])
  }

  /** Splitting on /\r?\n/ gives one line more than there are line feeds. */
  lemma {:induction false} SplitLinesCount(s: string, piece: string)
    ensures |SplitRest(NewLine, s, piece)| == LineFeeds(s) + 1
    decreases |s|
  {
    if s != [] {
      match MatchAt(NewLine, s, 0)
      case Some(e) =>
        SplitLinesCount(s[e..], "");
        if e == 2 {
          assert s[1..][1..] == s[2..];
        }
      case None =>
        SplitLinesCount(s[1..], piece + [s[0]]);
    }
  }

  /* ---------------------------------------------------------------- speaker labels */

  /** A speaker-label match: capture group 1 and the end of the whole match. */
  datatype Label = Label(name: string, end: nat)

  /** The two variants of the speaker pattern. */
  datatype LabelStyle =
    | Lazy    // lib/parser.js:25, lazy name followed by (?:\ ?\[[A-z\ ]+\])? ?:\ ?
    | Greedy  // app.js:26, greedy name followed by (?: \[.+\])?:\ ?

  /** ` ?:\ ?` at e. */
  function ColonTail(s: string, e: nat): (r: Option<nat>)
    requires e <= |s|
    ensures r.Some? ==> e < r.value <= |s|
  {
    if e + 1 < |s| && s[e] == ' ' && s[e + 1] == ':' then Some(OptSpace(s, e + 2))
    else if e < |s| && s[e] == ':' then Some(OptSpace(s, e + 1))
    else None
  }

  /**
   * `[A-z\ ]+` after the `[` at o has taken s[o+1..c]; give back characters
   * until `\]` and the colon tail match.
   */
  function GreedyAside(s: string, o: nat, c: nat): (r: Option<nat>)
    requires c <= |s|
    ensures r.Some? ==> o + 2 < r.value <= |s|
    decreases c
  {
    if c < o + 2 then None
    else if c < |s| && s[c] == ']' && ColonTail(s, c + 1).Some? then ColonTail(s, c + 1)
    else GreedyAside(s, o, c - 1)
  }

  /** `(?:\ ?\[[A-z\ ]+\])? ?:\ ?` at e (lib/parser.js:25). */
  function AsideTail(s: string, e: nat): (r: Option<nat>)
    requires e <= |s|
    ensures r.Some? ==> e < r.value <= |s|
  {
    // if s[e] is a space, the group's `\ ?` must take it: `[` cannot match a space
    var o := if e < |s| && s[e] == ' ' then e + 1 else e;
    var aside := if o < |s| && s[o] == '[' then GreedyAside(s, o, RunEnd(s, o + 1, AsideChars)) else None;
    if aside.Some? then aside else ColonTail(s, e)
  }

  /** `.+` after the `[` at o has taken s[o+1..c]; give back characters until `\]:` matches. */
  function GreedyBracket(s: string, o: nat, c: nat): (r: Option<nat>)
    requires c <= |s|
    ensures r.Some? ==> o + 2 < r.value <= |s|
    decreases c
  {
    if c < o + 2 then None
    else if c + 1 < |s| && s[c] == ']' && s[c + 1] == ':' then Some(OptSpace(s, c + 2))
    else GreedyBracket(s, o, c - 1)
  }

  /** `(?: \[.+\])?:\ ?` at e (app.js:26). */
  function BracketTail(s: string, e: nat): (r: Option<nat>)
    requires e <= |s|
    ensures r.Some? ==> e < r.value <= |s|
  {
    var aside :=
      if e + 1 < |s| && s[e] == ' ' && s[e + 1] == '[' then GreedyBracket(s, e + 1, RunEnd(s, e + 2, LineChars))
      else None;
    if aside.Some? then aside
    else if e < |s| && s[e] == ':' then Some(OptSpace(s, e + 1))
    else None
  }

  /** A valid candidate for a label of s: group 1 is a non-empty prefix followed by at least a colon. */
  predicate IsLabelOf(s: string, l: Label) {
    0 < |l.name| < l.end <= |s| && l.name == s[..|l.name|]
  }

  /** The lazy `[A-Z\d\ \/,.\-\(\)]+?` started at p and has taken s[p..e]; take more until the tail matches. */
  function LazyName(s: string, p: nat, e: nat): (r: Option<Label>)
    requires p < e <= |s|
    ensures r.Some? ==> IsLabelOf(s, r.value) && e <= |r.value.name|
    decreases |s| - e
  {
    if !InClass(s[e - 1], NameChars) then None
    else match AsideTail(s, e)
      case Some(end) => Some(Label(s[..e], end))
      case None => if e < |s| then LazyName(s, p, e + 1) else None
  }

  /** The greedy `[A-Z\d\ \/,.\-\(\)]+` started at p and has taken s[p..e]; give back until the tail matches. */
  function GreedyName(s: string, p: nat, e: nat): (r: Option<Label>)
    requires p <= e <= |s|
    ensures r.Some? ==> IsLabelOf(s, r.value) && p < |r.value.name| <= e
    decreases e
  {
    if e == p then None
    else match BracketTail(s, e)
      case Some(end) => Some(Label(s[..e], end))
      case None => GreedyName(s, p, e - 1)
  }

  function NameFrom(style: LabelStyle, s: string, p: nat): (r: Option<Label>)
    requires p <= |s|
    ensures r.Some? ==> IsLabelOf(s, r.value) && p < |r.value.name|
  {
    match style
    case Lazy => if p < |s| then LazyName(s, p, p + 1) else None
    case Greedy => GreedyName(s, p, RunEnd(s, p, NameChars))
  }

  /** The name after a timestamp that ends at t: after its space if that works, else right after it. */
  function NameAfter(style: LabelStyle, s: string, t: nat): (r: Option<Label>)
    requires t <= |s|
    ensures r.Some? ==> IsLabelOf(s, r.value) && t < |r.value.name|
  {
    var spaced := if t < |s| && s[t] == ' ' then NameFrom(style, s, t + 1) else None;
    if spaced.Some? then spaced else NameFrom(style, s, t)
  }

  /** Group 1 when its optional timestamp group takes part. */
  function StampedLabel(style: LabelStyle, s: string): (r: Option<Label>)
    ensures r.Some? ==> IsLabelOf(s, r.value) && StampEnd(s, 0).Some?
  {
    match StampEnd(s, 0)
    case Some(t) => NameAfter(style, s, t)
    case None => None
  }

  /**
   * `exec` of the speaker pattern on a line: group 1 runs from the start of
   * the line over an optional timestamp (with its optional space) and the
   * name.  The timestamp group is greedy, so its alternatives are tried first.
   */
  function SpeakerLabel(style: LabelStyle, s: string): (r: Option<Label>)
    ensures r.Some? ==> IsLabelOf(s, r.value)
  {
    var stamped := StampedLabel(style, s);
    if stamped.Some? then stamped else NameFrom(style, s, 0)
  }

  /** The characters group 1 can take: name characters, and digits, colons and brackets of a timestamp. */
  predicate LabelChar(c: char) {
    InClass(c, NameChars) || c == '[' || c == ']' || c == ':'
  }

  lemma StampChars(s: string, t: nat)
    requires StampEnd(s, 0) == Some(t)
    ensures forall i :: 0 <= i < t ==> LabelChar(s[i])
  {
  }

  lemma {:induction false} LazyNameChars(s: string, p: nat, e: nat)
    requires p < e <= |s| && forall i :: p <= i < e - 1 ==> InClass(s[i], NameChars)
    ensures LazyName(s, p, e).Some? ==> forall i :: p <= i < |LazyName(s, p, e).value.name| ==> InClass(s[i], NameChars)
    decreases |s| - e
  {
    if InClass(s[e - 1], NameChars) && AsideTail(s, e).None? && e < |s| {
      LazyNameChars(s, p, e + 1);
    }
  }

  lemma {:induction false} GreedyNameChars(s: string, p: nat, e: nat)
    requires p <= e <= |s| && forall i :: p <= i < e ==> InClass(s[i], NameChars)
    ensures GreedyName(s, p, e).Some? ==> forall i :: p <= i < |GreedyName(s, p, e).value.name| ==> InClass(s[i], NameChars)
    decreases e
  {
    if e != p && BracketTail(s, e).None? {
      GreedyNameChars(s, p, e - 1);
    }
  }

  lemma NameFromChars(style: LabelStyle, s: string, p: nat)
    requires p <= |s|
    ensures NameFrom(style, s, p).Some? ==> forall i :: p <= i < |NameFrom(style, s, p).value.name| ==> InClass(s[i], NameChars)
  {
    match style
    case Lazy =>
      if p < |s| {
        LazyNameChars(s, p, p + 1);
      }
    case Greedy =>
      GreedyNameChars(s, p, RunEnd(s, p, NameChars));
  }

  /** A name after label characters, or after label characters and a space. */
  lemma NameAfterChars(style: LabelStyle, s: string, t: nat)
    requires t <= |s| && forall i :: 0 <= i < t ==> LabelChar(s[i])
    ensures NameAfter(style, s, t).Some? ==> forall i :: 0 <= i < |NameAfter(style, s, t).value.name| ==> LabelChar(s[i])
  {
    if t < |s| && s[t] == ' ' {
      NameFromChars(style, s, t + 1);
    }
    NameFromChars(style, s, t);
  }

  lemma StampedLabelChars(style: LabelStyle, s: string)
    requires StampedLabel(style, s).Some?
    ensures forall i :: 0 <= i < |StampedLabel(style, s).value.name| ==> LabelChar(s[i])
  {
    var t := StampEnd(s, 0).value;
    StampChars(s, t);
    NameAfterChars(style, s, t);
  }

  lemma LabelPrefixChars(style: LabelStyle, s: string)
    requires SpeakerLabel(style, s).Some?
    ensures forall i :: 0 <= i < |SpeakerLabel(style, s).value.name| ==> LabelChar(s[i])
  {
    if StampedLabel(style, s).Some? {
      StampedLabelChars(style, s);
    } else {
      NameFromChars(style, s, 0);
    }
  }

  /** Group 1 of the speaker pattern holds label characters only. */
  lemma LabelChars(style: LabelStyle, s: string)
    requires SpeakerLabel(style, s).Some?
    ensures forall c <- SpeakerLabel(style, s).value.name :: LabelChar(c)
  {
    var l := SpeakerLabel(style, s).value;
    LabelPrefixChars(style, s);
    forall c | c in l.name ensures LabelChar(c) {
      var i :| 0 <= i < |l.name| && l.name[i] == c;
      assert s[i] == c;
    }
  }

  /** `line.replace(speakerPattern, '')`: the line with its label removed. */
  function AfterLabel(s: string, l: Label): (r: string)
    requires IsLabelOf(s, l)
    ensures |r| < |s| && r == s[|s| - |r|..]
  {
    s[l.end..]
  }

  /* ---------------------------------------------------------------- trim */

  /** String.prototype.trim removes these: WhiteSpace and LineTerminator of ECMAScript. */
  predicate IsJsSpace(c: char) {
    c == ' ' || c == '\t' || c == '\U{000B}' || c == '\U{000C}' || c == '\U{00A0}' || c == '\U{FEFF}'
    || c == '\U{1680}' || ('\U{2000}' <= c <= '\U{200A}') || c == '\U{202F}' || c == '\U{205F}'
    || c == '\U{3000}' || IsLineTerminator(c)
  }

  function TrimStart(s: string): (r: string)
    ensures |r| <= |s| && r == s[|s| - |r|..]
    ensures forall i :: 0 <= i < |s| - |r| ==> IsJsSpace(s[i])
    ensures r != [] ==> !IsJsSpace(r[0])
  {
    if s != [] && IsJsSpace(s[0]) then TrimStart(s[1..]) else s
  }

  function TrimEnd(s: string): (r: string)
    ensures |r| <= |s| && r == s[..|r|]
    ensures forall i :: |r| <= i < |s| ==> IsJsSpace(s[i])
    ensures r != [] ==> !IsJsSpace(r[|r| - 1])
  {
    if s != [] && IsJsSpace(s[|s| - 1]) then TrimEnd(s[..|s| - 1]) else s
  }

  /** `trim()`: r neither starts nor ends with white space, and a string that already does neither is left as it is. */
  function Trim(s: string): (r: string)
    ensures |r| <= |s| && forall c <- r :: c in s
    ensures r != [] ==> !IsJsSpace(r[0]) && !IsJsSpace(r[|r| - 1])
    ensures s == [] || (!IsJsSpace(s[0]) && !IsJsSpace(s[|s| - 1])) ==> r == s
  {
    TrimEnd(TrimStart(s))
  }
}
