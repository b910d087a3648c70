/**
 * The regular-expression examples of test/regex.js, worked out on the
 * scanners.  A text is written as literal pieces joined together; the
 * matching of the patterns is local, so each piece can be dealt with on
 * its own.
 */
module Examples {
  import opened Wrappers
  import opened Patterns

  /* ---------------------------------------------------------------- pieces */

  /** No match of p can start inside u: u holds no character that starts one. */
  predicate Plain(p: Pattern, u: string) {
    match p
    case NewLine => '\n' !in u && '\r' !in u
    case Action => '(' !in u
    case Timestamp => '[' !in u
    case PaddedTimestamp => '[' !in u && ' ' !in u
    case Annotation => '[' !in u
  }

  lemma PlainNoMatch(p: Pattern, u: string, v: string)
    requires Plain(p, u) && u != []
    ensures MatchAt(p, u + v, 0).None?
  {
    var s := u + v;
    assert s[0] == u[0] && u[0] in u;
    if 1 < |u| {
      assert s[1] == u[1] && u[1] in u;
    }
  }

  lemma PlainTail(p: Pattern, u: string, v: string)
    requires Plain(p, u) && u != []
    ensures Plain(p, u[1..]) && (u + v)[1..] == u[1..] + v && (u + v)[0] == u[0]
  {
    assert forall c <- u[1..] :: c in u;
  }

  /** A plain piece is kept as it is. */
  lemma {:induction false} ErasePlain(p: Pattern, u: string, v: string)
    requires Plain(p, u)
    ensures Erase(p, u + v) == u + Erase(p, v)
    decreases |u|
  {
    if u == [] {
      assert u + v == v;
    } else {
      PlainNoMatch(p, u, v);
      PlainTail(p, u, v);
      ErasePlain(p, u[1..], v);
      assert u == [u[0]] + u[1..];
    }
  }

  /** A piece that p matches is deleted. */
  lemma EraseMatched(p: Pattern, m: string, v: string)
    requires MatchAt(p, m + v, 0) == Some(|m|)
    ensures Erase(p, m + v) == Erase(p, v)
  {
    assert (m + v)[|m|..] == v;
  }

  /** The scan goes over a plain piece without closing it. */
  lemma {:induction false} SplitPlain(p: Pattern, u: string, v: string, piece: string)
    requires Plain(p, u)
    ensures SplitRest(p, u + v, piece) == SplitRest(p, v, piece + u)
    decreases |u|
  {
    if u == [] {
      assert u + v == v && piece + u == piece;
    } else {
      PlainNoMatch(p, u, v);
      PlainTail(p, u, v);
      SplitPlain(p, u[1..], v, piece + [u[0]]);
      assert (piece + [u[0]]) + u[1..] == piece + u;
    }
  }

  /** A plain piece followed by a separator that p matches is one piece of the split. */
  lemma SplitPiece(p: Pattern, u: string, m: string, v: string)
    requires Plain(p, u) && MatchAt(p, m + v, 0) == Some(|m|)
    ensures Split(p, u + (m + v)) == [u] + Split(p, v)
  {
    SplitPlain(p, u, m + v, "");
    assert "" + u == u;
    assert (m + v)[|m|..] == v;
  }

  /** A plain last piece is the last piece of the split. */
  lemma SplitLast(p: Pattern, u: string)
    requires Plain(p, u)
    ensures Split(p, u) == [u]
  {
    SplitPlain(p, u, "", "");
    assert u + "" == u && "" + u == u;
  }

  /** A plain last piece is kept whole by removeAll. */
  lemma ErasePlainLast(p: Pattern, u: string)
    requires Plain(p, u)
    ensures Erase(p, u) == u
  {
    ErasePlain(p, u, "");
    assert u + "" == u;
  }

  /** A plain piece is kept and the match after it deleted. */
  lemma EraseWord(p: Pattern, u: string, m: string, v: string)
    requires Plain(p, u) && MatchAt(p, m + v, 0) == Some(|m|)
    ensures Erase(p, u + (m + v)) == u + Erase(p, v)
  {
    ErasePlain(p, u, m + v);
    EraseMatched(p, m, v);
  }

  /* ---------------------------------------------------------------- single matches */

  lemma RunEndAt(s: string, i: nat, j: nat, k: CharClass)
    requires i <= j <= |s|
    requires forall m :: i <= m < j ==> InClass(s[m], k)
    requires j < |s| ==> !InClass(s[j], k)
    ensures RunEnd(s, i, k) == j
  {
  }

  /** `(`, a run of capitals and spaces, `)` and a space. */
  lemma ActionSpaced(m: string, v: string)
    requires 4 <= |m| && m[0] == '(' && m[|m| - 2] == ')' && m[|m| - 1] == ' '
    requires forall i :: 1 <= i < |m| - 2 ==> InClass(m[i], ActionChars)
    ensures MatchAt(Action, m + v, 0) == Some(|m|)
  {
    var s := m + v;
    assert forall i :: 0 <= i < |m| ==> s[i] == m[i];
    RunEndAt(s, 1, |m| - 2, ActionChars);
  }

  /** `(`, a run of capitals and spaces, and `)` at the end of the text. */
  lemma ActionLast(m: string)
    requires 3 <= |m| && m[0] == '(' && m[|m| - 1] == ')'
    requires forall i :: 1 <= i < |m| - 1 ==> InClass(m[i], ActionChars)
    ensures MatchAt(Action, m, 0) == Some(|m|)
  {
    RunEndAt(m, 1, |m| - 1, ActionChars);
  }

  lemma {:induction false} LazyCloseAt(s: string, q: nat, from: nat, c: nat)
    requires q + 2 <= from <= c < |s| && s[c] == ']'
    requires forall i :: from <= i < c ==> s[i] != ']'
    requires forall i :: from - 1 <= i < c ==> !IsLineTerminator(s[i])
    ensures LazyClose(s, q, from) == Some(c)
    decreases c - from
  {
    if from < c {
      LazyCloseAt(s, q, from + 1, c);
    }
  }

  /** `[`, at least one character other than `]` and a line terminator, `]` and a space. */
  lemma AnnotationSpaced(m: string, v: string)
    requires 4 <= |m| && m[0] == '[' && m[|m| - 2] == ']' && m[|m| - 1] == ' '
    requires forall i :: 1 <= i < |m| - 2 ==> m[i] != ']' && !IsLineTerminator(m[i])
    ensures MatchAt(Annotation, m + v, 0) == Some(|m|)
  {
    var s := m + v;
    assert forall i :: 0 <= i < |m| ==> s[i] == m[i];
    LazyCloseAt(s, 0, 2, |m| - 2);
  }

  /* ---------------------------------------------------------------- test/regex.js */

  /** 'a\nb\r\nc' splits on /\r?\n/ into its three lines (test/regex.js:20-23). */
  lemma NewLineSplit()
    ensures Split(NewLine, "a" + ("\n" + ("b" + ("\r\n" + "c")))) == ["a", "b", "c"]
  {
    SplitLast(NewLine, "c");
    SplitPiece(NewLine, "b", "\r\n", "c");
    SplitPiece(NewLine, "a", "\n", "b" + ("\r\n" + "c"));
  }

  lemma StageDirections(v: string)
    ensures MatchAt(Action, "(LOUD APPLAUSE) " + v, 0) == Some(16)
    ensures MatchAt(Action, "(SILENCE) " + v, 0) == Some(10)
    ensures MatchAt(Action, "(LAUGHTER)", 0) == Some(10)
  {
    ActionSpaced("(LOUD APPLAUSE) ", v);
    ActionSpaced("(SILENCE) ", v);
    ActionLast("(LAUGHTER)");
  }

  /** The stage directions split a line into what is said around them (test/regex.js:26-30). */
  lemma ActionSplit()
    ensures Split(Action, "The " + ("(LOUD APPLAUSE) " + ("chicken " + ("(SILENCE) " + ("crossed " + "(LAUGHTER)")))))
         == ["The ", "chicken ", "crossed ", ""]
  {
    var last := "crossed " + "(LAUGHTER)";
    var rest := "chicken " + ("(SILENCE) " + last);
    StageDirections(last);
    StageDirections(rest);
    assert "(LAUGHTER)" + "" == "(LAUGHTER)";
    assert Split(Action, "") == [""];
    SplitPiece(Action, "crossed ", "(LAUGHTER)", "");
    SplitPiece(Action, "chicken ", "(SILENCE) ", last);
    SplitPiece(Action, "The ", "(LOUD APPLAUSE) ", rest);
  }

  lemma AnnotationLower(w: string)
    ensures MatchAt(Annotation, "[annotation] " + w, 0) == Some(13)
    ensures MatchAt(Annotation, "[actually really] " + w, 0) == Some(18)
  {
    AnnotationSpaced("[annotation] ", w);
    AnnotationSpaced("[actually really] ", w);
  }

  lemma AnnotationMixed(w: string)
    ensures MatchAt(Annotation, "[ANNOTATION #1] " + w, 0) == Some(16)
    ensures MatchAt(Annotation, "[AcTually really] " + w, 0) == Some(18)
  {
    AnnotationSpaced("[ANNOTATION #1] ", w);
    AnnotationSpaced("[AcTually really] ", w);
  }

  /** 'Information ', an annotation a, 'is ', an annotation b, then w: both annotations go. */
  lemma TwoAnnotations(a: string, b: string, w: string)
    requires Plain(Annotation, w)
    requires MatchAt(Annotation, b + w, 0) == Some(|b|)
    requires MatchAt(Annotation, a + ("is " + (b + w)), 0) == Some(|a|)
    ensures RemoveAll(Annotation, "Information " + (a + ("is " + (b + w)))) == "Information is " + w
  {
    RemoveAllIsErase(Annotation, "Information " + (a + ("is " + (b + w))));
    ErasePlainLast(Annotation, w);
    EraseWord(Annotation, "is ", b, w);
    EraseWord(Annotation, "Information ", a, "is " + (b + w));
    assert "Information " + ("is " + w) == "Information is " + w;
  }

  /**
   * Both annotations go, with the space after each (test/regex.js:46-49,
   * where the text that follows them is 'not...').
   */
  lemma AnnotationRemoved(w: string)
    requires Plain(Annotation, w)
    ensures RemoveAll(Annotation, "Information " + ("[annotation] " + ("is " + ("[actually really] " + w))))
         == "Information is " + w
  {
    AnnotationLower(w);
    AnnotationLower("is " + ("[actually really] " + w));
    TwoAnnotations("[annotation] ", "[actually really] ", w);
  }

  /** The same with other characters inside the brackets (test/regex.js:50-53). */
  lemma AnnotationOfAnyCaseRemoved(w: string)
    requires Plain(Annotation, w)
    ensures RemoveAll(Annotation, "Information " + ("[ANNOTATION #1] " + ("is " + ("[AcTually really] " + w))))
         == "Information is " + w
  {
    AnnotationMixed(w);
    AnnotationMixed("is " + ("[AcTually really] " + w));
    TwoAnnotations("[ANNOTATION #1] ", "[AcTually really] ", w);
  }

  lemma FirstStamp(v: string)
    ensures MatchAt(Timestamp, "[20:20:34] " + v, 0) == Some(11)
    ensures MatchAt(PaddedTimestamp, "[20:20:34] " + v, 0) == Some(11)
  {
  }

  lemma SecondStamp(v: string)
    ensures MatchAt(Timestamp, "[2:1:41] " + v, 0) == Some(9)
  {
  }

  lemma PaddedSecondStamp(v: string)
    ensures MatchAt(PaddedTimestamp, " [2:1:41] " + v, 0) == Some(10)
  {
  }

  /** The timestamped line of test/regex.js:57-61, where w is 'The...'. */
  function Berman(w: string): string {
    "[20:20:34] " + ("BERMAN:" + (" " + ("[2:1:41] " + w)))
  }

  /**
   * With the timestamp pattern of app.js:27 the space before the second
   * stamp stays, so the line does not become the 'BERMAN:The...' that
   * test/regex.js:60 expects.
   */
  lemma TimestampKeepsSpace(w: string)
    requires Plain(Timestamp, w)
    ensures RemoveAll(Timestamp, Berman(w)) == "BERMAN: " + w
    ensures RemoveAll(Timestamp, Berman(w)) != "BERMAN:" + w
  {
    var t3 := "[2:1:41] " + w;
    var t1 := "BERMAN:" + (" " + t3);
    RemoveAllIsErase(Timestamp, Berman(w));
    ErasePlainLast(Timestamp, w);
    SecondStamp(w);
    EraseWord(Timestamp, " ", "[2:1:41] ", w);
    ErasePlain(Timestamp, "BERMAN:", " " + t3);
    FirstStamp(t1);
    EraseMatched(Timestamp, "[20:20:34] ", t1);
    assert "BERMAN:" + (" " + w) == "BERMAN: " + w;
  }

  lemma BermanRegrouped(w: string)
    ensures Berman(w) == "[20:20:34] " + ("BERMAN:" + (" [2:1:41] " + w))
  {
    assert " " + ("[2:1:41] " + w) == " [2:1:41] " + w;
  }

  /** With the padded pattern of lib/parser.js:26 the line becomes what the test expects. */
  lemma PaddedTimestampRemoved(w: string)
    requires Plain(PaddedTimestamp, w)
    ensures RemoveAll(PaddedTimestamp, Berman(w)) == "BERMAN:" + w
  {
    var t1 := "BERMAN:" + (" [2:1:41] " + w);
    BermanRegrouped(w);
    RemoveAllIsErase(PaddedTimestamp, "[20:20:34] " + t1);
    ErasePlainLast(PaddedTimestamp, w);
    PaddedSecondStamp(w);
    EraseWord(PaddedTimestamp, "BERMAN:", " [2:1:41] ", w);
    FirstStamp(t1);
    EraseMatched(PaddedTimestamp, "[20:20:34] ", t1);
  }

  /* ---------------------------------------------------------------- speaker labels */

  lemma CooperText(w: string)
    ensures var s := "COOPER" + (":  " + w);
      && (forall i :: 0 <= i < 6 ==> s[i] == "COOPER"[i])
      && s[6] == ':' && s[7] == ' ' && s[8] == ' ' && s[..6] == "COOPER"
  {
    assert ("COOPER" + (":  " + w))[..|"COOPER"|] == "COOPER";
  }

  /** test/regex.js:33-36: 'COOPER:  How though?' is labelled COOPER by the greedy pattern of app.js:26 ... */
  lemma CooperGreedyLabel(w: string)
    ensures SpeakerLabel(Greedy, "COOPER" + (":  " + w)) == Some(Label("COOPER", 8))
  {
    var s := "COOPER" + (":  " + w);
    CooperText(w);
    RunEndAt(s, 0, 6, NameChars);
    assert GreedyName(s, 0, 6) == Some(Label("COOPER", 8));
  }

  /** ... and by the lazy pattern of lib/parser.js:25. */
  lemma CooperLazyLabel(w: string)
    ensures SpeakerLabel(Lazy, "COOPER" + (":  " + w)) == Some(Label("COOPER", 8))
  {
    var s := "COOPER" + (":  " + w);
    CooperText(w);
    assert forall e :: 1 <= e < 6 ==> AsideTail(s, e).None?;
    assert LazyName(s, 0, 6) == Some(Label("COOPER", 8));
    assert LazyName(s, 0, 4) == LazyName(s, 0, 6);
    assert LazyName(s, 0, 2) == LazyName(s, 0, 4);
  }

  /** The name of test/regex.js:38, in pieces. */
  const JoAnn := "JO-ANN " + ("ARMAO " + ("(ASSOCIATE " + ("EDITORIAL " + ("PAGE " + "EDITOR)"))))

  lemma JoAnnChars()
    ensures |JoAnn| == 46 && forall c <- JoAnn :: InClass(c, NameChars)
  {
    assert forall c <- "PAGE " + "EDITOR)" :: InClass(c, NameChars);
    assert forall c <- "EDITORIAL " + ("PAGE " + "EDITOR)") :: InClass(c, NameChars);
    assert forall c <- "(ASSOCIATE " + ("EDITORIAL " + ("PAGE " + "EDITOR)")) :: InClass(c, NameChars);
    assert forall c <- "ARMAO " + ("(ASSOCIATE " + ("EDITORIAL " + ("PAGE " + "EDITOR)"))) :: InClass(c, NameChars);
    assert forall c <- "JO-ANN " + ("ARMAO " + ("(ASSOCIATE " + ("EDITORIAL " + ("PAGE " + "EDITOR)")))) :: InClass(c, NameChars);
  }

  /** test/regex.js:38-39: the greedy name takes the dash and the parenthesised title. */
  lemma JoAnnLabel(w: string)
    ensures SpeakerLabel(Greedy, JoAnn + (": " + w)) == Some(Label(JoAnn, 48))
  {
    var m := JoAnn;
    var s := m + (": " + w);
    JoAnnChars();
    assert forall i :: 0 <= i < 46 ==> s[i] == m[i] && m[i] in m;
    assert s[46] == ':' && s[47] == ' ';
    assert (m + (": " + w))[..|m|] == m;
    RunEndAt(s, 0, 46, NameChars);
  }

  lemma {:induction false} GreedyBracketAt(s: string, o: nat, c: nat, c0: nat)
    requires o + 2 <= c0 <= c <= |s| && c0 + 1 < |s| && s[c0] == ']' && s[c0 + 1] == ':'
    requires forall k :: c0 < k <= c && k < |s| ==> s[k] != ']'
    ensures GreedyBracket(s, o, c) == Some(OptSpace(s, c0 + 2))
    decreases c
  {
    if c > c0 {
      GreedyBracketAt(s, o, c - 1, c0);
    }
  }

  /** The name of test/regex.js:40, in pieces. */
  const Corey := "COREY " + ("LEWANDOWSKI, " + ("TRUMP 2016 " + ("CAMPAIGN " + "MANAGER")))

  lemma CoreyChars()
    ensures |Corey| == 46 && forall c <- Corey :: InClass(c, NameChars)
  {
    assert forall c <- "CAMPAIGN " + "MANAGER" :: InClass(c, NameChars);
    assert forall c <- "TRUMP 2016 " + ("CAMPAIGN " + "MANAGER") :: InClass(c, NameChars);
    assert forall c <- "LEWANDOWSKI, " + ("TRUMP 2016 " + ("CAMPAIGN " + "MANAGER")) :: InClass(c, NameChars);
    assert forall c <- "COREY " + ("LEWANDOWSKI, " + ("TRUMP 2016 " + ("CAMPAIGN " + "MANAGER"))) :: InClass(c, NameChars);
  }

  lemma AsideText(w: string)
    requires ']' !in w
    ensures var r := " [to Trump]: " + w;
      && |r| == 13 + |w| && r[0] == ' ' && r[1] == '[' && r[10] == ']' && r[11] == ':' && r[12] == ' '
      && (forall i :: 2 <= i < 11 ==> InClass(r[i], LineChars))
      && (forall k :: 10 < k < |r| ==> r[k] != ']')
  {
    var t := " [to Trump]: ";
    var r := t + w;
    assert forall i :: 0 <= i < 13 ==> r[i] == t[i];
    assert forall k :: 13 <= k < |r| ==> r[k] == w[k - 13] && w[k - 13] in w;
  }

  lemma CoreyText(w: string)
    requires ']' !in w
    ensures var s := Corey + (" [to Trump]: " + w);
      && |s| == 59 + |w| && s[..46] == Corey
      && (forall i :: 0 <= i < 47 ==> InClass(s[i], NameChars)) && s[47] == '['
      && s[46] == ' ' && s[56] == ']' && s[57] == ':' && s[58] == ' '
      && (forall i :: 48 <= i < 57 ==> InClass(s[i], LineChars))
      && (forall k :: 56 < k < |s| ==> s[k] != ']')
  {
    var m, r := Corey, " [to Trump]: " + w;
    var s := m + r;
    CoreyChars();
    AsideText(w);
    assert forall i :: 0 <= i < 46 ==> s[i] == m[i] && m[i] in m;
    assert forall i :: 0 <= i < |r| ==> s[46 + i] == r[i];
    assert (m + r)[..|m|] == m;
  }

  /**
   * test/regex.js:40-41: the name gives back its last space so that the
   * bracketed aside and the colon can match; the aside is not part of it.
   */
  lemma CoreyLabel(w: string)
    requires ']' !in w
    ensures SpeakerLabel(Greedy, Corey + (" [to Trump]: " + w)) == Some(Label(Corey, 59))
  {
    var s := Corey + (" [to Trump]: " + w);
    CoreyText(w);
    RunEndAt(s, 0, 47, NameChars);
    var j := RunEnd(s, 48, LineChars);
    assert j >= 57;
    GreedyBracketAt(s, 47, j, 56);
    assert BracketTail(s, 47).None?;
    assert GreedyName(s, 0, 47) == GreedyName(s, 0, 46);
  }
}
