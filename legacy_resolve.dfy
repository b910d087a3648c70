/**
 * What `resolveAliasesSync` of app.js:148-186 does to the speaker object.
 *
 * `for (var speaker in speakers)` walks the keys the object has when the
 * walk starts, and passes over a key deleted before its turn.  Every alias
 * is tried at every visited key; the first pattern that matches the key
 * (there is no check that the key differs from the canonical name) appends
 * the key's list, read afresh from the object, to the canonical list and
 * deletes the key; `break` ends only the pattern loop.  A key read after its
 * deletion gives `undefined`, which `_.concat` appends as one element and
 * which the `?:` treats as a missing list.
 */
module LegacyResolve {
  import opened Records
  import Resolve

  /** An element of a speaker's list: a line, or the `undefined` that `_.concat` appends. */
  datatype Elem = Text(line: string) | Hole

  /** A value of the speaker object: a list, or `undefined`. */
  datatype Slot = Lines(elems: seq<Elem>) | Undefined

  /** `speakers[k]`: undefined for a missing key. */
  function Get(t: Keyed<Slot>, k: string): Slot {
    if k in t.speaker then t.speaker[k] else Undefined
  }

  /** `_.concat(list, v)`: the elements of an array value, or the value itself as one element. */
  function Concat(e: seq<Elem>, v: Slot): seq<Elem> {
    match v
    case Lines(f) => e + f
    case Undefined => e + [Hole]
  }

  /** One alias's turn at a key (app.js:155-168). */
  function Absorb(t: Keyed<Slot>, key: string, a: Alias): Keyed<Slot> {
    if Matches(a, key) then
      var v := match Get(t, a.name)
        case Lines(e) => Lines(Concat(e, Get(t, key)))
        case Undefined => Get(t, key);
      WithoutKey(WithKey(t, a.name, v), key)
    else t
  }

  /** Some alias's pattern matches the key. */
  predicate Matched(aliases: seq<Alias>, key: string) {
    exists j :: 0 <= j < |aliases| && Matches(aliases[j], key)
  }

  /**
   * All aliases' turns at one key (app.js:154-170): a key that any pattern
   * matches is gone afterwards, its own canonical name included.
   */
  function MergeKey(t: Keyed<Slot>, key: string, aliases: seq<Alias>): (r: Keyed<Slot>)
    ensures Matched(aliases, key) ==> key !in r.speaker
    ensures !Matched(aliases, key) ==> r == t
    ensures forall k :: k in t.speaker && k != key ==> k in r.speaker
    decreases |aliases|
  {
    if aliases == [] then t
    else
      assert forall j :: 1 <= j < |aliases| ==> aliases[j] == aliases[1..][j - 1];
      MergeKey(Absorb(t, key, aliases[0]), key, aliases[1..])
  }

  /** The for-in walk over the keys listed when it starts (app.js:153-171). */
  function MergeAll(t: Keyed<Slot>, ks: seq<string>, aliases: seq<Alias>): Keyed<Slot>
    decreases |ks|
  {
    if ks == [] then t
    else MergeAll(if ks[0] in t.speaker then MergeKey(t, ks[0], aliases) else t, ks[1..], aliases)
  }

  /** One step of the walk: a key still present is merged, one already deleted is passed over. */
  lemma MergeAllStep(t: Keyed<Slot>, ks: seq<string>, aliases: seq<Alias>)
    requires ks != []
    ensures MergeAll(t, ks, aliases) == MergeAll(if ks[0] in t.speaker then MergeKey(t, ks[0], aliases) else t, ks[1..], aliases)
  {
  }

  /** With no aliases configured nothing is merged (app.js:150). */
  lemma {:induction false} MergeAllWithoutAliases(t: Keyed<Slot>, ks: seq<string>)
    ensures MergeAll(t, ks, []) == t
    decreases |ks|
  {
    if ks != [] {
      MergeAllWithoutAliases(t, ks[1..]);
    }
  }

  /** A matching key's list goes behind the canonical list, and the key is deleted (app.js:161-166). */
  lemma AbsorbAppends(t: Keyed<Slot>, key: string, a: Alias, e: seq<Elem>, f: seq<Elem>)
    requires Matches(a, key) && key != a.name
    requires Get(t, a.name) == Lines(e) && Get(t, key) == Lines(f)
    ensures var r := Absorb(t, key, a); r.speaker == (t.speaker - {key})[a.name := Lines(e + f)]
  {
    var r := Absorb(t, key, a);
    assert r.speaker == t.speaker[a.name := Lines(e + f)] - {key};
  }

  /* ---------------------------------------------------------------- the record from the parser */

  function LiftLines(ls: seq<string>): (r: Slot)
    ensures r.Lines? && |r.elems| == |ls| && forall i :: 0 <= i < |ls| ==> r.elems[i] == Text(ls[i])
  {
    Lines(seq(|ls|, i requires 0 <= i < |ls| => Text(ls[i])))
  }

  /** The parser's speaker object, seen as the resolver's values. */
  function Lift(t: Keyed<seq<string>>): (r: Keyed<Slot>)
    ensures r.keys == t.keys && r.speaker.Keys == t.speaker.Keys
    ensures forall k :: k in t.speaker ==> r.speaker[k] == LiftLines(t.speaker[k])
  {
    Keyed(map k | k in t.speaker :: LiftLines(t.speaker[k]), t.keys)
  }

  lemma LiftWithKey(t: Keyed<seq<string>>, n: string, v: seq<string>)
    ensures Lift(WithKey(t, n, v)) == WithKey(Lift(t), n, LiftLines(v))
  {
    assert Lift(WithKey(t, n, v)).speaker == WithKey(Lift(t), n, LiftLines(v)).speaker;
  }

  lemma LiftWithoutKey(t: Keyed<seq<string>>, n: string)
    ensures Lift(WithoutKey(t, n)) == WithoutKey(Lift(t), n)
  {
    assert Lift(WithoutKey(t, n)).speaker == WithoutKey(Lift(t), n).speaker;
  }

  /** Appending behind, on lines and on lifted lists. */
  lemma LiftBehind(e: seq<string>, f: seq<string>)
    ensures LiftLines(Resolve.Place(Resolve.Back, f, e)) == Lines(Concat(LiftLines(e).elems, LiftLines(f)))
  {
  }

  /** No alias's pattern claims the key twice, or its own canonical name. */
  predicate Clear(aliases: seq<Alias>, key: string) {
    && Resolve.Unambiguous(aliases, key)
    && forall j :: 0 <= j < |aliases| && Matches(aliases[j], key) ==> aliases[j].name != key
  }

  lemma AbsorbLifted(t: Keyed<seq<string>>, key: string, a: Alias)
    requires key in t.speaker && (Matches(a, key) ==> key != a.name)
    ensures Absorb(Lift(t), key, a) == Lift(Resolve.Absorb(t, key, t.speaker[key], a, Resolve.Back))
  {
    if Matches(a, key) {
      var lines := t.speaker[key];
      var merged := if a.name in t.speaker then Resolve.Place(Resolve.Back, lines, t.speaker[a.name]) else lines;
      if a.name in t.speaker {
        LiftBehind(t.speaker[a.name], lines);
      }
      LiftWithKey(t, a.name, merged);
      LiftWithoutKey(WithKey(t, a.name, merged), key);
    }
  }

  lemma {:induction false} MergeKeyLifted(t: Keyed<seq<string>>, key: string, lines: seq<string>, aliases: seq<Alias>)
    requires key in t.speaker && lines == t.speaker[key] && Clear(aliases, key)
    ensures MergeKey(Lift(t), key, aliases) == Lift(Resolve.MergeKey(t, key, lines, aliases, Resolve.Back))
    decreases |aliases|
  {
    if aliases != [] {
      var a, tail := aliases[0], aliases[1..];
      assert forall j :: 1 <= j < |aliases| ==> aliases[j] == tail[j - 1];
      AbsorbLifted(t, key, a);
      if Matches(a, key) {
        assert !Matched(tail, key) && !Resolve.Absorbed(tail, key) by {
          forall j | 0 <= j < |tail| ensures !Matches(tail[j], key) {
            assert aliases[j + 1] == tail[j];
            assert Resolve.Absorbs(aliases[0], key);
            assert !Resolve.Absorbs(aliases[j + 1], key);
          }
        }
      } else {
        assert Clear(tail, key);
        MergeKeyLifted(t, key, lines, tail);
      }
    }
  }

  /**
   * Where no key is claimed twice or by its own canonical name, the legacy
   * walk does what the guarded, captured-lines walk does with the lines
   * appended behind.
   */
  lemma {:induction false} MergeAllLifted(t: Keyed<seq<string>>, ks: seq<string>, aliases: seq<Alias>)
    requires Distinct(ks) && forall k <- ks :: k in t.speaker && Clear(aliases, k)
    ensures MergeAll(Lift(t), ks, aliases) == Lift(Resolve.MergeAll(t, ks, aliases, Resolve.Back))
    decreases |ks|
  {
    if ks != [] {
      var key := ks[0];
      var next := Resolve.MergeKey(t, key, t.speaker[key], aliases, Resolve.Back);
      MergeKeyLifted(t, key, t.speaker[key], aliases);
      Resolve.DistinctTail(ks);
      MergeAllLifted(next, ks[1..], aliases);
    }
  }

  /* ---------------------------------------------------------------- what the code loses */

  /** A canonical name that matches its own pattern loses its lines (app.js:158-166). */
  lemma SelfMatchLosesLines()
    ensures var a := Alias("TRUMP", [(n: string) => n == "TRUMP"]);
      var t := Keyed(map["TRUMP" := Lines([Text("x")])], ["TRUMP"]);
      MergeAll(t, ["TRUMP"], [a]).speaker == map[]
  {
    var a := Alias("TRUMP", [(n: string) => n == "TRUMP"]);
    assert a.patterns[0]("TRUMP");
    assert Matches(a, "TRUMP");
  }

  /** The guarded walk leaves such a name alone. */
  lemma SelfMatchKeptWhenGuarded()
    ensures var a := Alias("TRUMP", [(n: string) => n == "TRUMP"]);
      var t := Keyed(map["TRUMP" := ["x"]], ["TRUMP"]);
      Resolve.MergeAll(t, ["TRUMP"], [a], Resolve.Back) == t
  {
    var a := Alias("TRUMP", [(n: string) => n == "TRUMP"]);
    assert !Resolve.Absorbed([a], "TRUMP");
  }

  /** A key claimed by two aliases gives the second one `undefined` (app.js:161-164). */
  lemma SecondClaimGetsUndefined()
    ensures var p := (n: string) => n == "X";
      var t := Keyed(map["X" := Lines([Text("x")])], ["X"]);
      MergeAll(t, ["X"], [Alias("A", [p]), Alias("B", [p])]).speaker == map["A" := Lines([Text("x")]), "B" := Undefined]
  {
    var p := (n: string) => n == "X";
    var a, b := Alias("A", [p]), Alias("B", [p]);
    assert a.patterns[0]("X") && b.patterns[0]("X");
    var t := Keyed(map["X" := Lines([Text("x")])], ["X"]);
    var t1 := Absorb(t, "X", a);
    assert t1.speaker == map["A" := Lines([Text("x")])];
    var t2 := Absorb(t1, "X", b);
    assert t2.speaker == map["A" := Lines([Text("x")]), "B" := Undefined];
    assert [b][1..] == [];
    assert MergeKey(t, "X", [a, b]) == MergeKey(t1, "X", [b]) == t2;
  }
}
