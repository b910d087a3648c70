/**
 * What `resolveAliasesSync` of lib/parser.js:169-209 does to the speaker
 * object.  lodash's `_.each` over an object takes the list of keys once, up
 * front, and reads each value when it comes to it; so the keys visited are
 * those of the object when the merge starts, and a visited key's lines are
 * its lines at that moment.  For each visited key, every configured alias is
 * tried in turn, and the first pattern of an alias that matches the key
 * makes the key's lines go in front of that alias's canonical list;
 * `return false` ends only the pattern loop, so a key can be copied into
 * several canonical lists.
 */
module Resolve {
  import opened Records

  /** Where a merged key's lines go in the canonical list: in front (lib/parser.js:180) or behind (app.js:161-162). */
  datatype Side = Front | Back

  function Place(side: Side, lines: seq<string>, existing: seq<string>): (r: seq<string>)
    ensures multiset(r) == multiset(lines) + multiset(existing)
  {
    match side
    case Front => lines + existing
    case Back => existing + lines
  }

  /** The alias's pattern matches the key and the key is not its canonical name (lib/parser.js:178). */
  predicate Absorbs(a: Alias, key: string) {
    Matches(a, key) && key != a.name
  }

  /** Some alias absorbs the key. */
  predicate Absorbed(aliases: seq<Alias>, key: string) {
    exists j :: 0 <= j < |aliases| && Absorbs(aliases[j], key)
  }

  predicate IsCanonical(aliases: seq<Alias>, name: string) {
    exists j :: 0 <= j < |aliases| && aliases[j].name == name
  }

  /** No key is absorbed by two aliases. */
  predicate Unambiguous(aliases: seq<Alias>, key: string) {
    forall i, j :: 0 <= i < |aliases| && 0 <= j < |aliases| && Absorbs(aliases[i], key) && Absorbs(aliases[j], key) ==> i == j
  }

  /** The alias's turn at the key (lib/parser.js:176-191): `lines` is the key's list as it was when the key was reached. */
  function Absorb(t: Keyed<seq<string>>, key: string, lines: seq<string>, a: Alias, side: Side): Keyed<seq<string>> {
    if Absorbs(a, key) then
      var merged := if a.name in t.speaker then Place(side, lines, t.speaker[a.name]) else lines;
      WithoutKey(WithKey(t, a.name, merged), key)
    else t
  }

  /**
   * A claimed key is deleted and its lines go in front of the canonical list,
   * which is created from them if it is missing (lib/parser.js:178-188).
   */
  lemma AbsorbPrepends(t: Keyed<seq<string>>, key: string, lines: seq<string>, a: Alias)
    requires Absorbs(a, key)
    ensures var r := Absorb(t, key, lines, a, Front);
      r.speaker == (t.speaker - {key})[a.name := if a.name in t.speaker then lines + t.speaker[a.name] else lines]
  {
    var merged := if a.name in t.speaker then lines + t.speaker[a.name] else lines;
    assert Absorb(t, key, lines, a, Front).speaker == t.speaker[a.name := merged] - {key};
  }

  /**
   * All aliases' turns at one key (lib/parser.js:175-193): the key is gone
   * exactly when some alias absorbs it, nothing else is deleted, and only
   * canonical names are added.
   */
  function MergeKey(t: Keyed<seq<string>>, key: string, lines: seq<string>, aliases: seq<Alias>, side: Side): (r: Keyed<seq<string>>)
    ensures forall k :: k in r.speaker ==> k in t.speaker || IsCanonical(aliases, k)
    ensures forall k :: k in t.speaker && k != key ==> k in r.speaker
    ensures Absorbed(aliases, key) ==> key !in r.speaker
    ensures !Absorbed(aliases, key) ==> r == t
    decreases |aliases|
  {
    if aliases == [] then t
    else
      var rest := MergeKey(Absorb(t, key, lines, aliases[0], side), key, lines, aliases[1..], side);
      assert forall j :: 1 <= j < |aliases| ==> aliases[j] == aliases[1..][j - 1];
      assert forall k :: IsCanonical(aliases[1..], k) ==> IsCanonical(aliases, k);
      rest
  }

  /**
   * The walk over the keys listed when the merge starts (lib/parser.js:174-194).
   * Every listed key is still there when it is reached, since a key is only
   * deleted while it is being visited.
   */
  function MergeAll(t: Keyed<seq<string>>, ks: seq<string>, aliases: seq<Alias>, side: Side): (r: Keyed<seq<string>>)
    requires Distinct(ks) && forall k <- ks :: k in t.speaker
    ensures forall k :: k in r.speaker ==> k in t.speaker || IsCanonical(aliases, k)
    ensures forall k :: k in t.speaker && k !in ks ==> k in r.speaker
    ensures forall k <- ks :: !Absorbed(aliases, k) ==> k in r.speaker
    ensures forall k <- ks :: Absorbed(aliases, k) && !IsCanonical(aliases, k) ==> k !in r.speaker
    decreases |ks|
  {
    if ks == [] then t
    else
      var key := ks[0];
      var next := MergeKey(t, key, t.speaker[key], aliases, side);
      assert forall k <- ks[1..] :: k != key by {
        forall i | 0 <= i < |ks| - 1 ensures ks[1..][i] != key {
          assert ks[1..][i] == ks[i + 1];
        }
      }
      assert Distinct(ks[1..]);
      MergeAll(next, ks[1..], aliases, side)
  }

  /** One step of the walk: the first key is merged with the lines it holds when it is reached. */
  lemma MergeAllStep(t: Keyed<seq<string>>, ks: seq<string>, aliases: seq<Alias>, side: Side)
    requires ks != [] && Distinct(ks) && forall k <- ks :: k in t.speaker
    ensures Distinct(ks[1..]) && forall k <- ks[1..] :: k in MergeKey(t, ks[0], t.speaker[ks[0]], aliases, side).speaker
    ensures MergeAll(t, ks, aliases, side) == MergeAll(MergeKey(t, ks[0], t.speaker[ks[0]], aliases, side), ks[1..], aliases, side)
  {
    DistinctTail(ks);
  }

  /** Merging keeps the object's key list exact. */
  lemma {:induction false} MergeKeyWellKeyed(t: Keyed<seq<string>>, key: string, lines: seq<string>, aliases: seq<Alias>, side: Side)
    requires WellKeyed(t)
    ensures WellKeyed(MergeKey(t, key, lines, aliases, side))
    decreases |aliases|
  {
    if aliases != [] {
      var a := aliases[0];
      if Absorbs(a, key) {
        var merged := if a.name in t.speaker then Place(side, lines, t.speaker[a.name]) else lines;
        WithKeyWellKeyed(t, a.name, merged);
        WithoutKeyWellKeyed(WithKey(t, a.name, merged), key);
      }
      MergeKeyWellKeyed(Absorb(t, key, lines, a, side), key, lines, aliases[1..], side);
    }
  }

  lemma {:induction false} MergeAllWellKeyed(t: Keyed<seq<string>>, ks: seq<string>, aliases: seq<Alias>, side: Side)
    requires WellKeyed(t) && Distinct(ks) && forall k <- ks :: k in t.speaker
    ensures WellKeyed(MergeAll(t, ks, aliases, side))
    decreases |ks|
  {
    if ks != [] {
      MergeKeyWellKeyed(t, ks[0], t.speaker[ks[0]], aliases, side);
      assert forall k <- ks[1..] :: k in ks;
      assert Distinct(ks[1..]);
      MergeAllWellKeyed(MergeKey(t, ks[0], t.speaker[ks[0]], aliases, side), ks[1..], aliases, side);
    }
  }

  lemma DistinctTail(ks: seq<string>)
    requires Distinct(ks) && ks != []
    ensures Distinct(ks[1..]) && forall k <- ks[1..] :: k in ks && k != ks[0]
  {
    forall k | k in ks[1..] ensures k in ks && k != ks[0] {
      var i :| 0 <= i < |ks| - 1 && ks[1..][i] == k;
      assert ks[i + 1] == k;
    }
  }

  /** The alias, if any, that absorbs the key under a configuration in which at most one does. */
  lemma {:induction false} MergeKeyOnce(t: Keyed<seq<string>>, key: string, lines: seq<string>, aliases: seq<Alias>, j: nat, side: Side)
    requires j < |aliases| && Absorbs(aliases[j], key)
    requires Unambiguous(aliases, key)
    ensures MergeKey(t, key, lines, aliases, side) == Absorb(t, key, lines, aliases[j], side)
    decreases |aliases|
  {
    var tail := aliases[1..];
    assert forall i :: 1 <= i < |aliases| ==> aliases[i] == tail[i - 1];
    if j == 0 {
      assert !Absorbed(tail, key);
    } else {
      assert !Absorbs(aliases[0], key);
      MergeKeyOnce(t, key, lines, tail, j - 1, side);
    }
  }

  /** Merging at a key shrinks no other list: each keeps its lines and may gain more. */
  lemma {:induction false} MergeKeyGrows(t: Keyed<seq<string>>, key: string, lines: seq<string>, aliases: seq<Alias>, side: Side, n: string)
    requires n in t.speaker && n != key
    ensures var r := MergeKey(t, key, lines, aliases, side); n in r.speaker && multiset(t.speaker[n]) <= multiset(r.speaker[n])
    decreases |aliases|
  {
    if aliases != [] {
      var next := Absorb(t, key, lines, aliases[0], side);
      assert n in next.speaker && multiset(t.speaker[n]) <= multiset(next.speaker[n]);
      MergeKeyGrows(next, key, lines, aliases[1..], side, n);
    }
  }

  /** Every alias that absorbs the key receives the key's lines, however many do (lib/parser.js:176-190). */
  lemma {:induction false} MergeKeyDelivers(t: Keyed<seq<string>>, key: string, lines: seq<string>, aliases: seq<Alias>, side: Side, j: nat)
    requires j < |aliases| && Absorbs(aliases[j], key)
    ensures var r := MergeKey(t, key, lines, aliases, side);
      aliases[j].name in r.speaker && multiset(lines) <= multiset(r.speaker[aliases[j].name])
    decreases |aliases|
  {
    var next := Absorb(t, key, lines, aliases[0], side);
    if j == 0 {
      var n := aliases[0].name;
      assert n in next.speaker && multiset(lines) <= multiset(next.speaker[n]);
      MergeKeyGrows(next, key, lines, aliases[1..], side, n);
    } else {
      assert aliases[1..][j - 1] == aliases[j];
      MergeKeyDelivers(next, key, lines, aliases[1..], side, j - 1);
    }
  }

  /* ---------------------------------------------------------------- conservation of lines */

  /** Pools over appended key lists add up. */
  lemma {:induction false} PoolConcat(m: map<string, seq<string>>, a: seq<string>, b: seq<string>)
    ensures Pool(m, a + b) == Pool(m, a) + Pool(m, b)
    decreases |b|
  {
    if b == [] {
      assert a + b == a;
    } else {
      var init := b[..|b| - 1];
      PoolConcat(m, a, init);
      assert (a + b)[..|a + b| - 1] == a + init;
      assert (a + b)[|a + b| - 1] == b[|b| - 1];
    }
  }

  /** Two maps that agree on the listed keys have the same pool. */
  lemma {:induction false} PoolAgree(m: map<string, seq<string>>, m': map<string, seq<string>>, ks: seq<string>)
    requires forall k <- ks :: (k in m <==> k in m') && (k in m ==> m[k] == m'[k])
    ensures Pool(m, ks) == Pool(m', ks)
    decreases |ks|
  {
    if ks != [] {
      PoolAgree(m, m', ks[..|ks| - 1]);
    }
  }

  lemma PoolSingle(m: map<string, seq<string>>, x: string)
    ensures Pool(m, [x]) == if x in m then multiset(m[x]) else multiset{}
  {
    assert [x][..0] == [];
  }

  /** Dropping a key that is listed once drops its lines from the pool. */
  lemma {:induction false} PoolWithout(m: map<string, seq<string>>, ks: seq<string>, k: string)
    requires Distinct(ks) && k in ks && k in m
    ensures Pool(m, ks) == Pool(m, Without(ks, k)) + multiset(m[k])
    decreases |ks|
  {
    var x, rest := ks[0], ks[1..];
    assert ks == [x] + rest;
    PoolConcat(m, [x], rest);
    PoolSingle(m, x);
    var w := Without(ks, k);
    if x == k {
      assert k !in rest by {
        forall i | 0 <= i < |rest| ensures rest[i] != k {
          assert rest[i] == ks[i + 1];
        }
      }
      assert w == Without(rest, k) == rest;
    } else {
      assert Distinct(rest);
      assert k in rest;
      PoolWithout(m, rest, k);
      assert w == [x] + Without(rest, k);
      PoolConcat(m, [x], Without(rest, k));
      var a, b, c := Pool(m, [x]), Pool(m, Without(rest, k)), multiset(m[k]);
      assert Pool(m, ks) == a + (b + c) && Pool(m, w) == a + b;
      assert forall e :: (a + (b + c))[e] == (a + b + c)[e];
    }
  }

  /** Growing the canonical list by the key's lines adds them to the pool. */
  lemma AbsorbGrows(t: Keyed<seq<string>>, name: string, lines: seq<string>, side: Side)
    requires WellKeyed(t)
    ensures var t1 := WithKey(t, name, if name in t.speaker then Place(side, lines, t.speaker[name]) else lines);
      Pool(t1.speaker, t1.keys) == Pool(t.speaker, t.keys) + multiset(lines)
  {
    if name in t.speaker {
      var old_ := t.speaker[name];
      var merged := Place(side, lines, old_);
      var t1 := WithKey(t, name, merged);
      PoolOfUpdatedKey(t.speaker, t.keys, name, merged);
      assert multiset(merged) == multiset(old_) + multiset(lines);
      Cancel(Pool(t1.speaker, t1.keys), Pool(t.speaker, t.keys), multiset(old_), multiset(lines));
    } else {
      var t1 := WithKey(t, name, lines);
      assert t1.keys == t.keys + [name];
      assert t1.keys[..|t1.keys| - 1] == t.keys;
      assert name !in t.keys;
      PoolAgree(t.speaker, t1.speaker, t.keys);
    }
  }

  /** Deleting a key drops its lines from the pool. */
  lemma AbsorbDrops(t1: Keyed<seq<string>>, key: string)
    requires WellKeyed(t1) && key in t1.speaker
    ensures var t2 := WithoutKey(t1, key);
      Pool(t2.speaker, t2.keys) + multiset(t1.speaker[key]) == Pool(t1.speaker, t1.keys)
  {
    var t2 := WithoutKey(t1, key);
    PoolWithout(t1.speaker, t1.keys, key);
    PoolAgree(t1.speaker, t2.speaker, t2.keys);
  }

  /** Absorbing a key whose lines are its current list moves them, and loses or copies none. */
  lemma {:induction false} AbsorbConserves(t: Keyed<seq<string>>, key: string, a: Alias, side: Side)
    requires WellKeyed(t) && key in t.speaker && Absorbs(a, key)
    ensures var r := Absorb(t, key, t.speaker[key], a, side); Pool(r.speaker, r.keys) == Pool(t.speaker, t.keys)
  {
    var lines := t.speaker[key];
    var merged := if a.name in t.speaker then Place(side, lines, t.speaker[a.name]) else lines;
    var t1 := WithKey(t, a.name, merged);
    var t2 := WithoutKey(t1, key);
    assert Absorb(t, key, lines, a, side) == t2;
    AbsorbGrows(t, a.name, lines, side);
    WithKeyWellKeyed(t, a.name, merged);
    assert WellKeyed(t1) && key in t1.speaker && t1.speaker[key] == lines;
    AbsorbDrops(t1, key);
    var p2, p, l := Pool(t2.speaker, t2.keys), Pool(t.speaker, t.keys), multiset(lines);
    CancelRight(p2, p, l);
  }

  /**
   * When no listed key is absorbed by two aliases, merging moves lines between
   * speakers and neither loses nor duplicates any.
   */
  lemma {:induction false} MergeAllConserves(t: Keyed<seq<string>>, ks: seq<string>, aliases: seq<Alias>, side: Side)
    requires WellKeyed(t) && Distinct(ks) && forall k <- ks :: k in t.speaker
    requires forall k <- ks :: Unambiguous(aliases, k)
    ensures var r := MergeAll(t, ks, aliases, side); Pool(r.speaker, r.keys) == Pool(t.speaker, t.keys)
    decreases |ks|
  {
    if ks != [] {
      var key, rest := ks[0], ks[1..];
      var next := MergeKey(t, key, t.speaker[key], aliases, side);
      assert MergeAll(t, ks, aliases, side) == MergeAll(next, rest, aliases, side);
      if Absorbed(aliases, key) {
        var j :| 0 <= j < |aliases| && Absorbs(aliases[j], key);
        MergeKeyOnce(t, key, t.speaker[key], aliases, j, side);
        AbsorbConserves(t, key, aliases[j], side);
      }
      assert Pool(next.speaker, next.keys) == Pool(t.speaker, t.keys);
      MergeKeyWellKeyed(t, key, t.speaker[key], aliases, side);
      DistinctTail(ks);
      MergeAllConserves(next, rest, aliases, side);
    }
  }

  /** With no aliases configured nothing is merged (lib/parser.js:171). */
  lemma {:induction false} MergeAllWithoutAliases(t: Keyed<seq<string>>, ks: seq<string>, side: Side)
    requires Distinct(ks) && forall k <- ks :: k in t.speaker
    ensures MergeAll(t, ks, [], side) == t
    decreases |ks|
  {
    if ks != [] {
      assert !Absorbed([], ks[0]);
      assert forall k <- ks[1..] :: k in ks;
      MergeAllWithoutAliases(t, ks[1..], side);
    }
  }
}
