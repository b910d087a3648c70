/**
 * The structured record both parsers build (lib/parser.js:56-61, app.js:51-56):
 * `speaker`, an object from each speaker name to that speaker's lines, and
 * `order`, the name of the speaker of every retained line, in turn.  A
 * JavaScript object also orders its keys, by when each was first assigned,
 * and the alias resolvers walk the keys in that order; `keys` holds it.
 * Alias configuration and the `order` rewrite, which both versions share,
 * are here too.
 */
module Records {

  /** One retained line: who said it, and what is left of the line. */
  datatype Turn = Turn(speaker: string, text: string)

  predicate Distinct(s: seq<string>) {
    forall i, j :: 0 <= i < j < |s| ==> s[i] != s[j]
  }

  /** A speaker object with the order of its keys. */
  datatype Keyed<V> = Keyed(speaker: map<string, V>, keys: seq<string>)

  /** What every JavaScript object satisfies: each key is listed once, and the list is exactly the key set. */
  ghost predicate WellKeyed<V>(t: Keyed<V>) {
    Distinct(t.keys) && (forall k :: k in t.speaker <==> k in t.keys)
  }

  /** s without x. */
  function Without(s: seq<string>, x: string): (r: seq<string>)
    ensures forall y :: y in r <==> y in s && y != x
    ensures x !in s ==> r == s
  {
    if s == [] then []
    else
      var rest := Without(s[1..], x);
      assert forall y :: y in s <==> y == s[0] || y in s[1..];
      if s[0] == x then rest else [s[0]] + rest
  }

  lemma {:induction false} WithoutDistinct(s: seq<string>, x: string)
    requires Distinct(s)
    ensures Distinct(Without(s, x))
  {
    if s != [] {
      assert Distinct(s[1..]) && s[0] !in s[1..] by {
        forall i | 0 <= i < |s| - 1 ensures s[1..][i] != s[0] {
          assert s[1..][i] == s[i + 1];
        }
      }
      WithoutDistinct(s[1..], x);
    }
  }

  /** `object[name] = v`: a new key goes to the end of the key order. */
  function WithKey<V>(t: Keyed<V>, name: string, v: V): Keyed<V> {
    Keyed(t.speaker[name := v], if name in t.speaker then t.keys else t.keys + [name])
  }

  /** `delete object[name]` */
  function WithoutKey<V>(t: Keyed<V>, name: string): Keyed<V> {
    Keyed(t.speaker - {name}, Without(t.keys, name))
  }

  /** Assigning a key keeps the object's key list exact. */
  lemma WithKeyWellKeyed<V>(t: Keyed<V>, name: string, v: V)
    requires WellKeyed(t)
    ensures WellKeyed(WithKey(t, name, v))
  {
  }

  /** Deleting a key keeps the object's key list exact. */
  lemma WithoutKeyWellKeyed<V>(t: Keyed<V>, name: string)
    requires WellKeyed(t)
    ensures WellKeyed(WithoutKey(t, name))
  {
    WithoutDistinct(t.keys, name);
  }

  /* ---------------------------------------------------------------- the record */

  /** The parsers' output object. */
  datatype Doc = Doc(speaker: map<string, seq<string>>, keys: seq<string>, order: seq<string>) {
    function Table(): Keyed<seq<string>> {
      Keyed(speaker, keys)
    }
  }

  const EmptyDoc := Doc(map[], [], [])

  /**
   * Record one line (lib/parser.js:79-85, app.js:69-80): create the speaker's
   * key with an empty list on first use, push the text on the speaker's list
   * and the name on `order`.
   */
  function Push(d: Doc, t: Turn): Doc {
    var t0 := if t.speaker in d.speaker then d.Table() else WithKey(d.Table(), t.speaker, []);
    var t1 := WithKey(t0, t.speaker, t0.speaker[t.speaker] + [t.text]);
    Doc(t1.speaker, t1.keys, d.order + [t.speaker])
  }

  /** The record built by pushing the turns one after the other. */
  function Collect(ts: seq<Turn>): Doc {
    if ts == [] then EmptyDoc else Push(Collect(ts[..|ts| - 1]), ts[|ts| - 1])
  }

  /** What `name` said, in order. */
  function Said(ts: seq<Turn>, name: string): seq<string> {
    if ts == [] then []
    else Said(ts[..|ts| - 1], name) + (if ts[|ts| - 1].speaker == name then [ts[|ts| - 1].text] else [])
  }

  /** The speakers in order of their first line, each once. */
  function FirstSeen(ts: seq<Turn>): seq<string> {
    if ts == [] then []
    else
      var seen := FirstSeen(ts[..|ts| - 1]);
      if ts[|ts| - 1].speaker in seen then seen else seen + [ts[|ts| - 1].speaker]
  }

  /** All lines of the listed keys, as a multiset. */
  function Pool(m: map<string, seq<string>>, ks: seq<string>): multiset<string> {
    if ks == [] then multiset{}
    else Pool(m, ks[..|ks| - 1]) + (if ks[|ks| - 1] in m then multiset(m[ks[|ks| - 1]]) else multiset{})
  }

  /** All lines the record holds. */
  function Lines(d: Doc): multiset<string> {
    Pool(d.speaker, d.keys)
  }

  /** All texts of the turns. */
  function Texts(ts: seq<Turn>): multiset<string> {
    if ts == [] then multiset{} else Texts(ts[..|ts| - 1]) + multiset{ts[|ts| - 1].text}
  }

  lemma {:induction false} PoolOfOtherKey(m: map<string, seq<string>>, ks: seq<string>, n: string, v: seq<string>)
    requires n !in ks
    ensures Pool(m[n := v], ks) == Pool(m, ks)
  {
    if ks != [] {
      PoolOfOtherKey(m, ks[..|ks| - 1], n, v);
    }
  }

  /** Adding the same lines on both sides of a balance keeps it. */
  lemma Rebalance(a: multiset<string>, a': multiset<string>, b: multiset<string>, c: multiset<string>, x: multiset<string>)
    requires a + c == a' + b
    ensures a + x + c == a' + x + b
  {
    assert forall e :: (a + x + c)[e] == (a + c)[e] + x[e];
    assert forall e :: (a' + x + b)[e] == (a' + b)[e] + x[e];
  }

  /** Replacing the list of a key that is listed once swaps its lines in the pool. */
  lemma {:induction false} PoolOfUpdatedKey(m: map<string, seq<string>>, ks: seq<string>, n: string, v: seq<string>)
    requires Distinct(ks) && n in ks && n in m
    ensures Pool(m[n := v], ks) + multiset(m[n]) == Pool(m, ks) + multiset(v)
  {
    var init := ks[..|ks| - 1];
    var last := ks[|ks| - 1];
    assert Distinct(init);
    if last == n {
      assert n !in init;
      PoolOfOtherKey(m, init, n, v);
      assert Pool(m[n := v], ks) == Pool(m, init) + multiset(v);
      assert Pool(m, ks) == Pool(m, init) + multiset(m[n]);
    } else {
      assert n in init by {
        var i :| 0 <= i < |ks| && ks[i] == n;
        assert i < |ks| - 1 && init[i] == n;
      }
      PoolOfUpdatedKey(m, init, n, v);
      var x := if last in m then multiset(m[last]) else multiset{};
      assert Pool(m[n := v], ks) == Pool(m[n := v], init) + x;
      assert Pool(m, ks) == Pool(m, init) + x;
      Rebalance(Pool(m[n := v], init), Pool(m, init), multiset(v), multiset(m[n]), x);
    }
  }

  /** Push, written out. */
  lemma PushShape(d: Doc, t: Turn)
    ensures var had := t.speaker in d.speaker;
      && Push(d, t).speaker == d.speaker[t.speaker := (if had then d.speaker[t.speaker] else []) + [t.text]]
      && Push(d, t).keys == (if had then d.keys else d.keys + [t.speaker])
      && Push(d, t).order == d.order + [t.speaker]
  {
  }

  lemma {:induction false} CollectOrder(ts: seq<Turn>)
    ensures |Collect(ts).order| == |ts|
    ensures forall i :: 0 <= i < |ts| ==> Collect(ts).order[i] == ts[i].speaker
  {
    if ts != [] {
      CollectOrder(ts[..|ts| - 1]);
    }
  }

  lemma {:induction false} CollectSaid(ts: seq<Turn>)
    ensures forall n :: n in Collect(ts).speaker <==> n in Collect(ts).order
    ensures forall n :: n in Collect(ts).speaker ==> Collect(ts).speaker[n] == Said(ts, n)
    ensures forall n :: n !in Collect(ts).speaker ==> Said(ts, n) == []
  {
    if ts != [] {
      var init := ts[..|ts| - 1];
      var t := ts[|ts| - 1];
      CollectSaid(init);
      var d0 := Collect(init);
      var d := Collect(ts);
      assert d == Push(d0, t);
      PushShape(d0, t);
      forall n
        ensures n in d.speaker ==> d.speaker[n] == Said(ts, n)
        ensures n !in d.speaker ==> Said(ts, n) == []
      {
        assert Said(ts, n) == Said(init, n) + (if t.speaker == n then [t.text] else []);
      }
    }
  }

  lemma {:induction false} CollectKeys(ts: seq<Turn>)
    ensures Collect(ts).keys == FirstSeen(ts)
    ensures WellKeyed(Collect(ts).Table())
  {
    if ts != [] {
      CollectKeys(ts[..|ts| - 1]);
    }
  }

  lemma CancelRight(a: multiset<string>, b: multiset<string>, c: multiset<string>)
    requires a + c == b + c
    ensures a == b
  {
    assert forall e :: a[e] == (a + c)[e] - c[e];
    assert forall e :: b[e] == (b + c)[e] - c[e];
  }

  lemma Cancel(a: multiset<string>, b: multiset<string>, c: multiset<string>, y: multiset<string>)
    requires a + c == b + c + y
    ensures a == b + y
  {
    assert forall e :: a[e] == (a + c)[e] - c[e];
    assert forall e :: (b + y)[e] == (b + c + y)[e] - c[e];
  }

  /** Pushing a turn adds exactly its text to the record's lines. */
  lemma PushLines(d: Doc, t: Turn)
    requires Distinct(d.keys) && (t.speaker in d.speaker <==> t.speaker in d.keys)
    ensures Lines(Push(d, t)) == Lines(d) + multiset{t.text}
  {
    PushShape(d, t);
    var e := Push(d, t);
    if t.speaker in d.speaker {
      assert e.speaker == d.speaker[t.speaker := d.speaker[t.speaker] + [t.text]] && e.keys == d.keys;
      PushLinesOld(d.speaker, d.keys, t);
    } else {
      assert [] + [t.text] == [t.text];
      assert e.speaker == d.speaker[t.speaker := [t.text]] && e.keys == d.keys + [t.speaker];
      PushLinesNew(d.speaker, d.keys, t);
    }
  }

  lemma PushLinesOld(m: map<string, seq<string>>, ks: seq<string>, t: Turn)
    requires Distinct(ks) && t.speaker in m && t.speaker in ks
    ensures Pool(m[t.speaker := m[t.speaker] + [t.text]], ks) == Pool(m, ks) + multiset{t.text}
  {
    var before := m[t.speaker];
    PoolOfUpdatedKey(m, ks, t.speaker, before + [t.text]);
    assert multiset(before + [t.text]) == multiset(before) + multiset{t.text};
    Cancel(Pool(m[t.speaker := before + [t.text]], ks), Pool(m, ks), multiset(before), multiset{t.text});
  }

  lemma PushLinesNew(m: map<string, seq<string>>, ks: seq<string>, t: Turn)
    requires t.speaker !in ks
    ensures Pool(m[t.speaker := [t.text]], ks + [t.speaker]) == Pool(m, ks) + multiset{t.text}
  {
    PoolOfOtherKey(m, ks, t.speaker, [t.text]);
    assert (ks + [t.speaker])[..|ks|] == ks;
  }

  lemma {:induction false} CollectLines(ts: seq<Turn>)
    ensures Lines(Collect(ts)) == Texts(ts)
  {
    if ts != [] {
      var init := ts[..|ts| - 1];
      CollectLines(init);
      CollectKeys(init);
      PushLines(Collect(init), ts[|ts| - 1]);
    }
  }

  /** The record that pushing turns builds: `order` lists the turns' speakers, each speaker's list is what that speaker said, the keys are the speakers in order of first appearance, and every line is counted once. */
  lemma CollectMeaning(ts: seq<Turn>)
    ensures var d := Collect(ts);
      && |d.order| == |ts|
      && (forall i :: 0 <= i < |ts| ==> d.order[i] == ts[i].speaker)
      && (forall n :: n in d.speaker <==> n in d.order)
      && (forall n :: n in d.speaker ==> d.speaker[n] == Said(ts, n))
      && d.keys == FirstSeen(ts)
      && WellKeyed(d.Table())
      && Lines(d) == Texts(ts)
  {
    CollectOrder(ts);
    CollectSaid(ts);
    CollectKeys(ts);
    CollectLines(ts);
  }

  /** The record invariant: keys and order entries coincide, and there are as many lines as order entries. */
  ghost predicate Consistent(d: Doc) {
    && WellKeyed(d.Table())
    && (forall n :: n in d.speaker <==> n in d.order)
    && |Lines(d)| == |d.order|
  }

  lemma TextsCount(ts: seq<Turn>)
    ensures |Texts(ts)| == |ts|
  {
  }

  lemma CollectConsistent(ts: seq<Turn>)
    ensures Consistent(Collect(ts))
  {
    CollectMeaning(ts);
    TextsCount(ts);
  }

  /* ---------------------------------------------------------------- aliases */

  /**
   * A canonical speaker name with the patterns whose matches are to be merged
   * into it.  A pattern is a predicate on names: `regex.test(name)` and
   * `name.search(regex) !== -1` agree for a regex without the global flag.
   */
  datatype Alias = Alias(name: string, patterns: seq<string -> bool>)

  predicate Matches(a: Alias, n: string) {
    exists i :: 0 <= i < |a.patterns| && a.patterns[i](n)
  }

  /**
   * The `order.map` callback (lib/parser.js:197-206, app.js:174-183): the
   * first canonical name, in configuration order, with a pattern found in n,
   * or n itself.
   */
  function Canonical(aliases: seq<Alias>, n: string): string {
    if aliases == [] then n
    else if Matches(aliases[0], n) then aliases[0].name
    else Canonical(aliases[1..], n)
  }

  lemma {:induction false} CanonicalIsFirstMatch(aliases: seq<Alias>, n: string)
    ensures (forall j :: 0 <= j < |aliases| ==> !Matches(aliases[j], n)) ==> Canonical(aliases, n) == n
    ensures (exists j :: 0 <= j < |aliases| && Matches(aliases[j], n)) ==>
      exists j :: 0 <= j < |aliases| && Matches(aliases[j], n) && Canonical(aliases, n) == aliases[j].name
        && forall i :: 0 <= i < j ==> !Matches(aliases[i], n)
  {
    if aliases != [] && !Matches(aliases[0], n) {
      var tail := aliases[1..];
      CanonicalIsFirstMatch(tail, n);
      assert Canonical(aliases, n) == Canonical(tail, n);
      if exists j :: 0 <= j < |aliases| && Matches(aliases[j], n) {
        var j :| 0 <= j < |aliases| && Matches(aliases[j], n);
        assert tail[j - 1] == aliases[j];
        var k :| 0 <= k < |tail| && Matches(tail[k], n) && Canonical(tail, n) == tail[k].name
          && forall i :: 0 <= i < k ==> !Matches(tail[i], n);
        forall i | 0 <= i < k + 1 ensures !Matches(aliases[i], n) {
          if i > 0 {
            assert aliases[i] == tail[i - 1];
          }
        }
        assert aliases[k + 1] == tail[k];
      } else {
        forall j | 0 <= j < |tail| ensures !Matches(tail[j], n) {
          assert tail[j] == aliases[j + 1];
        }
      }
    }
  }

  /** `data.order = data.order.map(...)` */
  function RewriteOrder(aliases: seq<Alias>, order: seq<string>): (r: seq<string>)
    ensures |r| == |order|
    ensures forall i :: 0 <= i < |order| ==> r[i] == Canonical(aliases, order[i])
  {
    seq(|order|, i requires 0 <= i < |order| => Canonical(aliases, order[i]))
  }

  /* ---------------------------------------------------------------- the object */

  /** The output object, which the parsers fill and the alias resolvers rewrite in place. */
  class Record<V> {
    var speaker: map<string, V>
    var keys: seq<string>
    var order: seq<string>

    function Table(): Keyed<V>
      reads this
    {
      Keyed(speaker, keys)
    }

    ghost predicate Valid()
      reads this
    {
      WellKeyed(Table())
    }

    /** `{speaker: {}, order: []}` */
    constructor ()
      ensures Valid() && speaker == map[] && keys == [] && order == []
    {
      speaker := map[];
      keys := [];
      order := [];
    }

    /** `this.speaker[name] = v` */
    method Set(name: string, v: V)
      modifies this
      ensures Table() == WithKey(old(Table()), name, v) && order == old(order)
    {
      if name !in speaker {
        keys := keys + [name];
      }
      speaker := speaker[name := v];
    }

    /** `delete this.speaker[name]` */
    method Remove(name: string)
      modifies this
      ensures Table() == WithoutKey(old(Table()), name) && order == old(order)
    {
      speaker := speaker - {name};
      keys := Without(keys, name);
    }
  }

  function DocOf(r: Record<seq<string>>): Doc
    reads r
  {
    Doc(r.speaker, r.keys, r.order)
  }
}
