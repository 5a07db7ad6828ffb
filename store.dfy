/** The owned list of live objects, and the three passes over it: saving,
    loading, and the update pass that erases expired objects in place. */
module Store {
  import opened Objects
  import opened Registry
  import opened Snapshot

  /** The values of a list of objects, in list order. */
  function States(os: seq<Effect>): (rs: seq<Record>)
    reads os
  {
    seq(|os|, k requires 0 <= k < |os| reads os => os[k].State())
  }

  /** The objects that one update pass keeps, as values: each element is
      stepped once and stays when the step leaves it alive. */
  function Survivors(rs: seq<Record>): seq<Record>
  {
    if rs == [] then []
    else (if Alive(Step(rs[0])) then [Step(rs[0])] else []) + Survivors(rs[1..])
  }

  /** The pass works element by element: the survivors of a concatenation are
      the survivors of each part, in the same order. */
  lemma {:induction false} SurvivorsAppend(a: seq<Record>, b: seq<Record>)
    ensures Survivors(a + b) == Survivors(a) + Survivors(b)
  {
    if a == [] {
      assert a + b == b;
    } else {
      var head := if Alive(Step(a[0])) then [Step(a[0])] else [];
      assert (a + b)[0] == a[0] && (a + b)[1..] == a[1..] + b;
      assert Survivors(a + b) == head + Survivors(a[1..] + b);
      assert Survivors(a) == head + Survivors(a[1..]);
      SurvivorsAppend(a[1..], b);
      assert head + (Survivors(a[1..]) + Survivors(b)) == (head + Survivors(a[1..])) + Survivors(b);
    }
  }

  /** A record is kept exactly when it is the stepped value of some element
      whose step left it alive. */
  lemma {:induction false} SurvivorsMember(rs: seq<Record>, x: Record)
    ensures x in Survivors(rs) <==> exists k :: 0 <= k < |rs| && Step(rs[k]) == x && Alive(x)
  {
    if rs != [] {
      SurvivorsMember(rs[1..], x);
      if x in Survivors(rs[1..]) {
        var k :| 0 <= k < |rs[1..]| && Step(rs[1..][k]) == x && Alive(x);
        assert Step(rs[k + 1]) == x;
      }
      if exists k :: 0 <= k < |rs| && Step(rs[k]) == x && Alive(x) {
        var k :| 0 <= k < |rs| && Step(rs[k]) == x && Alive(x);
        if k > 0 {
          assert Step(rs[1..][k - 1]) == x;
        }
      }
    }
  }

  /** The pass never grows the list, and everything it keeps is alive. */
  lemma {:induction false} SurvivorsBounds(rs: seq<Record>)
    ensures |Survivors(rs)| <= |rs|
    ensures forall k :: 0 <= k < |Survivors(rs)| ==> Alive(Survivors(rs)[k])
  {
    if rs != [] {
      SurvivorsBounds(rs[1..]);
    }
  }

  /** The survivors of one more element: its stepped value when it stays alive. */
  lemma SurvivorsSnoc(rs: seq<Record>, x: Record)
    ensures Survivors(rs + [x]) == Survivors(rs) + (if Alive(Step(x)) then [Step(x)] else [])
  {
    SurvivorsAppend(rs, [x]);
    assert [x][1..] == [];
  }

  /** The k-th object of a list. `Distinct` compares elements through it, so
      its quantifier is instantiated only where a lemma below asks for it. */
  function At(os: seq<Effect>, k: nat): Effect
    requires k < |os|
  {
    os[k]
  }

  /** No object appears twice in the list. */
  ghost predicate Distinct(os: seq<Effect>)
  {
    forall a, b :: 0 <= a < b < |os| ==> At(os, a) != At(os, b)
  }

  /** In a list without repeats, the element at `j` differs from every other. */
  lemma DistinctAt(os: seq<Effect>, j: nat)
    requires Distinct(os) && j < |os|
    ensures forall k :: 0 <= k < |os| && k != j ==> os[k] != os[j]
  {
    forall k | 0 <= k < |os| && k != j
      ensures os[k] != os[j]
    {
      if k < j {
        assert At(os, k) != At(os, j);
      } else {
        assert At(os, j) != At(os, k);
      }
    }
  }

  /** Appending an object the list does not hold keeps it without repeats. */
  lemma DistinctSnoc(os: seq<Effect>, o: Effect)
    requires Distinct(os) && o !in os
    ensures Distinct(os + [o])
  {
    var r := os + [o];
    forall a, b | 0 <= a < b < |r|
      ensures At(r, a) != At(r, b)
    {
      if b < |os| {
        assert At(os, a) != At(os, b);
      }
    }
  }

  lemma StatesSnoc(os: seq<Effect>, o: Effect)
    ensures States(os + [o]) == States(os) + [o.State()]
  {
  }

  /** Erasing one element of a list without repeats leaves a list without repeats. */
  lemma DistinctErase(os: seq<Effect>, i: nat)
    requires Distinct(os) && i < |os|
    ensures Distinct(os[..i] + os[i + 1..])
  {
    var r := os[..i] + os[i + 1..];
    forall a, b | 0 <= a < b < |r|
      ensures At(r, a) != At(r, b)
    {
      var a', b' := if a < i then a else a + 1, if b < i then b else b + 1;
      assert r[a] == os[a'] && r[b] == os[b'];
      assert At(os, a') != At(os, b');
    }
  }

  class ObjectStore {
    /** The list, front to back. */
    var objects: seq<Effect>

    /** Each element is owned by the list alone, so no object appears twice. */
    ghost predicate Valid()
      reads this
    {
      Distinct(objects)
    }

    function Contents(): seq<Record>
      reads this, objects
    {
      States(objects)
    }

    constructor ()
      ensures Valid() && objects == []
    {
      objects := [];
    }

    /** Appends a blank object of class `k`, built by the factory. */
    method Spawn(factory: Factory, k: Kind, center: Vec2, velocity: Vec2)
      requires Valid() && factory.Valid()
      requires TypeId(k) in factory.entries
      modifies this
      ensures Valid()
      ensures Contents() == old(Contents()) + [Record(TypeId(k), k, center, velocity, InitialLife)]
      ensures WellTagged(old(Contents()), factory.entries) ==> WellTagged(Contents(), factory.entries)
    {
      var o := factory.CreateOf(k, center, velocity);
      DistinctSnoc(objects, o);
      objects := objects + [o];
    }

    /** Writes the count, then each element's id and payload, in list order. */
    method Save() returns (tokens: seq<Token>)
      ensures tokens == Encode(Contents())
    {
      tokens := [Word(|objects|)];
      var i := 0;
      while i < |objects|
        invariant 0 <= i <= |objects|
        invariant tokens == [Word(|objects|)] + EncodeEntries(Contents()[..i])
      {
        EncodeEntriesAppend(Contents()[..i], Contents()[i]);
        assert Contents()[..i + 1] == Contents()[..i] + [Contents()[i]];
        tokens := tokens + [Word(objects[i].objectId)];
        tokens := tokens + Payload(objects[i].State());
        i := i + 1;
      }
      assert Contents()[..i] == Contents();
    }

    /** Discards the list, then reads the count and that many entries, each
        built by the factory from its id and filled from its payload. On an
        error the list is left empty. */
    method Load(tokens: seq<Token>, factory: Factory, center: Vec2, velocity: Vec2)
      returns (outcome: Result<nat>)
      modifies this
      ensures Valid()
      ensures forall o :: o in objects ==> fresh(o)
      ensures Decode(tokens, factory.entries).Ok? <==> outcome.Ok?
      ensures outcome.Ok? ==> Contents() == Decode(tokens, factory.entries).value && outcome.value == |objects|
      ensures outcome.Ok? ==> tokens[0] == Word(|objects|) && WellTagged(Contents(), factory.entries)
      ensures outcome.Err? ==> objects == [] && outcome.error == Decode(tokens, factory.entries).error
    {
      objects := [];
      if |tokens| == 0 {
        return Err(TruncatedSnapshot);
      }
      if !tokens[0].Word? {
        return Err(MalformedSnapshot(0));
      }
      var size := tokens[0].n;
      var i, cursor := 0, 1;
      assert Contents() == [];
      match DecodeEntries(tokens, 1, size, factory.entries) {
        case Ok(rs) => assert [] + rs == rs;
        case Err(_) =>
      }
      while i < size
        invariant 0 <= i <= size && cursor == 1 + 4 * i
        invariant Valid() && forall o :: o in objects ==> fresh(o)
        invariant Then(Contents(), DecodeEntries(tokens, cursor, size - i, factory.entries))
               == DecodeEntries(tokens, 1, size, factory.entries)
      {
        var entry := DecodeEntry(tokens, cursor, factory.entries);
        if entry.Err? {
          objects := [];
          return Err(entry.error);
        }
        var r := entry.value;
        ghost var rest := DecodeEntries(tokens, cursor + 4, size - i - 1, factory.entries);
        assert DecodeEntries(tokens, cursor, size - i, factory.entries) == Then([r], rest);
        var obj := factory.Create(r.id, center, velocity);
        obj.ReadState(r.pos, r.acceleration, r.life);
        ghost var before := Contents();
        StatesSnoc(objects, obj);
        DistinctSnoc(objects, obj);
        objects := objects + [obj];
        ThenAssoc(before, [r], rest);
        i, cursor := i + 1, cursor + 4;
      }
      assert Then(Contents(), Ok([])) == Ok(Contents() + []);
      assert Contents() + [] == Contents();
      DecodeThenEncode(tokens, factory.entries);
      return Ok(|objects|);
    }

    /** The update pass: one forward traversal calls `Update` on every element
        once and erases, in place, each element whose call returned false. */
    method UpdateAll()
      requires Valid()
      modifies this, objects
      ensures Valid()
      ensures Contents() == Survivors(old(Contents()))
      ensures forall o :: o in old(objects) ==> o.State() == Step(old(o.State()))
      ensures |objects| <= old(|objects|)
      ensures forall o :: o in objects ==> o in old(objects)
    {
      ghost var all := objects;
      ghost var before := Contents();
      // `kept` is the values kept so far; the element kept at position k of
      // the list is `all[pick[k]]`.
      ghost var kept: seq<Record> := [];
      ghost var pick: seq<int> := [];
      var i := 0;
      ghost var j := 0;
      // `all` is never reassigned, so this fact holds throughout the loop.
      assert Distinct(all);
      while i < |objects|
        invariant 0 <= i <= |objects| && 0 <= j <= |all|
        invariant objects[i..] == all[j..]
        invariant Valid()
        invariant |kept| == i && |pick| == i && kept == Survivors(before[..j])
        invariant forall k :: 0 <= k < i ==> 0 <= pick[k] < j && objects[k] == all[pick[k]]
        invariant forall k :: 0 <= k < i ==> kept[k] == Step(before[pick[k]])
        invariant forall k :: 0 <= k < |all| ==>
          all[k].State() == if k < j then Step(before[k]) else before[k]
        decreases |objects| - i
      {
        assert objects[i] == all[j] && objects[i + 1..] == all[j + 1..];
        DistinctAt(all, j);
        var alive := Visit(i);
        SurvivorsSnoc(before[..j], before[j]);
        assert before[..j + 1] == before[..j] + [before[j]];
        if alive {
          kept, pick := kept + [Step(before[j])], pick + [j];
          i := i + 1;
        }
        j := j + 1;
      }
      assert j == |all| && before[..j] == before;
      forall k | 0 <= k < |objects|
        ensures Contents()[k] == kept[k] && objects[k] in all
      {
        assert objects[k] == all[pick[k]];
      }
      SurvivorsBounds(before);
    }

    /** One step of the update pass: updates the element at `i` and erases it
        when its update returned false. */
    method Visit(i: nat) returns (alive: bool)
      requires Valid() && i < |objects|
      modifies this, objects[i]
      ensures Valid()
      ensures old(objects[i]).State() == Step(old(objects[i].State()))
      ensures alive == Alive(old(objects[i]).State())
      ensures alive ==> objects == old(objects)
      ensures !alive ==> objects == old(objects[..i] + objects[i + 1..])
      ensures !alive ==> (forall k :: 0 <= k < i ==> objects[k] == old(objects[k])) && objects[i..] == old(objects[i + 1..])
    {
      alive := objects[i].Update();
      if !alive {
        DistinctErase(objects, i);
        objects := objects[..i] + objects[i + 1..];
      }
    }

    /** Saving the list and loading the snapshot back with the factory that
        built its objects leaves the list's values as they were. */
    method SaveAndReload(factory: Factory, center: Vec2, velocity: Vec2) returns (snapshot: seq<Token>)
      requires WellTagged(Contents(), factory.entries)
      modifies this
      ensures snapshot == Encode(old(Contents()))
      ensures Valid() && Contents() == old(Contents())
    {
      snapshot := Save();
      RoundTrip(Contents(), factory.entries);
      var outcome := Load(snapshot, factory, center, velocity);
    }
  }

  /** Ids and classes are never changed by the update pass. */
  lemma {:induction false} SurvivorsKeepTags(rs: seq<Record>, reg: map<nat, Kind>)
    requires WellTagged(rs, reg)
    ensures WellTagged(Survivors(rs), reg)
  {
    if rs != [] {
      SurvivorsKeepTags(rs[1..], reg);
    }
  }

  lemma ThenAssoc(p: seq<Record>, q: seq<Record>, r: Result<seq<Record>>)
    ensures Then(p, Then(q, r)) == Then(p + q, r)
  {
    if r.Ok? {
      assert p + (q + r.value) == (p + q) + r.value;
    }
  }
}
