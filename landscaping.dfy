/** `src/world/pipeline/landscaping.rs`: deciding which chunks to load and
    unload around the observer, and keeping the chunk entity map in step
    with loaded, unloaded and updated chunks. */
module Landscaping {
  import opened Wrappers
  import opened Math
  import opened Chunks
  import opened Sequences
  import opened Registry

  /** `disjoin`: the elements of `a` not in `b` and the elements of `b` not
      in `a`, each in its input's order. */
  function Disjoin(a: seq<IVec3>, b: seq<IVec3>): (r: (seq<IVec3>, seq<IVec3>))
    ensures forall x :: x in r.0 <==> x in a && x !in b
    ensures forall x :: x in r.1 <==> x in b && x !in a
    ensures forall x :: x !in b ==> multiset(r.0)[x] == multiset(a)[x]
    ensures forall x :: x !in a ==> multiset(r.1)[x] == multiset(b)[x]
    ensures SubsequenceOf(r.0, a) && SubsequenceOf(r.1, b)
    ensures NoDuplicates(a) ==> NoDuplicates(r.0)
    ensures NoDuplicates(b) ==> NoDuplicates(r.1)
  {
    FilterContents(a, Elems(b), false);
    FilterContents(b, Elems(a), false);
    (Filter(a, Elems(b), false), Filter(b, Elems(a), false))
  }

  /** The unit test's vectors. */
  lemma DisjoinExample()
    ensures Disjoin([IVec3(0, 0, 0), IVec3(1, 1, 1), IVec3(2, 2, 2), IVec3(3, 3, 3)],
                    [IVec3(0, 0, 0), IVec3(1, 1, 1), IVec3(2, 2, 3), IVec3(3, 3, 4)])
      == ([IVec3(2, 2, 2), IVec3(3, 3, 3)], [IVec3(2, 2, 3), IVec3(3, 3, 4)])
  {
    var a := [IVec3(0, 0, 0), IVec3(1, 1, 1), IVec3(2, 2, 2), IVec3(3, 3, 3)];
    var b := [IVec3(0, 0, 0), IVec3(1, 1, 1), IVec3(2, 2, 3), IVec3(3, 3, 4)];
    FilterFourExample(a, Elems(b));
    FilterFourExample(b, Elems(a));
  }

  /** Filtering a four-element sequence whose first two elements are in
      `s` and last two are not. */
  lemma FilterFourExample(a: seq<IVec3>, s: set<IVec3>)
    requires |a| == 4 && a[0] in s && a[1] in s && a[2] !in s && a[3] !in s
    ensures Filter(a, s, false) == [a[2], a[3]]
  {
    assert a[3..][1..] == [];
    assert Filter(a[3..], s, false) == [a[3]];
    assert a[2..][1..] == a[3..];
    assert Filter(a[2..], s, false) == [a[2], a[3]];
    assert a[1..][1..] == a[2..];
    assert Filter(a[1..], s, false) == Filter(a[2..], s, false);
  }

  // ---------------------------------------------------------------------
  // update_landscape_system

  /** The loads the `to_add` loop sends, and the pending set it leaves,
      when it starts from `pending`: a coordinate is sent and marked
      pending unless it is pending already. Defined from the back so that
      it follows the loop one iteration at a time. */
  function RequestLoads(toAdd: seq<IVec3>, pending: set<IVec3>): (r: (seq<IVec3>, set<IVec3>))
    ensures r.1 == pending + Elems(r.0)
    ensures forall x :: x in r.0 <==> x in toAdd && x !in pending
    ensures NoDuplicates(r.0)
    decreases |toAdd|
  {
    if |toAdd| == 0 then ([], pending)
    else
      var init := toAdd[..|toAdd| - 1];
      var local := toAdd[|toAdd| - 1];
      assert toAdd == init + [local];
      var prev := RequestLoads(init, pending);
      if local in prev.1 then prev
      else
        SnocNoDuplicates(prev.0, local);
        (prev.0 + [local], prev.1 + {local})
  }

  /** The commands of one run and the pending set it leaves. */
  datatype Commands = Commands(loads: seq<IVec3>, unloads: seq<IVec3>, pending: set<IVec3>)

  /** One run that found its observer: `visible` is the range around the
      observer's chunk, `existing` the entity map's keys in the order the
      map yields them, `added` this run's loaded events.

      A load goes out for exactly the visible coordinates that are not
      mapped and not pending, where a coordinate loaded in this run no
      longer counts as pending, and none goes out twice. The pending set
      afterwards is the old one, less this run's loaded coordinates, plus
      every coordinate just requested. An unload goes out for every mapped
      coordinate outside the visible range, pending or not, once per key. */
  function Tick(pending: set<IVec3>, added: seq<IVec3>, visible: seq<IVec3>, existing: seq<IVec3>): (r: Commands)
    ensures forall x :: x in r.loads <==> x in visible && x !in existing && (x !in pending || x in added)
    ensures NoDuplicates(r.loads)
    ensures r.pending == (pending - Elems(added)) + Elems(r.loads)
    ensures forall x :: x in r.unloads <==> x in existing && x !in visible
    ensures NoDuplicates(existing) ==> NoDuplicates(r.unloads)
  {
    var diff := Disjoin(visible, existing);
    var requested := RequestLoads(diff.0, pending - Elems(added));
    Commands(requested.0, diff.1, requested.1)
  }

  /** A coordinate requested in one run is not requested again in
      the next run unless its loaded event arrives there. */
  lemma NoRepeatWhilePending(pending: set<IVec3>, added1: seq<IVec3>, visible1: seq<IVec3>, existing1: seq<IVec3>,
                             added2: seq<IVec3>, visible2: seq<IVec3>, existing2: seq<IVec3>, x: IVec3)
    requires x in Tick(pending, added1, visible1, existing1).loads
    requires x !in added2
    ensures x !in Tick(Tick(pending, added1, visible1, existing1).pending, added2, visible2, existing2).loads
  {
  }

  /** The inputs of one run of the tick that found its observer. */
  datatype Run = Run(added: seq<IVec3>, visible: seq<IVec3>, existing: seq<IVec3>)

  /** The pending set after a series of runs. */
  function PendingAfter(pending: set<IVec3>, runs: seq<Run>): set<IVec3>
    decreases |runs|
  {
    if |runs| == 0 then pending
    else PendingAfter(Tick(pending, runs[0].added, runs[0].visible, runs[0].existing).pending, runs[1..])
  }

  /** Every load sent over a series of runs, run after run. */
  function LoadsOver(pending: set<IVec3>, runs: seq<Run>): seq<IVec3>
    decreases |runs|
  {
    if |runs| == 0 then []
    else
      var t := Tick(pending, runs[0].added, runs[0].visible, runs[0].existing);
      t.loads + LoadsOver(t.pending, runs[1..])
  }

  /** A pending coordinate whose loaded event never reaches the tick stays
      pending and is never requested again, in however many runs, even when
      it is unmapped and visible in each of them. */
  lemma {:induction false} StuckWhileLoadedMissed(pending: set<IVec3>, runs: seq<Run>, x: IVec3)
    requires x in pending
    requires forall i :: 0 <= i < |runs| ==> x !in runs[i].added
    ensures x in PendingAfter(pending, runs)
    ensures x !in LoadsOver(pending, runs)
    decreases |runs|
  {
    if |runs| > 0 {
      var t := Tick(pending, runs[0].added, runs[0].visible, runs[0].existing);
      assert x !in runs[0].added;
      assert x in t.pending && x !in t.loads;
      forall i | 0 <= i < |runs[1..]|
        ensures x !in runs[1..][i].added
      {
        assert runs[1..][i] == runs[i + 1];
      }
      StuckWhileLoadedMissed(t.pending, runs[1..], x);
    }
  }

  /** The chunk range around an observer: `query::range(begin, end)` for
      `center + BEGIN` and `center + END`, where `center` is the observer's
      chunk. The range enumeration and `landscape::BEGIN`/`END` are passed
      in. */
  function Visible(observer: Vec3, range: (IVec3, IVec3) -> seq<IVec3>, rangeBegin: int, rangeEnd: int): seq<IVec3> {
    var center := ToLocal(observer);
    range(center.Add(Splat(rangeBegin)), center.Add(Splat(rangeEnd)))
  }

  /** The keys of a map, in an order the map chooses. */
  method CollectKeys<V>(m: map<IVec3, V>) returns (keys: seq<IVec3>)
    ensures NoDuplicates(keys) && Elems(keys) == m.Keys
  {
    keys := [];
    var rest := m.Keys;
    while rest != {}
      invariant NoDuplicates(keys)
      invariant Elems(keys) + rest == m.Keys
      invariant Elems(keys) !! rest
      decreases |rest|
    {
      var k :| k in rest;
      SnocNoDuplicates(keys, k);
      keys := keys + [k];
      rest := rest - {k};
    }
  }

  /** The system-local state of `update_landscape_system`. */
  class Landscape {
    /** `req_add`: coordinates whose load was requested and whose loaded
        event has not arrived yet. */
    var reqAdd: set<IVec3>
    /** `last_pos`. */
    var lastPos: IVec3

    constructor ()
      ensures reqAdd == {} && lastPos == IVec3(0, 0, 0)
    {
      reqAdd := {};
      lastPos := IVec3(0, 0, 0);
    }

    /** `update_landscape_system`. `observers` are the translations of the
        camera entities; `added` are this run's loaded events. Returns the
        load and the unload commands sent. Without exactly one observer
        nothing happens; otherwise the run is `Tick` for one enumeration
        order of the entity map's keys. `last_pos` is only ever assigned
        its own value, so it never changes. */
    method UpdateLandscapeSystem(reg: ChunkEntityMap, observers: seq<Vec3>, added: seq<IVec3>,
                                 range: (IVec3, IVec3) -> seq<IVec3>, rangeBegin: int, rangeEnd: int)
      returns (loads: seq<IVec3>, unloads: seq<IVec3>)
      modifies this
      ensures lastPos == old(lastPos)
      ensures |observers| != 1 ==> loads == [] && unloads == [] && reqAdd == old(reqAdd)
      ensures |observers| == 1 ==>
        exists existing :: NoDuplicates(existing) && Elems(existing) == reg.entries.Keys &&
          Tick(old(reqAdd), added, Visible(observers[0], range, rangeBegin, rangeEnd), existing)
            == Commands(loads, unloads, reqAdd)
    {
      if |observers| != 1 {
        return [], [];
      }
      var center := ToLocal(observers[0]);
      if center == lastPos {
        lastPos := center;
      }
      var first := center.Add(Splat(rangeBegin));
      var last := center.Add(Splat(rangeEnd));
      var visible := range(first, last);
      var existing := CollectKeys(reg.entries);
      var diff := Disjoin(visible, existing);
      ForgetLoaded(added);
      loads := RequestMissing(diff.0);
      unloads := SendUnloads(diff.1);
      assert Tick(old(reqAdd), added, visible, existing) == Commands(loads, unloads, reqAdd);
    }

    /** The loop over loaded events: each is no longer pending. */
    method ForgetLoaded(added: seq<IVec3>)
      modifies this
      ensures reqAdd == old(reqAdd) - Elems(added)
      ensures lastPos == old(lastPos)
    {
      for i := 0 to |added|
        invariant reqAdd == old(reqAdd) - Elems(added[..i])
        invariant lastPos == old(lastPos)
      {
        assert added[..i + 1] == added[..i] + [added[i]];
        reqAdd := reqAdd - {added[i]};
      }
      assert added[..|added|] == added;
    }

    /** The loop over `to_add`: skip what is pending, otherwise send a load
        and mark it pending. */
    method RequestMissing(toAdd: seq<IVec3>) returns (loads: seq<IVec3>)
      modifies this
      ensures (loads, reqAdd) == RequestLoads(toAdd, old(reqAdd))
      ensures lastPos == old(lastPos)
    {
      loads := [];
      for i := 0 to |toAdd|
        invariant (loads, reqAdd) == RequestLoads(toAdd[..i], old(reqAdd))
        invariant lastPos == old(lastPos)
      {
        assert toAdd[..i + 1][..i] == toAdd[..i];
        var local := toAdd[i];
        if local in reqAdd {
          continue;
        }
        loads := loads + [local];
        reqAdd := reqAdd + {local};
      }
      assert toAdd[..|toAdd|] == toAdd;
    }

    /** The loop over `to_remove`: one unload per element, in order. */
    method SendUnloads(toRemove: seq<IVec3>) returns (unloads: seq<IVec3>)
      ensures unloads == toRemove
    {
      unloads := [];
      for i := 0 to |toRemove|
        invariant unloads == toRemove[..i]
      {
        assert toRemove[..i + 1] == toRemove[..i] + [toRemove[i]];
        unloads := unloads + [toRemove[i]];
      }
      assert toRemove[..|toRemove|] == toRemove;
    }
  }

  // ---------------------------------------------------------------------
  // The entity map systems

  /** The entries `spawn_chunks_system` adds for `loaded`. */
  function SpawnedEntries(loaded: seq<IVec3>): map<IVec3, Entry> {
    map c | c in loaded :: SpawnedEntry(c)
  }

  /** `spawn_chunks_system`: each loaded coordinate gets a fresh entity
      (replacing any entry it had) and one dirty event, in event order. */
  method SpawnChunksSystem(reg: ChunkEntityMap, loaded: seq<IVec3>) returns (dirty: seq<IVec3>)
    modifies reg
    ensures reg.entries == old(reg.entries) + SpawnedEntries(loaded)
    ensures dirty == loaded
  {
    dirty := [];
    for i := 0 to |loaded|
      invariant reg.entries == old(reg.entries) + SpawnedEntries(loaded[..i])
      invariant dirty == loaded[..i]
    {
      var local := loaded[i];
      assert loaded[..i + 1] == loaded[..i] + [local];
      assert SpawnedEntries(loaded[..i + 1]) == SpawnedEntries(loaded[..i])[local := SpawnedEntry(local)];
      reg.entries := reg.entries[local := SpawnedEntry(local)];
      dirty := dirty + [local];
    }
    assert loaded[..|loaded|] == loaded;
  }

  /** After a spawn every loaded coordinate is mapped to a fresh entity at
      its world position carrying a default building bundle, every other
      entry is as before, and nothing else is mapped. */
  lemma {:induction false} SpawnedAt(entries: map<IVec3, Entry>, loaded: seq<IVec3>, c: IVec3)
    ensures c in entries + SpawnedEntries(loaded) <==> c in entries || c in loaded
    ensures c in loaded ==>
      (entries + SpawnedEntries(loaded))[c] == Entry(c, ToWorld(c), Some(DefaultBuilding()), None)
    ensures c !in loaded && c in entries ==> (entries + SpawnedEntries(loaded))[c] == entries[c]
  {
  }

  /** The unit test: one loaded event on an empty map yields one entity
      and one dirty event for it. */
  lemma SpawnExample()
    ensures (map[] + SpawnedEntries([Splat(1)])).Keys == {Splat(1)}
  {
    assert Splat(1) in SpawnedEntries([Splat(1)]);
  }

  /** `despawn_chunks_system`: each unloaded coordinate that is mapped is
      removed; an unmapped one is ignored. */
  method DespawnChunksSystem(reg: ChunkEntityMap, unloaded: seq<IVec3>)
    modifies reg
    ensures reg.entries == old(reg.entries) - Elems(unloaded)
  {
    for i := 0 to |unloaded|
      invariant reg.entries == old(reg.entries) - Elems(unloaded[..i])
    {
      var local := unloaded[i];
      assert unloaded[..i + 1] == unloaded[..i] + [local];
      if local in reg.entries {
        reg.entries := reg.entries - {local};
      }
    }
    assert unloaded[..|unloaded|] == unloaded;
  }

  /** The unit test: unloading the only mapped coordinate empties the map. */
  lemma DespawnExample(e: Entry)
    ensures map[Splat(1) := e] - Elems([Splat(1)]) == map[]
  {
    assert Splat(1) in Elems([Splat(1)]);
  }

  /** An entity whose chunk changed: a fresh, empty building bundle is
      inserted, replacing the old one. */
  function Rebuilt(e: Entry): Entry {
    e.(building := Some(DefaultBuilding()))
  }

  /** The entries after rebuilding every mapped coordinate in `updated`. */
  function RebuildAll(entries: map<IVec3, Entry>, updated: seq<IVec3>): (r: map<IVec3, Entry>)
    ensures r.Keys == entries.Keys
  {
    map c | c in entries :: if c in updated then Rebuilt(entries[c]) else entries[c]
  }

  lemma RebuildOneMore(entries: map<IVec3, Entry>, updated: seq<IVec3>, x: IVec3)
    requires x in entries
    ensures RebuildAll(entries, updated + [x]) ==
      RebuildAll(entries, updated)[x := Rebuilt(RebuildAll(entries, updated)[x])]
  {
    var before := RebuildAll(entries, updated);
    var after := RebuildAll(entries, updated + [x]);
    forall c | c in entries
      ensures after[c] == before[x := Rebuilt(before[x])][c]
    {
      assert c in updated + [x] <==> c in updated || c == x;
    }
  }

  lemma RebuildOneMoreUnmapped(entries: map<IVec3, Entry>, updated: seq<IVec3>, x: IVec3)
    requires x !in entries
    ensures RebuildAll(entries, updated + [x]) == RebuildAll(entries, updated)
  {
    var before := RebuildAll(entries, updated);
    var after := RebuildAll(entries, updated + [x]);
    forall c | c in entries
      ensures after[c] == before[c]
    {
      assert c in updated + [x] <==> c in updated || c == x;
    }
  }

  /** `update_chunks_system`: each updated coordinate that is mapped gets a
      default building bundle and a dirty event, in event order; unmapped
      ones are ignored. */
  method UpdateChunksSystem(reg: ChunkEntityMap, updated: seq<IVec3>) returns (dirty: seq<IVec3>)
    modifies reg
    ensures reg.entries == RebuildAll(old(reg.entries), updated)
    ensures dirty == Filter(updated, old(reg.entries).Keys, true)
    ensures forall x :: x in dirty <==> x in updated && x in old(reg.entries)
  {
    ghost var keys := reg.entries.Keys;
    dirty := [];
    for i := 0 to |updated|
      invariant reg.entries == RebuildAll(old(reg.entries), updated[..i])
      invariant dirty == Filter(updated[..i], keys, true)
    {
      var local := updated[i];
      assert updated[..i + 1] == updated[..i] + [local];
      FilterSnoc(updated[..i], local, keys, true);
      if local in reg.entries {
        RebuildOneMore(old(reg.entries), updated[..i], local);
        reg.entries := reg.entries[local := Rebuilt(reg.entries[local])];
        dirty := dirty + [local];
      } else {
        RebuildOneMoreUnmapped(old(reg.entries), updated[..i], local);
      }
    }
    assert updated[..|updated|] == updated;
    FilterContents(updated, keys, true);
  }

  /** Rebuilding keeps the keys, replaces the building bundle of exactly
      the updated mapped coordinates by an empty one, and leaves every other
      part of every entry as it was. */
  lemma RebuildAllAt(entries: map<IVec3, Entry>, updated: seq<IVec3>, c: IVec3)
    requires c in entries
    ensures RebuildAll(entries, updated)[c].local == entries[c].local
    ensures RebuildAll(entries, updated)[c].translation == entries[c].translation
    ensures RebuildAll(entries, updated)[c].mesh == entries[c].mesh
    ensures RebuildAll(entries, updated)[c].building ==
      if c in updated then Some(DefaultBuilding()) else entries[c].building
  {
  }

  /** The unit test: an update of a mapped coordinate emits its dirty
      event. */
  lemma UpdateExample()
    ensures Filter([IVec3(1, 2, 3)], {IVec3(1, 2, 3)}, true) == [IVec3(1, 2, 3)]
  {
    assert [IVec3(1, 2, 3)][1..] == [];
  }
}
