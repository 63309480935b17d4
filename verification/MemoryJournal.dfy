/** The journal: on crash-free runs it describes the store exactly. */
module MemoryJournal {
  import opened Prelude
  import opened MemoryModel
  import opened MemoryInvariant

  /** Replaying the journal from empty gives the live cards, edges and index, lists in the same order. */
  predicate Journaled(world: World) {
    world.persistent && Replay(world.disk.journal) == world.mem
  }

  lemma ReplayLogged(world: World, w: Write)
    requires world.persistent
    ensures Replay(Apply(world, w).disk.journal) ==
            ReplayEvent(Replay(world.disk.journal), EventOf(Remember(world.mem, w), w))
  {
    var ev := EventOf(Remember(world.mem, w), w);
    var j := world.disk.journal + [ev];
    assert Apply(world, w).disk.journal == j;
    assert j[..|j| - 1] == world.disk.journal;
  }

  lemma ApplyKeepsJournaled(world: World, w: Write)
    requires WellFormed(world.mem) && Legal(world.mem, w) && Journaled(world)
    ensures Journaled(Apply(world, w))
  {
    ReplayLogged(world, w);
    RememberKeepsWellFormed(world.mem, w);
    match w
    case PutCard(_, c) =>
      var versions := Remember(world.mem, w).cards[c.id];
      assert Follows(c.id, versions, 0);
    case PutEdge(e) =>
  }

  lemma {:induction false} ApplyAllKeepsJournaled(world: World, ws: seq<Write>)
    requires WellFormed(world.mem) && LegalAll(world, ws) && Journaled(world)
    ensures Journaled(ApplyAll(world, ws))
    decreases |ws|
  {
    if ws != [] {
      var init := ws[..|ws| - 1];
      ApplyAllKeepsJournaled(world, init);
      ApplyAllKeepsWellFormed(world, init);
      ApplyKeepsJournaled(ApplyAll(world, init), Last(ws));
    }
  }

  lemma FreshIsWellFormed()
    ensures WellFormed(EMPTY) && Journaled(FRESH)
  {
    forall c, e
      ensures multiset(Get(EMPTY.index, c))[e] == Ends(EMPTY.edges, c, e)
    {
      assert Get(EMPTY.index, c) == [];
    }
  }

  /**
   On every crash-free run from an empty directory, whatever order the decay passes meet the cards in,
   the store is well formed and the journal alone rebuilds it exactly.
   */
  lemma {:induction false} RunIsJournaled(ops: seq<Op>)
    requires EnabledAll(FRESH, ops)
    ensures WellFormed(RunAll(FRESH, ops).mem) && Linked(RunAll(FRESH, ops).mem)
    ensures Journaled(RunAll(FRESH, ops))
    decreases |ops|
  {
    if ops == [] {
      FreshIsWellFormed();
    } else {
      var before := RunAll(FRESH, ops[..|ops| - 1]);
      RunIsJournaled(ops[..|ops| - 1]);
      WritesAreLegal(before, Last(ops));
      StepKeepsLinked(before, Last(ops));
      ApplyAllKeepsWellFormed(before, Writes(before.mem, Last(ops)));
      ApplyAllKeepsJournaled(before, Writes(before.mem, Last(ops)));
    }
  }
}
