/** What repeated decay passes do to one card and to the whole store. */
module MemoryDecay {
  import opened Prelude
  import opened MemoryModel
  import opened MemoryInvariant

  // ----- One card, any schedule of passes -----

  function Pass(c: Card, g: Governance): Card {
    match Decayed(c, g)
    case None => c
    case Some(d) => d
  }

  function Passes(c: Card, gs: seq<Governance>): Card {
    if gs == [] then c else Pass(Passes(c, gs[..|gs| - 1]), Last(gs))
  }

  /** Passes at non-decreasing instants with one base rate; the thresholds are free. */
  predicate Schedule(gs: seq<Governance>, rate: real) {
    && (forall i :: 0 <= i < |gs| ==> gs[i].rate == rate)
    && (forall i, j :: 0 <= i <= j < |gs| ==> gs[i].now <= gs[j].now)
  }

  function Rate(c: Card, rate: real): real {
    RateFor(c.activation.policy, rate)
  }

  /** What decay takes off a score over a stretch of time. */
  function Loss(passed: Time, rate: real): real {
    Hours(passed) * rate
  }

  /** The score that continuous decay from the card's last evaluation would have reached. */
  function Ideal(c: Card, rate: real, now: Time): real {
    ClampUnit(c.activation.score - Loss(if now > EvaluatedAt(c) then now - EvaluatedAt(c) else 0, Rate(c, rate)))
  }

  predicate UnitScore(c: Card) {
    0.0 <= c.activation.score <= 1.0
  }

  /** `c` is on the continuous curve that starts at `c0`, at the instant of its own last evaluation. */
  predicate OnCurve(c0: Card, c: Card, rate: real) {
    && c.activation.policy == c0.activation.policy
    && EvaluatedAt(c0) <= EvaluatedAt(c)
    && c.activation.score == Ideal(c0, rate, EvaluatedAt(c))
  }

  lemma HoursAddUp(x: Time, y: Time, rate: real)
    ensures Hours(x + y) * rate == Hours(x) * rate + Hours(y) * rate
  {
    assert (x + y) as real == x as real + y as real;
    assert Hours(x + y) == Hours(x) + Hours(y);
  }

  lemma HoursOfNothing(rate: real)
    ensures Hours(0) * rate == 0.0
  {
  }

  lemma RatesAreNonNegative(c: Card, rate: real)
    requires rate > 0.0
    ensures Rate(c, rate) >= 0.0
  {
  }

  lemma HoursNonNegative(x: Time, rate: real)
    requires x >= 0 && rate >= 0.0
    ensures Hours(x) * rate >= 0.0
  {
    assert x as real >= 0.0;
  }

  lemma ClampTwice(s: real, a: real, b: real)
    requires 0.0 <= s <= 1.0 && a >= 0.0 && b >= 0.0
    ensures ClampUnit(ClampUnit(s - a) - b) == ClampUnit(s - (a + b))
  {
  }

  lemma IdealFrom(c0: Card, rate: real, now: Time, passed: Time)
    requires passed == now - EvaluatedAt(c0) >= 0
    ensures Ideal(c0, rate, now) == ClampUnit(c0.activation.score - Loss(passed, Rate(c0, rate)))
  {
  }

  /** Clamped decay over two stretches of time is clamped decay over both. */
  lemma DecayAddsUp(s: real, x: Time, y: Time, both: Time, r: real)
    requires 0.0 <= s <= 1.0 && x >= 0 && y >= 0 && both == x + y && r >= 0.0
    ensures Loss(y, r) >= 0.0
    ensures ClampUnit(ClampUnit(s - Loss(x, r)) - Loss(y, r)) == ClampUnit(s - Loss(both, r))
  {
    HoursNonNegative(x, r);
    HoursNonNegative(y, r);
    HoursAddUp(x, y, r);
    ClampTwice(s, Loss(x, r), Loss(y, r));
  }

  /** Continuous decay from `c0` to `c` and on to `now` is continuous decay from `c0` to `now`. */
  lemma IdealComposes(c0: Card, c: Card, rate: real, now: Time)
    requires rate > 0.0 && UnitScore(c0) && OnCurve(c0, c, rate) && EvaluatedAt(c) <= now
    ensures ClampUnit(c.activation.score - Loss(now - EvaluatedAt(c), Rate(c, rate))) == Ideal(c0, rate, now)
    ensures Loss(now - EvaluatedAt(c), Rate(c, rate)) >= 0.0
  {
    RatesAreNonNegative(c0, rate);
    IdealFrom(c0, rate, EvaluatedAt(c), EvaluatedAt(c) - EvaluatedAt(c0));
    IdealFrom(c0, rate, now, now - EvaluatedAt(c0));
    DecayAddsUp(c0.activation.score, EvaluatedAt(c) - EvaluatedAt(c0), now - EvaluatedAt(c), now - EvaluatedAt(c0),
      Rate(c0, rate));
  }

  /** After one pass that finds the card active or stale, its score lags the curve by at most 0.001. */
  lemma PassTracksCurve(c0: Card, c: Card, g: Governance)
    requires g.rate > 0.0 && UnitScore(c0) && OnCurve(c0, c, g.rate)
    requires EvaluatedAt(c) <= g.now || EvaluatedAt(c) == EvaluatedAt(c0)
    ensures OnCurve(c0, Pass(c, g), g.rate)
    ensures Governed(c) ==>
              Ideal(c0, g.rate, g.now) <= Pass(c, g).activation.score <= Ideal(c0, g.rate, g.now) + 0.001
    ensures EvaluatedAt(Pass(c, g)) == EvaluatedAt(c) || EvaluatedAt(Pass(c, g)) == g.now
  {
    if EvaluatedAt(c) <= g.now {
      IdealComposes(c0, c, g.rate, g.now);
      PassFollows(c, g, Ideal(c0, g.rate, g.now));
    } else {
      HoursOfNothing(Rate(c0, g.rate));
      assert Hours(g.now - EvaluatedAt(c)) <= 0.0;
    }
  }

  /** A pass either takes over the continuously decayed score or, when that is negligibly lower,
    leaves the card alone. */
  lemma PassFollows(c: Card, g: Governance, ideal: real)
    requires UnitScore(c) && g.rate > 0.0 && EvaluatedAt(c) <= g.now && DecayAmount(c, g) >= 0.0
    requires ideal == ClampUnit(c.activation.score - DecayAmount(c, g))
    ensures Pass(c, g).activation.policy == c.activation.policy && Pass(c, g).createdAt == c.createdAt
    ensures Governed(c) ==> ideal <= Pass(c, g).activation.score <= ideal + 0.001
    ensures Pass(c, g) == c || (EvaluatedAt(Pass(c, g)) == g.now && Pass(c, g).activation.score == ideal)
  {
  }

  /**
   Decay does not depend on the schedule of passes: whenever the last pass found the card active or
   stale, its score is the continuously decayed one, at most 0.001 above it.
   */
  lemma {:induction false} DecayIgnoresSchedule(c0: Card, gs: seq<Governance>, rate: real)
    requires rate > 0.0 && UnitScore(c0) && Schedule(gs, rate)
    ensures OnCurve(c0, Passes(c0, gs), rate)
    ensures EvaluatedAt(Passes(c0, gs)) == EvaluatedAt(c0) ||
            (gs != [] && EvaluatedAt(Passes(c0, gs)) <= Last(gs).now)
    ensures gs != [] && Governed(Passes(c0, gs[..|gs| - 1])) ==>
              var now := Last(gs).now;
              Ideal(c0, rate, now) <= Passes(c0, gs).activation.score <= Ideal(c0, rate, now) + 0.001
    decreases |gs|
  {
    if gs == [] {
      HoursOfNothing(Rate(c0, rate));
    } else {
      var init := gs[..|gs| - 1];
      DecayIgnoresSchedule(c0, init, rate);
      if init != [] {
        assert Last(init) == gs[|gs| - 2];
      }
      PassTracksCurve(c0, Passes(c0, init), Last(gs));
    }
  }

  // ----- Status -----

  function Rank(s: Status): int {
    match s
    case Active => 0
    case Stale => 1
    case Archived => 2
    case _ => -1
  }

  /** A pass moves a card at most one step along active, stale, archived and never touches the others. */
  lemma PassMovesOneStep(c: Card, g: Governance)
    ensures !Governed(c) ==> Pass(c, g) == c
    ensures Governed(c) ==> Rank(c.status) <= Rank(Pass(c, g).status) <= Rank(c.status) + 1
    ensures Pass(c, g).status == Archived && c.status != Archived ==> Pass(c, g).activation.score < g.archiveBelow
    ensures Pass(c, g).status == Stale && c.status != Stale ==> Pass(c, g).activation.score < g.staleBelow
  {
  }

  /** A second pass with the same options changes nothing. */
  lemma PassIsIdempotent(c: Card, g: Governance)
    ensures Pass(Pass(c, g), g) == Pass(c, g)
    ensures Decayed(Pass(c, g), g).None?
  {
    if Decayed(c, g).Some? {
      HoursOfNothing(1.0);
      assert EvaluatedAt(Pass(c, g)) == g.now;
      assert Hours(g.now - EvaluatedAt(Pass(c, g))) == 0.0;
    }
  }

  /** With usable thresholds, an active or stale card at score zero is archived by at most two effective passes. */
  lemma ZeroIsArchived(c: Card, g1: Governance, g2: Governance)
    requires Governed(c) && c.activation.score == 0.0 && c.activation.policy != "never"
    requires 0.0 < g1.archiveBelow <= g1.staleBelow && 0.0 < g2.archiveBelow <= g2.staleBelow
    requires g1.rate > 0.0 && g2.rate > 0.0
    requires DueForDecay(c, g1) && (Governed(Pass(c, g1)) ==> DueForDecay(Pass(c, g1), g2))
    ensures c.status == Stale ==> Pass(c, g1).status == Archived
    ensures Pass(Pass(c, g1), g2).status == Archived
  {
    assert ClampUnit(0.0 - DecayAmount(c, g1)) == 0.0;
    var c1 := Pass(c, g1);
    assert c1.activation.score == 0.0;
    if Governed(c1) {
      assert ClampUnit(0.0 - DecayAmount(c1, g2)) == 0.0;
    }
  }

  // ----- The whole store -----

  /** The store after a pass over all cards. */
  function DecayAll(mem: Mem, g: Governance): Mem {
    Partly(mem, g, mem.cards.Keys)
  }

  /** Every visiting order gives the same store; each card's new latest version is one `Pass` away. */
  lemma DecayOrderIsIrrelevant(world: World, g: Governance, order: seq<Id>)
    requires WellFormed(world.mem) && Visits(world.mem, order)
    ensures Step(world, Decay(g, order)).mem == DecayAll(world.mem, g)
    ensures forall id :: id in world.mem.cards ==>
              Last(DecayAll(world.mem, g).cards[id]) == Pass(Last(world.mem.cards[id]), g)
  {
    DecayWritesAreLegal(world, g, order);
    forall id | id in world.mem.cards
      ensures Last(AfterPass(world.mem.cards[id], g)) == Pass(Last(world.mem.cards[id]), g)
    {
      assert Chain(id, world.mem.cards[id]);
    }
  }

  /** A second pass over the store with the same options writes nothing. */
  lemma DecayAllIsIdempotent(mem: Mem, g: Governance)
    requires WellFormed(mem)
    ensures DecayAll(DecayAll(mem, g), g) == DecayAll(mem, g)
  {
    var once := DecayAll(mem, g);
    forall id | id in mem.cards
      ensures AfterPass(once.cards[id], g) == once.cards[id]
    {
      assert Chain(id, mem.cards[id]);
      PassIsIdempotent(Last(mem.cards[id]), g);
      assert Last(once.cards[id]) == Pass(Last(mem.cards[id]), g);
    }
    assert DecayAll(once, g).cards == once.cards;
  }

  /** The decay passes among the operations. */
  function PassesOf(ops: seq<Op>): seq<Governance> {
    if ops == [] then []
    else PassesOf(ops[..|ops| - 1]) + (if Last(ops).Decay? then [Last(ops).g] else [])
  }

  /** The operation neither updates nor touches the card. */
  predicate Leaves(op: Op, id: Id) {
    op.Update? || op.Touch? ==> op.id != id
  }

  /** An operation on something else leaves the card alone. */
  lemma OtherOpLeaves(world: World, op: Op, id: Id)
    requires WellFormed(world.mem) && id in world.mem.cards && Leaves(op, id) && !op.Decay?
    ensures var mem := Step(world, op).mem; id in mem.cards && mem.cards[id] == world.mem.cards[id]
  {
    var ws := Writes(world.mem, op);
    WritesElsewhere(world.mem, op, id);
    if ws != [] {
      assert ws == [ws[0]];
      OneWrite(world, ws[0]);
    }
  }

  lemma WritesElsewhere(mem: Mem, op: Op, id: Id)
    requires WellFormed(mem) && id in mem.cards && Leaves(op, id) && !op.Decay?
    ensures |Writes(mem, op)| <= 1
    ensures forall w :: w in Writes(mem, op) && w.PutCard? ==> w.card.id != id
  {
    if (op.Update? || op.Touch?) && op.id in mem.cards {
      assert Chain(op.id, mem.cards[op.id]);
      assert Follows(op.id, mem.cards[op.id], |mem.cards[op.id]| - 1);
    }
  }

  lemma StepPasses(world: World, op: Op, id: Id)
    requires WellFormed(world.mem) && Enabled(world.mem, op) && id in world.mem.cards && Leaves(op, id)
    ensures var mem := Step(world, op).mem;
            && id in mem.cards && mem.cards[id] != [] && world.mem.cards[id] != []
            && Last(mem.cards[id]) ==
               (if op.Decay? then Pass(Last(world.mem.cards[id]), op.g) else Last(world.mem.cards[id]))
  {
    assert Chain(id, world.mem.cards[id]);
    if op.Decay? {
      DecayOrderIsIrrelevant(world, op.g, op.order);
    } else {
      OtherOpLeaves(world, op, id);
    }
  }

  /** A run that leaves the card to decay takes it through the passes among its operations. */
  lemma {:induction false} DecayRun(world: World, ops: seq<Op>, id: Id)
    requires WellFormed(world.mem) && EnabledAll(world, ops) && id in world.mem.cards
    requires forall op :: op in ops ==> Leaves(op, id)
    ensures world.mem.cards[id] != []
    ensures var mem := RunAll(world, ops).mem;
            id in mem.cards && mem.cards[id] != [] &&
            Last(mem.cards[id]) == Passes(Last(world.mem.cards[id]), PassesOf(ops))
    decreases |ops|
  {
    assert Chain(id, world.mem.cards[id]);
    if ops != [] {
      var init, op := ops[..|ops| - 1], Last(ops);
      DecayRun(world, init, id);
      RunKeepsWellFormed(world, init);
      StepPasses(RunAll(world, init), op, id);
      if op.Decay? {
        assert PassesOf(ops)[..|PassesOf(ops)| - 1] == PassesOf(init);
      } else {
        assert PassesOf(ops) == PassesOf(init);
      }
    }
  }

  /** Nothing decays after the pass at `k`, and before it the run was one too. */
  lemma {:induction false} LastPass(world: World, ops: seq<Op>, k: nat)
    requires EnabledAll(world, ops) && k < |ops| && ops[k].Decay?
    requires forall i :: k < i < |ops| ==> !ops[i].Decay?
    ensures EnabledAll(world, ops[..k]) && PassesOf(ops) == PassesOf(ops[..k]) + [ops[k].g]
    decreases |ops|
  {
    if k < |ops| - 1 {
      var init := ops[..|ops| - 1];
      LastPass(world, init, k);
      assert init[..k] == ops[..k];
    }
  }

  /**
   The schedule theorem for a card that is otherwise left alone, in a store where anything else may happen: any
   passes, any visiting orders, and any operations on other cards and on edges between them and after the last.
   */
  lemma StoreDecayIgnoresSchedule(world: World, ops: seq<Op>, k: nat, id: Id, rate: real)
    requires WellFormed(world.mem) && EnabledAll(world, ops) && id in world.mem.cards
    requires forall op :: op in ops ==> Leaves(op, id)
    requires k < |ops| && ops[k].Decay? && forall i :: k < i < |ops| ==> !ops[i].Decay?
    requires rate > 0.0 && Schedule(PassesOf(ops), rate)
    ensures var before, after := RunAll(world, ops[..k]).mem, RunAll(world, ops).mem;
            && id in before.cards && before.cards[id] != [] && id in after.cards && after.cards[id] != []
            && (Governed(Last(before.cards[id])) ==>
                 var ideal := Ideal(Last(world.mem.cards[id]), rate, ops[k].g.now);
                 ideal <= Last(after.cards[id]).activation.score <= ideal + 0.001)
  {
    var c0, gs := Last(world.mem.cards[id]), PassesOf(ops);
    assert UnitScore(c0) by {
      assert Follows(id, world.mem.cards[id], |world.mem.cards[id]| - 1);
    }
    LastPass(world, ops, k);
    assert gs[..|gs| - 1] == PassesOf(ops[..k]);
    DecayIgnoresSchedule(c0, gs, rate);
    DecayRun(world, ops, id);
    DecayRun(world, ops[..k], id);
  }

  datatype Tally = Tally(examined: nat, decayed: nat, staled: nat, archived: nat)

  function Bump(n: nat, yes: bool): nat {
    if yes then n + 1 else n
  }

  predicate Moves(c: Card, g: Governance, to_: Status) {
    c.status != to_ && Pass(c, g).status == to_
  }

  function TallyOne(t: Tally, versions: seq<Card>, g: Governance): Tally {
    if versions == [] then t
    else
      var c := Last(versions);
      Tally(Bump(t.examined, Governed(c)), Bump(t.decayed, Decayed(c, g).Some?),
            Bump(t.staled, Moves(c, g, Stale)), Bump(t.archived, Moves(c, g, Archived)))
  }

  function TallyOf(mem: Mem, g: Governance, order: seq<Id>): Tally {
    if order == [] then Tally(0, 0, 0, 0)
    else TallyOne(TallyOf(mem, g, order[..|order| - 1]), Get(mem.cards, Last(order)), g)
  }

  ghost predicate Latest(mem: Mem, id: Id, p: Card -> bool) {
    Get(mem.cards, id) != [] && p(Last(mem.cards[id]))
  }

  ghost function Such(mem: Mem, ids: set<Id>, p: Card -> bool): set<Id> {
    set id | id in ids && Latest(mem, id, p)
  }

  lemma SuchGrows(mem: Mem, ids: set<Id>, id: Id, p: Card -> bool)
    requires id !in ids
    ensures |Such(mem, ids + {id}, p)| == Bump(|Such(mem, ids, p)|, Latest(mem, id, p))
  {
    if Latest(mem, id, p) {
      assert Such(mem, ids + {id}, p) == Such(mem, ids, p) + {id};
    } else {
      assert Such(mem, ids + {id}, p) == Such(mem, ids, p);
    }
  }

  /** The counters of a pass are the numbers of governed, changed, newly stale and newly archived cards. */
  lemma {:induction false} TallyCounts(mem: Mem, g: Governance, order: seq<Id>)
    requires Distinct(order)
    ensures var t := TallyOf(mem, g, order);
            && t.examined == |Such(mem, Elements(order), c => Governed(c))|
            && t.decayed == |Such(mem, Elements(order), c => Decayed(c, g).Some?)|
            && t.staled == |Such(mem, Elements(order), c => Moves(c, g, Stale))|
            && t.archived == |Such(mem, Elements(order), c => Moves(c, g, Archived))|
            && t.staled + t.archived <= t.decayed <= t.examined
    decreases |order|
  {
    if order != [] {
      var init, id := order[..|order| - 1], Last(order);
      assert order == init + [id];
      assert Elements(order) == Elements(init) + {id};
      TallyCounts(mem, g, init);
      SuchGrows(mem, Elements(init), id, c => Governed(c));
      SuchGrows(mem, Elements(init), id, c => Decayed(c, g).Some?);
      SuchGrows(mem, Elements(init), id, c => Moves(c, g, Stale));
      SuchGrows(mem, Elements(init), id, c => Moves(c, g, Archived));
    }
  }
}
