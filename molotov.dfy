/**
 * The molotov: the fire placed around the landing point (activateMolotov),
 * the deferred reversion of each placed fire, and the per-tick landing
 * tracker (MolotovTracker.run).
 */
module Molotov {
  import opened Common

  const FIRE_RADIUS: int := 2
  const FIRE_DURATION_TICKS: int := 60
  const ACTIVATION_TICKS_THRESHOLD: int := 10
  const PROC_DELAY_TICKS: int := 2
  const FAILSAFE_TICKS: int := 60

  /** The type of a block in the world. */
  type Block = Material

  /** The type of the block at a position; a position the map leaves out is air. */
  function BlockAt(w: map<Pos, Block>, p: Pos): Block
  {
    if p in w then w[p] else Air
  }

  function Below(p: Pos): Pos
  {
    Pos(p.x, p.y - 1, p.z)
  }

  /** The 5x5 square of cells, on the landing block's level, whose centre is `c`. */
  predicate InRing(c: Pos, p: Pos)
  {
    p.y == c.y && c.x - FIRE_RADIUS <= p.x <= c.x + FIRE_RADIUS && c.z - FIRE_RADIUS <= p.z <= c.z + FIRE_RADIUS
  }

  function RingCells(c: Pos): (cells: set<Pos>)
    ensures forall p :: p in cells <==> InRing(c, p)
  {
    set x, z | c.x - FIRE_RADIUS <= x <= c.x + FIRE_RADIUS && c.z - FIRE_RADIUS <= z <= c.z + FIRE_RADIUS
             :: Pos(x, c.y, z)
  }

  /** A fire goes into a cell when the block below it is solid and the cell itself is (plain) air. */
  predicate Placeable(w: map<Pos, Block>, p: Pos)
  {
    IsSolid(BlockAt(w, Below(p))) && BlockAt(w, p) == Air
  }

  predicate Ignites(w: map<Pos, Block>, c: Pos, p: Pos)
  {
    InRing(c, p) && Placeable(w, p)
  }

  /** The world after the fire placement around `c`. */
  function Ignite(w: map<Pos, Block>, c: Pos): (r: map<Pos, Block>)
    ensures forall p :: BlockAt(r, p) == if Ignites(w, c, p) then Fire else BlockAt(w, p)
  {
    w + map p | p in RingCells(c) && Placeable(w, p) :: Fire
  }

  /** After a fire placement, no cell qualifies for fire again. */
  lemma NothingIgnitesTwice(w: map<Pos, Block>, c: Pos, p: Pos)
    ensures !Ignites(Ignite(w, c), c, p)
  {
  }

  /** Placing the fire twice around the same point is placing it once. */
  lemma IgniteIdempotent(w: map<Pos, Block>, c: Pos)
    ensures forall p :: BlockAt(Ignite(Ignite(w, c), c), p) == BlockAt(Ignite(w, c), p)
  {
    forall p ensures BlockAt(Ignite(Ignite(w, c), c), p) == BlockAt(Ignite(w, c), p) {
      NothingIgnitesTwice(w, c, p);
    }
  }

  /** The deferred task of one placed fire: the cell becomes air only if it still burns. */
  function Revert(w: map<Pos, Block>, cell: Pos): (r: map<Pos, Block>)
    ensures BlockAt(r, cell) == if BlockAt(w, cell) == Fire then Air else BlockAt(w, cell)
    ensures forall p :: p != cell ==> BlockAt(r, p) == BlockAt(w, p)
  {
    if BlockAt(w, cell) == Fire then w[cell := Air] else w
  }

  /** The deferred tasks run one after the other. */
  function RevertAll(w: map<Pos, Block>, cells: seq<Pos>): map<Pos, Block>
    decreases |cells|
  {
    if cells == [] then w else RevertAll(Revert(w, cells[0]), cells[1..])
  }

  /**
   * Reverting cells that were air and now burn restores them, when nothing
   * else changed in between; cells that still burn are the only difference
   * the reverts may remove.
   */
  lemma {:induction false} RevertAllRestores(w: map<Pos, Block>, m: map<Pos, Block>, cells: seq<Pos>)
    requires forall p :: p in cells ==> BlockAt(w, p) == Air
    requires forall p :: BlockAt(m, p) == BlockAt(w, p) || (p in cells && BlockAt(m, p) == Fire)
    ensures forall p :: BlockAt(RevertAll(m, cells), p) == BlockAt(w, p)
    decreases |cells|
  {
    if cells != [] {
      var m' := Revert(m, cells[0]);
      forall p ensures BlockAt(m', p) == BlockAt(w, p) || (p in cells[1..] && BlockAt(m', p) == Fire) {
        if p != cells[0] {
          assert p in cells ==> p in cells[1..];
        }
      }
      RevertAllRestores(w, m', cells[1..]);
    }
  }

  /**
   * A fire placement followed, sixty ticks later, by the reverts it scheduled
   * gives back the world it started from, if nothing else touched those cells.
   */
  lemma IgniteThenRevertRestores(w: map<Pos, Block>, c: Pos, scheduled: seq<Pos>)
    requires forall p :: p in scheduled <==> Ignites(w, c, p)
    ensures forall p :: BlockAt(RevertAll(Ignite(w, c), scheduled), p) == BlockAt(w, p)
  {
    RevertAllRestores(w, Ignite(w, c), scheduled);
  }

  class World {
    var blocks: map<Pos, Block>

    constructor (blocks: map<Pos, Block>)
      ensures this.blocks == blocks
    {
      this.blocks := blocks;
    }

    /**
     * The fire placement of activateMolotov around the landing block `c`:
     * every cell of the 5x5 square is visited, x-major, and set on fire when
     * it qualifies. Returns the cells whose deferred revert was scheduled,
     * each once.
     */
    method Activate(c: Pos) returns (scheduled: seq<Pos>)
      modifies this
      ensures forall p :: BlockAt(blocks, p) == BlockAt(Ignite(old(blocks), c), p)
      ensures forall p :: p in scheduled <==> Ignites(old(blocks), c, p)
      ensures forall i, j :: 0 <= i < j < |scheduled| ==> scheduled[i] != scheduled[j]
    {
      ghost var w0 := blocks;
      scheduled := [];
      var x := -FIRE_RADIUS;
      while x <= FIRE_RADIUS
        invariant -FIRE_RADIUS <= x <= FIRE_RADIUS + 1
        invariant forall p :: BlockAt(blocks, p) == if Ignites(w0, c, p) && p.x < c.x + x then Fire else BlockAt(w0, p)
        invariant forall p :: p in scheduled <==> Ignites(w0, c, p) && p.x < c.x + x
        invariant forall i, j :: 0 <= i < j < |scheduled| ==> scheduled[i] != scheduled[j]
      {
        var z := -FIRE_RADIUS;
        while z <= FIRE_RADIUS
          invariant -FIRE_RADIUS <= z <= FIRE_RADIUS + 1
          invariant forall p :: BlockAt(blocks, p) ==
                      if Ignites(w0, c, p) && (p.x < c.x + x || (p.x == c.x + x && p.z < c.z + z)) then Fire else BlockAt(w0, p)
          invariant forall p :: p in scheduled <==> Ignites(w0, c, p) && (p.x < c.x + x || (p.x == c.x + x && p.z < c.z + z))
          invariant forall i, j :: 0 <= i < j < |scheduled| ==> scheduled[i] != scheduled[j]
        {
          var below := Pos(c.x + x, c.y - 1, c.z + z);
          var cell := Pos(c.x + x, c.y, c.z + z);
          assert below == Below(cell);
          if IsSolid(BlockAt(blocks, below)) && BlockAt(blocks, cell) == Air {
            blocks := blocks[cell := Fire];
            scheduled := scheduled + [cell];
          }
          z := z + 1;
        }
        x := x + 1;
      }
    }

    /** The deferred revert of one placed fire, run FIRE_DURATION_TICKS later. */
    method RevertFire(cell: Pos)
      modifies this
      ensures blocks == Revert(old(blocks), cell)
    {
      if BlockAt(blocks, cell) == Fire {
        blocks := blocks[cell := Air];
      }
    }
  }

  // ---------------------------------------------------------------------
  // The landing tracker
  // ---------------------------------------------------------------------

  /**
   * What one tick of the tracker reads from the thrown entity: whether it is
   * still valid, its age in ticks, whether the block under it is air in the
   * sense of Material.isAir() (plain or cave air, where the fire placement
   * asks for plain Air), its ground and water contact, and the block it is
   * in (the fire's centre).
   */
  datatype MolotovSample = MolotovSample(valid: bool, ticksLived: int, belowIsAir: bool,
                                         onGround: bool, inWater: bool, center: Pos)

  /** The tracker's fields: the stationary counter, and whether the task is cancelled. */
  datatype TrackerState = TrackerState(ticksStationary: int, cancelled: bool)

  const INITIAL := TrackerState(0, false)

  /** One tick: the new state and how many times the fire effect ran in it. */
  datatype MolotovOutcome = MolotovOutcome(next: TrackerState, activations: nat)

  /**
   * One tick of MolotovTracker.run, as the scheduler drives it: a cancelled
   * task is not run again. The clean landing and the failsafe are two
   * independent tests, so both can fire in the same tick.
   */
  function MolotovStep(st: TrackerState, s: MolotovSample): (o: MolotovOutcome)
    ensures st.cancelled ==> o == MolotovOutcome(st, 0)
    ensures !st.cancelled && !s.valid ==> o == MolotovOutcome(st.(cancelled := true), 0)
    ensures !st.cancelled && s.valid && s.ticksLived < ACTIVATION_TICKS_THRESHOLD ==> o == MolotovOutcome(st, 0)
    ensures !st.cancelled && s.valid && s.ticksLived >= ACTIVATION_TICKS_THRESHOLD ==>
              o.next.ticksStationary == (if s.belowIsAir then 0 else st.ticksStationary + 1)
    ensures o.activations <= 2
    ensures o.activations > 0 <==> !st.cancelled && o.next.cancelled && s.valid
    ensures !st.cancelled && s.valid && s.ticksLived > FAILSAFE_TICKS ==> o.activations >= 1 && o.next.cancelled
    ensures !st.cancelled && s.valid && ACTIVATION_TICKS_THRESHOLD <= s.ticksLived <= FAILSAFE_TICKS ==>
              (o.activations == 1 <==> !s.belowIsAir && st.ticksStationary + 1 >= PROC_DELAY_TICKS
                                       && (s.onGround || s.inWater))
              && (o.next.cancelled <==> o.activations == 1)
    ensures o.activations == 2 <==> !st.cancelled && s.valid && s.ticksLived > FAILSAFE_TICKS
                                    && !s.belowIsAir && st.ticksStationary + 1 >= PROC_DELAY_TICKS
                                    && (s.onGround || s.inWater)
  {
    if st.cancelled then MolotovOutcome(st, 0)
    else if !s.valid then MolotovOutcome(st.(cancelled := true), 0)
    else if s.ticksLived < ACTIVATION_TICKS_THRESHOLD then MolotovOutcome(st, 0)
    else
      var count := if !s.belowIsAir then st.ticksStationary + 1 else 0;
      var clean := count >= PROC_DELAY_TICKS && (s.onGround || s.inWater);
      var failsafe := s.ticksLived > FAILSAFE_TICKS;
      MolotovOutcome(TrackerState(count, clean || failsafe),
                     (if clean then 1 else 0) + (if failsafe then 1 else 0))
  }

  /** A sequence of ticks: the final state and the number of activations in all. */
  function MolotovRun(st: TrackerState, samples: seq<MolotovSample>): MolotovOutcome
    decreases |samples|
  {
    if samples == [] then MolotovOutcome(st, 0)
    else
      var first := MolotovStep(st, samples[0]);
      var rest := MolotovRun(first.next, samples[1..]);
      MolotovOutcome(rest.next, first.activations + rest.activations)
  }

  /** Once cancelled, the tracker stays as it is and never fires again. */
  lemma {:induction false} CancelledIsTerminal(st: TrackerState, samples: seq<MolotovSample>)
    requires st.cancelled
    ensures MolotovRun(st, samples) == MolotovOutcome(st, 0)
    decreases |samples|
  {
    if samples != [] {
      CancelledIsTerminal(st, samples[1..]);
    }
  }

  /**
   * Over any sequence of ticks the effect runs at most twice, and twice only
   * through a clean landing and the failsafe in one and the same tick.
   */
  lemma {:induction false} AtMostTwoActivations(st: TrackerState, samples: seq<MolotovSample>)
    ensures MolotovRun(st, samples).activations <= 2
    ensures st.cancelled ==> MolotovRun(st, samples).activations == 0
    decreases |samples|
  {
    if samples != [] {
      var first := MolotovStep(st, samples[0]);
      if first.next.cancelled {
        CancelledIsTerminal(first.next, samples[1..]);
      } else {
        AtMostTwoActivations(first.next, samples[1..]);
      }
    }
  }

  /**
   * The failsafe deadline: if the entity stays valid and the last tick sees
   * it older than 60 ticks, the tracker has fired and stopped by then.
   */
  lemma {:induction false} FailsafeDeadline(st: TrackerState, samples: seq<MolotovSample>)
    requires !st.cancelled
    requires forall i :: 0 <= i < |samples| ==> samples[i].valid
    requires samples != [] && samples[|samples| - 1].ticksLived > FAILSAFE_TICKS
    ensures MolotovRun(st, samples).next.cancelled
    ensures MolotovRun(st, samples).activations >= 1
    decreases |samples|
  {
    var first := MolotovStep(st, samples[0]);
    if |samples| > 1 {
      if first.next.cancelled {
        CancelledIsTerminal(first.next, samples[1..]);
      } else {
        FailsafeDeadline(first.next, samples[1..]);
      }
    }
  }

  /** A clean landing past the failsafe age runs the effect twice in that tick. */
  lemma DoubleActivationAtFailsafeAge(c: Pos)
    ensures MolotovStep(TrackerState(1, false), MolotovSample(true, 61, false, true, false, c)).activations == 2
  {
  }

  class MolotovTracker {
    var ticksStationary: int
    var cancelled: bool

    function State(): TrackerState
      reads this
    {
      TrackerState(ticksStationary, cancelled)
    }

    constructor ()
      ensures State() == INITIAL
    {
      ticksStationary := 0;
      cancelled := false;
    }

    /**
     * One scheduled run of the tracker. The state and the activation count
     * follow MolotovStep; each activation places the fire around the
     * entity's block and removes the entity. The second activation of a
     * double-firing tick changes no block and schedules no revert.
     */
    method Run(s: MolotovSample, world: World) returns (activations: nat, scheduled: seq<Pos>, removed: bool)
      modifies this, world
      ensures MolotovOutcome(State(), activations) == MolotovStep(old(State()), s)
      ensures removed <==> activations > 0
      ensures activations == 0 ==> world.blocks == old(world.blocks) && scheduled == []
      ensures activations > 0 ==> forall p :: BlockAt(world.blocks, p) == BlockAt(Ignite(old(world.blocks), s.center), p)
      ensures activations > 0 ==> forall p :: p in scheduled <==> Ignites(old(world.blocks), s.center, p)
    {
      activations, scheduled, removed := 0, [], false;
      if cancelled {
        return;
      }
      if !s.valid {
        cancelled := true;
        return;
      }
      if s.ticksLived < ACTIVATION_TICKS_THRESHOLD {
        return;
      }
      if !s.belowIsAir {
        ticksStationary := ticksStationary + 1;
      } else {
        ticksStationary := 0;
      }
      ghost var w0 := world.blocks;
      if ticksStationary >= PROC_DELAY_TICKS {
        if s.onGround || s.inWater {
          scheduled := world.Activate(s.center);
          removed := true;
          activations := activations + 1;
          cancelled := true;
        }
      }
      if s.ticksLived > FAILSAFE_TICKS {
        ghost var w1 := world.blocks;
        var again := world.Activate(s.center);
        if activations > 0 {
          forall p ensures BlockAt(world.blocks, p) == BlockAt(Ignite(w0, s.center), p) && p !in again {
            NothingIgnitesTwice(w0, s.center, p);
            assert BlockAt(Ignite(w1, s.center), p) == BlockAt(Ignite(Ignite(w0, s.center), s.center), p);
            assert Ignites(w1, s.center, p) == Ignites(Ignite(w0, s.center), s.center, p);
          }
        }
        scheduled := scheduled + again;
        removed := true;
        activations := activations + 1;
        cancelled := true;
      }
    }
  }
}
