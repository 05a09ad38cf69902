/**
 The beam monitors of `sixtracklib/common/be_monitor`.
 */

/** Facts about division and remainder by a variable. */
module DivMod {
  lemma Unique(x: int, d: int, q: int, r: int)
    requires d > 0 && 0 <= r < d && x == q * d + r
    ensures x / d == q && x % d == r
  {
    assert (x / d - q) * d == r - x % d;
    Multiples(x / d - q, d);
  }

  lemma Multiples(k: int, d: int)
    requires d > 0
    ensures k >= 1 ==> k * d >= d
    ensures k >= 2 ==> k * d >= 2 * d
    ensures k <= 0 ==> k * d <= 0
    ensures k <= -1 ==> k * d <= -d
  {
    assert k * d == (k - 1) * d + d == (k - 2) * d + 2 * d == (k + 1) * d - d;
  }

  lemma AtLeastOne(x: nat, d: nat)
    requires d > 0
    ensures x / d >= 1 <==> x >= d
  {
    if x < d {
      Unique(x, d, 0, x);
    } else {
      assert x == x / d * d + x % d;
      Multiples(x / d, d);
    }
  }

  lemma Successor(x: nat, d: nat)
    requires d > 0
    ensures if x % d == d - 1 then (x + 1) / d == x / d + 1 && (x + 1) % d == 0
            else (x + 1) / d == x / d && (x + 1) % d == x % d + 1
  {
    if x % d == d - 1 {
      Unique(x + 1, d, x / d + 1, 0);
    } else {
      Unique(x + 1, d, x / d, x % d + 1);
    }
  }
}

/** Beam monitors: where `Track_particle_beam_monitor` writes a particle at a turn, what the output
    buffer holds in the end, and what `BeamMonitor_has_turn_stored` predicts. */
module Monitors {
  import opened Common
  import DivMod

  /** `particles` is the size of the range of particle ids, max - min + 1; a particle goes by the
      offset of its id in that range. */
  datatype Monitor = Monitor(numStores: int, start: int, skip: int, rolling: bool, turnOrdered: bool,
                             particles: int)

  // What the storing code asserts.
  predicate Usable(m: Monitor) {
    m.numStores > 0 && m.skip >= 1 && m.particles >= 1
  }

  /** The slot of a turn, if it has one. */
  function StoreIndex(m: Monitor, turn: int): (r: Option<int>)
    requires Usable(m)
    ensures r.Some? ==> r.value < m.numStores
  {
    var since := turn - m.start;
    if since >= 0 && since % m.skip == 0 then
      var index := since / m.skip;
      var slot := if index >= m.numStores && m.rolling then index % m.numStores else index;
      if slot < m.numStores then Some(slot) else None
    else None
  }

  /** The record of a particle's slot, in either layout. */
  function Position(m: Monitor, p: int, slot: int): int {
    if m.turnOrdered then m.particles * slot + p else p * m.particles + slot
  }

  /** `BeamMonitor_stored_num_particles`: the records of the output buffer. */
  function Capacity(m: Monitor): int {
    m.particles * m.numStores
  }

  /** A particle passing the monitor at a turn. */
  datatype Sample = Sample(particle: nat, turn: int)

  function RecordOf(m: Monitor, s: Sample): Option<int>
    requires Usable(m)
  {
    match StoreIndex(m, s.turn)
    case None => None
    case Some(slot) => Some(Position(m, s.particle, slot))
  }

  /** What the records hold after the given passages, those written beyond the buffer included. */
  function Records(m: Monitor, tracked: seq<Sample>): map<int, Sample>
    requires Usable(m)
  {
    if tracked == [] then map[]
    else
      var before, last := Records(m, tracked[..|tracked| - 1]), tracked[|tracked| - 1];
      match RecordOf(m, last)
      case None => before
      case Some(r) => before[r := last]
  }

  /** The output buffer holds the sample. */
  ghost predicate Retained(m: Monitor, tracked: seq<Sample>, s: Sample)
    requires Usable(m)
  {
    exists r :: 0 <= r < Capacity(m) && r in Records(m, tracked) && Records(m, tracked)[r] == s
  }

  /** The turn that particle `p`, which starts at turn `first[p]`, runs next. */
  function Next(first: seq<int>, tracked: seq<Sample>, p: nat): int
    requires p < |first|
  {
    if tracked == [] then first[p]
    else
      var front, last := tracked[..|tracked| - 1], tracked[|tracked| - 1];
      if last.particle == p then last.turn + 1 else Next(first, front, p)
  }

  /** Every particle runs its turns one after the other; the particles take theirs in any order:
      one particle after the other, turn by turn, or in parallel. */
  ghost predicate IsRun(first: seq<int>, tracked: seq<Sample>)
    decreases |tracked|
  {
    tracked == [] ||
    (var front, last := tracked[..|tracked| - 1], tracked[|tracked| - 1];
     IsRun(first, front) && last.particle < |first| && last.turn == Next(first, front, last.particle))
  }

  /** `BeamMonitor_has_turn_stored`. */
  predicate HasTurnStored(m: Monitor, turn: int, maxTurns: int) {
    && m.start >= 0 && m.start <= turn && m.numStores > 0 && m.skip > 0
    && (maxTurns >= turn || maxTurns < 0)
    && (turn - m.start) % m.skip == 0
    && var index := (turn - m.start) / m.skip;
    if !m.rolling then index < m.numStores
    else
      && maxTurns > m.start
      && var span := maxTurns - m.start;
      span / m.skip + (if span % m.skip != 0 then 1 else 0) <= index + m.numStores
  }

  // --------------------------------------- the ring of samples behind a monitor

  /** How many turns below `turns` are sampled. */
  function Samples(m: Monitor, turns: int): int
    requires Usable(m)
  {
    if turns <= m.start then 0
    else (turns - m.start) / m.skip + if (turns - m.start) % m.skip != 0 then 1 else 0
  }

  predicate Sampled(m: Monitor, turn: int)
    requires Usable(m)
  {
    turn >= m.start && (turn - m.start) % m.skip == 0
  }

  function IndexOf(m: Monitor, turn: int): int
    requires Usable(m)
  {
    (turn - m.start) / m.skip
  }

  lemma SamplesStep(m: Monitor, turn: int)
    requires Usable(m)
    ensures if Sampled(m, turn)
            then Samples(m, turn) == IndexOf(m, turn) && Samples(m, turn + 1) == IndexOf(m, turn) + 1
            else Samples(m, turn + 1) == Samples(m, turn)
  {
    if turn >= m.start {
      DivMod.Successor(turn - m.start, m.skip);
      if m.skip == 1 {
        assert (turn - m.start) % 1 == 0 && (turn + 1 - m.start) % 1 == 0;
      }
      assert turn + 1 - m.start == (turn - m.start) + 1;
    }
  }

  // Indices of distinct sampled turns are ordered as the turns.
  lemma IndexOrder(m: Monitor, t: int, u: int)
    requires Usable(m) && Sampled(m, t) && Sampled(m, u) && t < u
    ensures 0 <= IndexOf(m, t) < IndexOf(m, u)
  {
    var a, b := IndexOf(m, t), IndexOf(m, u);
    assert t - m.start == a * m.skip && u - m.start == b * m.skip;
    assert (b - a) * m.skip == u - t;
    DivMod.Multiples(b - a, m.skip);
    DivMod.Multiples(a, m.skip);
  }

  /** Whether a particle's slot `slot` still holds `turn` once the turns below `turns` have run. */
  predicate Holding(m: Monitor, turns: int, slot: int, turn: int)
    requires Usable(m)
  {
    && turn < turns && Sampled(m, turn) && StoreIndex(m, turn) == Some(slot)
    && (m.rolling ==> Samples(m, turns) <= IndexOf(m, turn) + m.numStores)
  }

  // Two indices at most one lap apart share a slot only if they are exactly one lap apart.
  lemma OneLap(n: int, i: int, j: int)
    requires n > 0 && 0 <= i < j <= i + n
    ensures i % n == j % n <==> j == i + n
  {
    if j == i + n {
      DivMod.Unique(j, n, i / n + 1, i % n);
    } else if i % n == j % n {
      assert j - i == (j / n - i / n) * n;
      DivMod.Multiples(j / n - i / n, n);
    }
  }

  lemma SmallMod(i: int, n: int)
    requires 0 <= i < n
    ensures i % n == i
  {
    DivMod.Unique(i, n, 0, i);
  }

  // In a rolling monitor every sampled turn is written, to its index modulo the slots.
  lemma RollingSlot(m: Monitor, turn: int)
    requires Usable(m) && m.rolling && Sampled(m, turn)
    ensures StoreIndex(m, turn) == Some(IndexOf(m, turn) % m.numStores)
  {
    if IndexOf(m, turn) < m.numStores {
      SmallMod(IndexOf(m, turn), m.numStores);
    }
  }

  // Writing `turns` evicts exactly the turn one lap behind.
  lemma HoldingStep(m: Monitor, turns: int, slot: int, turn: int)
    requires Usable(m)
    ensures Holding(m, turns + 1, slot, turn) <==>
              (if StoreIndex(m, turns) == Some(slot) then turn == turns else Holding(m, turns, slot, turn))
  {
    SamplesStep(m, turns);
    if turn < turns && Sampled(m, turn) && Sampled(m, turns) {
      IndexOrder(m, turn, turns);
      var i, j := IndexOf(m, turn), IndexOf(m, turns);
      if m.rolling {
        RollingSlot(m, turn);
        RollingSlot(m, turns);
        if j <= i + m.numStores {
          OneLap(m.numStores, i, j);
        }
      }
    }
  }

  // What HasTurnStored says is what the ring holds, but for the turn that runs next.
  lemma HoldingIsPredicted(m: Monitor, turns: nat, turn: int)
    requires Usable(m) && m.start >= 0
    ensures (exists slot :: Holding(m, turns, slot, turn)) <==> HasTurnStored(m, turn, turns) && turn != turns
  {
    if HasTurnStored(m, turn, turns) && turn != turns {
      if m.rolling { RollingSlot(m, turn); }
      assert Holding(m, turns, StoreIndex(m, turn).value, turn);
    }
  }

  // ------------------------------------------------------------- the layouts

  predicate IsSlot(m: Monitor, p: int, slot: int) {
    0 <= p < m.particles && 0 <= slot < m.numStores
  }

  /** No two slots share a record. */
  ghost predicate Distinct(m: Monitor) {
    forall p, a, q, b ::
      IsSlot(m, p, a) && IsSlot(m, q, b) && Position(m, p, a) == Position(m, q, b) ==> p == q && a == b
  }

  /** Every slot has its record inside the buffer. */
  ghost predicate Inside(m: Monitor) {
    forall p, a :: IsSlot(m, p, a) ==> 0 <= Position(m, p, a) < Capacity(m)
  }

  /** The particle-ordered layout spaces the particles by their number, not by the number of
      stores: it is a layout of the buffer only where the two do not differ. */
  predicate Fits(m: Monitor) {
    m.turnOrdered || m.particles == 1 || m.numStores == m.particles
  }

  lemma DistinctIff(m: Monitor)
    requires Usable(m)
    ensures Distinct(m) <==> m.turnOrdered || m.particles == 1 || m.numStores <= m.particles
  {
    var n := m.particles;
    if m.turnOrdered || n == 1 || m.numStores <= n {
      forall p, a, q, b | IsSlot(m, p, a) && IsSlot(m, q, b) && Position(m, p, a) == Position(m, q, b)
        ensures p == q && a == b
      {
        if m.turnOrdered {
          DivMod.Unique(Position(m, p, a), n, a, p);
          DivMod.Unique(Position(m, q, b), n, b, q);
        } else if n > 1 {
          DivMod.Unique(Position(m, p, a), n, p, a);
          DivMod.Unique(Position(m, q, b), n, q, b);
        }
      }
    } else {
      assert IsSlot(m, 1, 0) && IsSlot(m, 0, n) && Position(m, 1, 0) == Position(m, 0, n);
    }
  }

  lemma TurnOrderIsInside(n: int, s: int, p: int, a: int)
    requires 0 <= p < n && 0 <= a < s
    ensures 0 <= n * a + p < n * s
  {
    DivMod.Multiples(-a, n);
    DivMod.Multiples(a - (s - 1), n);
    assert n * s == n * a + n - (a - (s - 1)) * n;
  }

  lemma Square(n: int, s: int, p: int)
    ensures p * n == (p - (n - 1)) * n + (n - 1) * n
    ensures n * s == (n - 1) * n + s - (n - s) * (n - 1)
  {
  }

  lemma ParticleOrderIsInside(n: int, s: int, p: int, a: int)
    requires 0 <= p < n <= s && 0 <= a < s
    ensures 0 <= p * n + a < n * s
  {
    DivMod.Multiples(-p, n);
    DivMod.Multiples(p - (n - 1), n);
    if n > 1 {
      DivMod.Multiples(n - s, n - 1);
    }
    Square(n, s, p);
  }

  lemma LastIsOutside(m: Monitor)
    requires Usable(m) && !m.turnOrdered && m.numStores < m.particles
    ensures IsSlot(m, m.particles - 1, 0) && Position(m, m.particles - 1, 0) >= Capacity(m)
  {
    DivMod.Multiples(m.numStores - (m.particles - 1), m.particles);
    assert Capacity(m) == (m.numStores - (m.particles - 1)) * m.particles + (m.particles - 1) * m.particles;
  }

  lemma InsideIff(m: Monitor)
    requires Usable(m)
    ensures Inside(m) <==> m.turnOrdered || m.particles == 1 || m.numStores >= m.particles
  {
    var n, s := m.particles, m.numStores;
    if m.turnOrdered {
      forall p, a | IsSlot(m, p, a) ensures 0 <= Position(m, p, a) < Capacity(m) {
        TurnOrderIsInside(n, s, p, a);
      }
    } else if s >= n {
      forall p, a | IsSlot(m, p, a) ensures 0 <= Position(m, p, a) < Capacity(m) {
        ParticleOrderIsInside(n, s, p, a);
      }
    } else {
      LastIsOutside(m);
    }
  }

  /** The records of all slots are inside the buffer and distinct exactly when the layout fits. */
  lemma RecordsFitIff(m: Monitor)
    requires Usable(m)
    ensures Distinct(m) && Inside(m) <==> Fits(m)
  {
    DistinctIff(m);
    InsideIff(m);
  }

  // ---------------------------------------------------- what the buffer holds

  // A slot is not negative, and a record holds what belongs there and did pass.
  lemma SlotIsNatural(m: Monitor, turn: int)
    requires Usable(m)
    ensures StoreIndex(m, turn).Some? ==> 0 <= StoreIndex(m, turn).value
  {
    if turn >= m.start {
      DivMod.Multiples((turn - m.start) / m.skip + 1, m.skip);
    }
  }

  lemma {:induction false} NextAfterFirst(first: seq<int>, tracked: seq<Sample>, p: nat)
    requires IsRun(first, tracked) && p < |first|
    ensures first[p] <= Next(first, tracked, p)
  {
    if tracked != [] {
      NextAfterFirst(first, tracked[..|tracked| - 1], p);
    }
  }

  lemma {:induction false} PassedBeforeNext(first: seq<int>, tracked: seq<Sample>, s: Sample)
    requires IsRun(first, tracked) && s in tracked
    ensures s.particle < |first| && first[s.particle] <= s.turn < Next(first, tracked, s.particle)
  {
    var front, last := tracked[..|tracked| - 1], tracked[|tracked| - 1];
    NextAfterFirst(first, front, last.particle);
    if s != last {
      assert s in front;
      PassedBeforeNext(first, front, s);
    }
  }

  lemma {:induction false} RecordedAtRecord(m: Monitor, tracked: seq<Sample>, r: int)
    requires Usable(m) && r in Records(m, tracked)
    ensures Records(m, tracked)[r] in tracked && RecordOf(m, Records(m, tracked)[r]) == Some(r)
  {
    var front, last := tracked[..|tracked| - 1], tracked[|tracked| - 1];
    if RecordOf(m, last) != Some(r) {
      RecordedAtRecord(m, front, r);
    }
  }

  /** In a layout without shared records, a particle's slots hold what its own ring holds, in every
      run and whatever the other particles do meanwhile. */
  lemma {:induction false} RecordsHold(m: Monitor, first: seq<int>, tracked: seq<Sample>, p: nat, slot: int, turn: int)
    requires Usable(m) && Distinct(m) && |first| == m.particles && IsRun(first, tracked)
    requires p < m.particles && 0 <= slot < m.numStores
    ensures var r := Position(m, p, slot);
            (r in Records(m, tracked) && Records(m, tracked)[r] == Sample(p, turn)) <==>
              first[p] <= turn && Holding(m, Next(first, tracked, p), slot, turn)
  {
    if tracked != [] {
      var front, last := tracked[..|tracked| - 1], tracked[|tracked| - 1];
      RecordsHold(m, first, front, p, slot, turn);
      SlotIsNatural(m, last.turn);
      if last.particle == p {
        NextAfterFirst(first, front, p);
        HoldingStep(m, last.turn, slot, turn);
      }
    }
  }

  /** Which turn a slot keeps, in plain arithmetic: of a particle that ran the turns from `begin` to
      `end` - 1, the sampled turn whose index is that of the slot; in a rolling monitor the slot goes
      round, and a turn stays until the one a full lap later has run. */
  predicate Keeps(m: Monitor, begin: int, end: int, slot: int, turn: int)
    requires m.skip >= 1 && m.numStores >= 1
  {
    && begin <= turn < end && m.start <= turn && (turn - m.start) % m.skip == 0
    && var index := (turn - m.start) / m.skip;
    if m.rolling then slot == index % m.numStores && end <= turn + m.numStores * m.skip else slot == index
  }

  // The number of samples so far is at most `n` exactly when `n` skips cover the turns.
  lemma SamplesWithin(m: Monitor, turns: int, n: int)
    requires Usable(m) && turns > m.start
    ensures Samples(m, turns) <= n <==> turns - m.start <= n * m.skip
  {
    var x := turns - m.start;
    var q, r := x / m.skip, x % m.skip;
    assert x == q * m.skip + r;
    assert n * m.skip - x == (n - q) * m.skip - r;
    DivMod.Multiples(n - q, m.skip);
  }

  lemma HoldingIsKeeping(m: Monitor, begin: int, end: int, slot: int, turn: int)
    requires Usable(m) && 0 <= slot < m.numStores
    ensures begin <= turn && Holding(m, end, slot, turn) <==> Keeps(m, begin, end, slot, turn)
  {
    if turn < end && Sampled(m, turn) {
      var index := IndexOf(m, turn);
      assert turn - m.start == index * m.skip;
      if m.rolling {
        RollingSlot(m, turn);
        SamplesWithin(m, end, index + m.numStores);
        assert (index + m.numStores) * m.skip == index * m.skip + m.numStores * m.skip;
      }
    }
  }

  lemma OnlyOwnSamples(m: Monitor, first: seq<int>, tracked: seq<Sample>, p: nat, slot: int)
    requires Usable(m) && Distinct(m) && |first| == m.particles && IsRun(first, tracked) && IsSlot(m, p, slot)
    requires Position(m, p, slot) in Records(m, tracked)
    ensures Records(m, tracked)[Position(m, p, slot)].particle == p
  {
    var s := Records(m, tracked)[Position(m, p, slot)];
    RecordedAtRecord(m, tracked, Position(m, p, slot));
    PassedBeforeNext(first, tracked, s);
    SlotIsNatural(m, s.turn);
    assert IsSlot(m, s.particle, StoreIndex(m, s.turn).value);
  }

  /** A turn-ordered buffer lies by slots first and particles second: record `slot * particles + p`
      holds the turns that slot `slot` of particle `p` keeps, and no other particle's. */
  lemma TurnOrderedContents(m: Monitor, first: seq<int>, tracked: seq<Sample>, p: nat, slot: int, turn: int)
    requires Usable(m) && m.turnOrdered && |first| == m.particles && IsRun(first, tracked)
    requires p < m.particles && 0 <= slot < m.numStores
    ensures var r, records := slot * m.particles + p, Records(m, tracked);
            && (r in records && records[r] == Sample(p, turn) <==>
                  Keeps(m, first[p], Next(first, tracked, p), slot, turn))
            && (r in records ==> records[r].particle == p)
  {
    DistinctIff(m);
    RecordsHold(m, first, tracked, p, slot, turn);
    HoldingIsKeeping(m, first[p], Next(first, tracked, p), slot, turn);
    if slot * m.particles + p in Records(m, tracked) {
      OnlyOwnSamples(m, first, tracked, p, slot);
    }
  }

  /** A particle-ordered buffer lies by particles first, one particle's records starting `particles`
      after the other's; where that leaves them apart, each holds what its slot keeps. */
  lemma ParticleOrderedContents(m: Monitor, first: seq<int>, tracked: seq<Sample>, p: nat, slot: int, turn: int)
    requires Usable(m) && !m.turnOrdered && (m.particles == 1 || m.numStores <= m.particles)
    requires |first| == m.particles && IsRun(first, tracked) && p < m.particles && 0 <= slot < m.numStores
    ensures var r, records := p * m.particles + slot, Records(m, tracked);
            && (r in records && records[r] == Sample(p, turn) <==>
                  Keeps(m, first[p], Next(first, tracked, p), slot, turn))
            && (r in records ==> records[r].particle == p)
  {
    DistinctIff(m);
    RecordsHold(m, first, tracked, p, slot, turn);
    HoldingIsKeeping(m, first[p], Next(first, tracked, p), slot, turn);
    if p * m.particles + slot in Records(m, tracked) {
      OnlyOwnSamples(m, first, tracked, p, slot);
    }
  }

  /** The prediction for a particle that has run the turns from `first[p]` on: what
      `BeamMonitor_has_turn_stored` says, except that it does not know about that first turn and
      accepts the turn that runs next. */
  predicate Predicted(m: Monitor, first: seq<int>, tracked: seq<Sample>, s: Sample)
    requires s.particle < |first|
  {
    var turns := Next(first, tracked, s.particle);
    first[s.particle] <= s.turn && s.turn != turns && HasTurnStored(m, s.turn, turns)
  }

  ghost predicate AlwaysRight(m: Monitor)
    requires Usable(m)
  {
    forall first: seq<nat>, tracked: seq<Sample>, s: Sample ::
      |first| == m.particles && s.particle < |first| && IsRun(first, tracked) ==>
        (Retained(m, tracked, s) <==> Predicted(m, first, tracked, s))
  }

  lemma PredictionIsRight(m: Monitor, first: seq<nat>, tracked: seq<Sample>, s: Sample)
    requires Usable(m) && Fits(m) && m.start >= 0 && |first| == m.particles
    requires IsRun(first, tracked) && s.particle < |first|
    ensures Retained(m, tracked, s) <==> Predicted(m, first, tracked, s)
  {
    var p, turns := s.particle, Next(first, tracked, s.particle);
    RecordsFitIff(m);
    NextAfterFirst(first, tracked, p);
    HoldingIsPredicted(m, turns, s.turn);
    SlotIsNatural(m, s.turn);
    if Retained(m, tracked, s) {
      var r :| 0 <= r < Capacity(m) && r in Records(m, tracked) && Records(m, tracked)[r] == s;
      RecordedAtRecord(m, tracked, r);
      RecordsHold(m, first, tracked, p, StoreIndex(m, s.turn).value, s.turn);
    }
    if Predicted(m, first, tracked, s) {
      var slot :| Holding(m, turns, slot, s.turn);
      RecordsHold(m, first, tracked, p, slot, s.turn);
      assert 0 <= Position(m, p, slot) < Capacity(m);
    }
  }

  // ------------------------------------------- layouts that lose their samples

  /** All particles start at turn 0. */
  function Zeros(m: Monitor): (r: seq<nat>)
    requires m.particles >= 0
    ensures |r| == m.particles
  {
    seq(m.particles, _ => 0)
  }

  /** One particle's turns from 0 on. */
  function Solo(p: nat, turns: nat): (r: seq<Sample>)
    ensures |r| == turns && forall i :: 0 <= i < turns ==> r[i] == Sample(p, i)
  {
    seq(turns, i requires 0 <= i < turns => Sample(p, i))
  }

  lemma {:induction false} SoloRuns(first: seq<int>, tracked: seq<Sample>, p: nat, turns: nat)
    requires IsRun(first, tracked) && p < |first| && Next(first, tracked, p) == 0
    ensures IsRun(first, tracked + Solo(p, turns)) && Next(first, tracked + Solo(p, turns), p) == turns
    ensures forall q: nat :: q < |first| && q != p ==>
              Next(first, tracked + Solo(p, turns), q) == Next(first, tracked, q)
  {
    var all := tracked + Solo(p, turns);
    if turns == 0 {
      assert all == tracked;
    } else {
      SoloRuns(first, tracked, p, turns - 1);
      assert all[..|all| - 1] == tracked + Solo(p, turns - 1);
    }
  }

  // After its first sample, and no more, a particle's starting turn is predicted.
  lemma StartIsPredicted(m: Monitor)
    requires Usable(m) && m.start >= 0
    ensures HasTurnStored(m, m.start, m.start + 1) && StoreIndex(m, m.start) == Some(0)
  {
    DivMod.Unique(0, m.skip, 0, 0);
    if m.skip > 1 {
      DivMod.Unique(1, m.skip, 0, 1);
    }
  }

  lemma SoloIsRun(m: Monitor, p: nat, turns: nat)
    requires p < m.particles
    ensures var first := Zeros(m);
            IsRun(first, Solo(p, turns)) && Next(first, Solo(p, turns), p) == turns
            && forall q: nat :: q < m.particles && q != p ==> Next(first, Solo(p, turns), q) == 0
  {
    assert [] + Solo(p, turns) == Solo(p, turns);
    SoloRuns(Zeros(m), [], p, turns);
  }

  // A record whose last sample is another, or that lies beyond the buffer, does not keep the sample.
  lemma LastWriteStays(m: Monitor, tracked: seq<Sample>, s: Sample)
    requires Usable(m) && tracked != [] && s != tracked[|tracked| - 1]
    requires RecordOf(m, s).Some? && RecordOf(m, tracked[|tracked| - 1]) == RecordOf(m, s)
    ensures !Retained(m, tracked, s)
  {
    if Retained(m, tracked, s) {
      var r :| 0 <= r < Capacity(m) && r in Records(m, tracked) && Records(m, tracked)[r] == s;
      RecordedAtRecord(m, tracked, r);
    }
  }

  lemma BeyondIsLost(m: Monitor, tracked: seq<Sample>, s: Sample)
    requires Usable(m) && RecordOf(m, s).Some? && RecordOf(m, s).value >= Capacity(m)
    ensures !Retained(m, tracked, s)
  {
    if Retained(m, tracked, s) {
      var r :| 0 <= r < Capacity(m) && r in Records(m, tracked) && Records(m, tracked)[r] == s;
      RecordedAtRecord(m, tracked, r);
    }
  }

  lemma SharedRecord(m: Monitor)
    requires Usable(m) && !m.turnOrdered && 1 < m.particles < m.numStores
    ensures RecordOf(m, Sample(0, m.start + m.particles * m.skip)) == RecordOf(m, Sample(1, m.start)) != None
  {
    DivMod.Multiples(-m.particles, m.skip);
    DivMod.Unique(m.particles * m.skip, m.skip, m.particles, 0);
    DivMod.Unique(0, m.skip, 0, 0);
  }

  /** With more stores than particles, the particle-ordered layout lets particle 0 overwrite the
      first sample of particle 1. */
  lemma NeighbourOverwrites(m: Monitor) returns (tracked: seq<Sample>)
    requires Usable(m) && m.start >= 0 && !m.turnOrdered && 1 < m.particles < m.numStores
    ensures IsRun(Zeros(m), tracked) && Predicted(m, Zeros(m), tracked, Sample(1, m.start))
    ensures !Retained(m, tracked, Sample(1, m.start))
  {
    var last := m.start + m.particles * m.skip;
    DivMod.Multiples(-m.particles, m.skip);
    SoloIsRun(m, 1, m.start + 1);
    SoloRuns(Zeros(m), Solo(1, m.start + 1), 0, last + 1);
    tracked := Solo(1, m.start + 1) + Solo(0, last + 1);
    StartIsPredicted(m);
    SharedRecord(m);
    assert tracked[|tracked| - 1] == Sample(0, last);
    LastWriteStays(m, tracked, Sample(1, m.start));
  }

  /** With fewer stores than particles, it writes the last particle's first sample beyond the end
      of the buffer. */
  lemma LastParticleLeavesBuffer(m: Monitor) returns (tracked: seq<Sample>)
    requires Usable(m) && m.start >= 0 && !m.turnOrdered && m.numStores < m.particles
    ensures var s := Sample(m.particles - 1, m.start);
            && IsRun(Zeros(m), tracked) && s in tracked && RecordOf(m, s).Some? && RecordOf(m, s).value >= Capacity(m)
            && Predicted(m, Zeros(m), tracked, s) && !Retained(m, tracked, s)
  {
    var s := Sample(m.particles - 1, m.start);
    tracked := Solo(m.particles - 1, m.start + 1);
    SoloIsRun(m, m.particles - 1, m.start + 1);
    assert tracked[m.start] == s;
    StartIsPredicted(m);
    LastIsOutside(m);
    BeyondIsLost(m, tracked, s);
  }

  /** The prediction is right about every particle, in every run, except for the turn that runs
      next, exactly when the layout fits the buffer. */
  lemma PredictionIsRightIffLayoutFits(m: Monitor)
    requires Usable(m) && m.start >= 0
    ensures AlwaysRight(m) <==> Fits(m)
  {
    if Fits(m) {
      forall first: seq<nat>, tracked: seq<Sample>, s: Sample
        | |first| == m.particles && s.particle < |first| && IsRun(first, tracked)
        ensures Retained(m, tracked, s) <==> Predicted(m, first, tracked, s)
      {
        PredictionIsRight(m, first, tracked, s);
      }
    } else {
      if m.numStores < m.particles {
        var tracked := LastParticleLeavesBuffer(m);
      } else {
        var tracked := NeighbourOverwrites(m);
      }
    }
  }

  lemma OnePasses(first: seq<int>, tracked: seq<Sample>, s: Sample)
    requires IsRun(first, tracked) && s.particle < |first| && s.turn == Next(first, tracked, s.particle)
    ensures IsRun(first, tracked + [s])
    ensures forall q: nat :: q < |first| ==>
              Next(first, tracked + [s], q) == if q == s.particle then s.turn + 1 else Next(first, tracked, q)
  {
    assert (tracked + [s])[..|tracked|] == tracked;
  }

  lemma RetainedEarlier(m: Monitor, tracked: seq<Sample>, last: Sample, s: Sample)
    requires Usable(m) && Retained(m, tracked + [last], s) && last != s
    ensures Retained(m, tracked, s)
  {
    assert (tracked + [last])[..|tracked|] == tracked;
    var r :| 0 <= r < Capacity(m) && r in Records(m, tracked + [last]) && Records(m, tracked + [last])[r] == s;
    assert r in Records(m, tracked) && Records(m, tracked)[r] == s;
  }

  lemma LostForGood(m: Monitor, tracked: seq<Sample>, s: Sample, last: Sample)
    requires Usable(m) && tracked != [] && s != tracked[|tracked| - 1] && s != last
    requires RecordOf(m, s).Some? && RecordOf(m, tracked[|tracked| - 1]) == RecordOf(m, s)
    ensures !Retained(m, tracked + [last], s)
  {
    if Retained(m, tracked + [last], s) {
      RetainedEarlier(m, tracked, last, s);
    }
    LastWriteStays(m, tracked, s);
  }

  // Two particles turn by turn, as far as turn 2 of particle 0.
  lemma FivePassages() returns (tracked: seq<Sample>)
    ensures tracked == [Sample(0, 0), Sample(1, 0), Sample(0, 1), Sample(1, 1), Sample(0, 2)]
    ensures IsRun([0, 0], tracked) && Next([0, 0], tracked, 0) == 3 && Next([0, 0], tracked, 1) == 2
  {
    var t1 := [] + [Sample(0, 0)];
    var t2 := t1 + [Sample(1, 0)];
    var t3 := t2 + [Sample(0, 1)];
    var t4 := t3 + [Sample(1, 1)];
    OnePasses([0, 0], [], Sample(0, 0));
    OnePasses([0, 0], t1, Sample(1, 0));
    OnePasses([0, 0], t2, Sample(0, 1));
    OnePasses([0, 0], t3, Sample(1, 1));
    OnePasses([0, 0], t4, Sample(0, 2));
    tracked := t4 + [Sample(0, 2)];
  }

  lemma TurnsCollide(m: Monitor, tracked: seq<Sample>)
    requires m == Monitor(3, 0, 1, false, false, 2) && tracked != [] && tracked[|tracked| - 1] == Sample(0, 2)
    ensures !Retained(m, tracked + [Sample(1, 2)], Sample(1, 0))
  {
    assert StoreIndex(m, 0) == Some(0) && StoreIndex(m, 2) == Some(2);
    LostForGood(m, tracked, Sample(1, 0), Sample(1, 2));
  }

  /** Two particles in particle order, three stores, three turns: particle 1's turn 0 is predicted,
      but particle 0's turn 2 has replaced it. */
  lemma ParticleOrderLosesTurn() returns (m: Monitor, tracked: seq<Sample>)
    ensures m == Monitor(3, 0, 1, false, false, 2)
    ensures tracked == [Sample(0, 0), Sample(1, 0), Sample(0, 1), Sample(1, 1), Sample(0, 2), Sample(1, 2)]
    ensures IsRun([0, 0], tracked) && Predicted(m, [0, 0], tracked, Sample(1, 0))
    ensures !Retained(m, tracked, Sample(1, 0))
  {
    m := Monitor(3, 0, 1, false, false, 2);
    var five := FivePassages();
    OnePasses([0, 0], five, Sample(1, 2));
    TurnsCollide(m, five);
    tracked := five + [Sample(1, 2)];
  }

  /** When the function is wrong about the turn that runs next: it claims that turn to be in the
      buffer, which it is not in any layout, exactly when it would be sampled and kept if it ran; a
      rolling monitor is spared at its very first turn. */
  lemma NextTurnMispredictedIff(m: Monitor, first: seq<nat>, tracked: seq<Sample>, p: nat)
    requires Usable(m) && m.start >= 0 && IsRun(first, tracked) && p < |first|
    ensures var turns := Next(first, tracked, p);
            HasTurnStored(m, turns, turns) && !Retained(m, tracked, Sample(p, turns)) <==>
              Sampled(m, turns) && if m.rolling then turns > m.start else IndexOf(m, turns) < m.numStores
  {
    var turns := Next(first, tracked, p);
    if Retained(m, tracked, Sample(p, turns)) {
      var r :| 0 <= r < Capacity(m) && r in Records(m, tracked) && Records(m, tracked)[r] == Sample(p, turns);
      RecordedAtRecord(m, tracked, r);
      PassedBeforeNext(first, tracked, Sample(p, turns));
    }
  }
}
