/**
 The turn schedule and particle replication of `examples/c99/track_io.c`.
 */

/** `main`'s arguments, its two monitors, and the turns they cover. */
module Schedule {
  import opened Common
  import opened Monitors
  import DivMod

  /** A sum or difference of two `int`s as two's complement hardware leaves it. */
  function Wrap(x: int): int32
    requires -0x1_0000_0000 <= x <= 0x1_0000_0000
  {
    if x > 0x7fff_ffff then x - 0x1_0000_0000 else if x < -0x8000_0000 then x + 0x1_0000_0000 else x
  }

  /** The numeric arguments that are present and not empty, after `atoi`. */
  datatype Args = Args(turns: Option<int32>, elemByElem: Option<int32>, turnByTurn: Option<int32>, skip: Option<int32>)

  datatype Config = Config(numTurns: int32, elemTurns: int32, tbtTurns: int32, ioSkip: int32)

  /** The condition under which no sum of `main` overflows: checked on the arguments alone. */
  predicate NoOverflow(args: Args) {
    args.turnByTurn.Some? && args.turnByTurn.value > 0 && args.elemByElem.Some? && args.elemByElem.value > 0
    && args.elemByElem.value <= (if args.turns.Some? && args.turns.value > 0 then args.turns.value else 1)
    ==> args.elemByElem.value + args.turnByTurn.value <= INT_MAX
  }

  ghost function Parsed(args: Args): Config {
    var numTurns := if args.turns.Some? && args.turns.value > 0 then args.turns.value else 1;
    var elem := if args.elemByElem.Some? && 0 <= args.elemByElem.value <= numTurns then args.elemByElem.value else 0;
    var tbt := if args.turnByTurn.Some? && args.turnByTurn.value > 0 && numTurns >= Wrap(elem + args.turnByTurn.value)
               then args.turnByTurn.value else 0;
    var skip := if args.skip.Some? && args.skip.value > 0 && numTurns > Wrap(elem + tbt) then args.skip.value else 1;
    Config(numTurns, elem, tbt, skip)
  }

  /** The validation of `main`, one argument after the other. */
  method ParseArguments(args: Args) returns (c: Config)
    ensures c == Parsed(args)
    ensures c.numTurns >= 1 && 0 <= c.elemTurns <= c.numTurns && c.tbtTurns >= 0 && c.ioSkip >= 1
    ensures NoOverflow(args) ==> c.elemTurns + c.tbtTurns <= c.numTurns
  {
    var numTurns: int32, elemTurns: int32, tbtTurns: int32, ioSkip: int32 := 1, 0, 0, 1;
    if args.turns.Some? {
      var temp := args.turns.value;
      if temp > 0 { numTurns := temp; }
    }
    if args.elemByElem.Some? {
      var temp := args.elemByElem.value;
      if temp >= 0 && temp <= numTurns { elemTurns := temp; }
    }
    if args.turnByTurn.Some? {
      var temp := args.turnByTurn.value;
      if temp > 0 && numTurns >= Wrap(elemTurns + temp) { tbtTurns := temp; }
    }
    if args.skip.Some? {
      var temp := args.skip.value;
      if temp > 0 && numTurns > Wrap(elemTurns + tbtTurns) { ioSkip := temp; }
    }
    c := Config(numTurns, elemTurns, tbtTurns, ioSkip);
  }

  /** Which arguments are taken, in unbounded arithmetic: those that are positive (not negative, for
      the element-by-element turns) and fit into the run, but also those whose sum with the ones
      before overflows. */
  lemma TakenIfFitsOrOverflows(args: Args)
    ensures var c := Parsed(args);
            && c.numTurns == (if args.turns.Some? && args.turns.value > 0 then args.turns.value else 1)
            && (match args.elemByElem
                case None => c.elemTurns == 0
                case Some(e) => c.elemTurns == if 0 <= e <= c.numTurns then e else 0)
            && (match args.turnByTurn
                case None => c.tbtTurns == 0
                case Some(t) =>
                  c.tbtTurns == if t > 0 && (c.elemTurns + t <= c.numTurns || c.elemTurns + t > INT_MAX) then t else 0)
            && (var sum := c.elemTurns + c.tbtTurns;
                match args.skip
                case None => c.ioSkip == 1
                case Some(s) => c.ioSkip == if s > 0 && (sum < c.numTurns || sum > INT_MAX) then s else 1)
  {
  }

  // C's division rounds towards zero.
  function TruncatedDiv(a: int, b: int): int
    requires b > 0
  {
    if a >= 0 then a / b else -((-a) / b)
  }

  // A new monitor is turn-ordered, and its range of ids is -1 to -1.
  function TurnByTurnMonitor(c: Config): Option<Monitor> {
    if c.tbtTurns > 0 then Some(Monitor(c.tbtTurns, c.elemTurns, 1, false, true, 1)) else None
  }

  function SkipMonitor(c: Config): Option<Monitor> {
    var start := Wrap(c.elemTurns + c.tbtTurns);
    if c.ioSkip > 0 && c.numTurns > start then
      Some(Monitor(TruncatedDiv(Wrap(c.numTurns - start), c.ioSkip), start, c.ioSkip, true, true, 1))
    else None
  }

  /** The turns a monitor was configured for: start + k * skip for k below the number of stores. */
  predicate Covers(m: Option<Monitor>, turn: int) {
    m.Some? && m.value.skip > 0 && turn >= m.value.start && (turn - m.value.start) % m.value.skip == 0
    && (turn - m.value.start) / m.value.skip < m.value.numStores
  }

  predicate ElemByElem(c: Config, turn: int) {
    0 <= turn < c.elemTurns
  }

  function Remaining(c: Config): int {
    c.numTurns - c.elemTurns - c.tbtTurns
  }

  predicate Sane(c: Config) {
    c.numTurns >= 1 && c.elemTurns >= 0 && c.tbtTurns >= 0 && c.elemTurns + c.tbtTurns <= c.numTurns && c.ioSkip >= 1
  }

  lemma ParsedIsSane(args: Args)
    requires NoOverflow(args)
    ensures Sane(Parsed(args))
  {
  }

  lemma SkipMonitorEnd(c: Config, turn: int)
    requires Sane(c) && Covers(SkipMonitor(c), turn)
    ensures c.elemTurns + c.tbtTurns <= turn < c.numTurns
  {
    var m := SkipMonitor(c).value;
    var k := (turn - m.start) / m.skip;
    var n := m.numStores;
    assert turn - m.start == k * m.skip;
    DivMod.Multiples(n - k, m.skip);
    assert (n - k) * m.skip == n * m.skip - k * m.skip;
  }

  lemma ByOne(x: int)
    ensures x % 1 == 0 && x / 1 == x
  {
  }

  lemma TurnByTurnCovers(c: Config, turn: int)
    ensures Covers(TurnByTurnMonitor(c), turn) <==> c.elemTurns <= turn < c.elemTurns + c.tbtTurns
  {
    ByOne(turn - c.elemTurns);
  }

  lemma SkipOneCovers(c: Config, turn: int)
    requires Sane(c) && c.ioSkip == 1
    ensures Covers(SkipMonitor(c), turn) <==> c.elemTurns + c.tbtTurns <= turn < c.numTurns
  {
    ByOne(turn - (c.elemTurns + c.tbtTurns));
    ByOne(Remaining(c));
  }

  lemma TailIsShort(c: Config)
    requires Sane(c) && SkipMonitor(c).Some?
    ensures var m := SkipMonitor(c).value; 0 <= c.numTurns - (m.start + m.numStores * m.skip) < m.skip
  {
    var r := Remaining(c);
    assert r == r / c.ioSkip * c.ioSkip + r % c.ioSkip;
  }

  /** For all arguments whose sum does not overflow, every turn belongs to at most one of the
      three schedules, and none of them leaves the run. */
  lemma ScheduleIsDisjoint(args: Args, turn: int)
    requires NoOverflow(args)
    ensures var c := Parsed(args);
            var e, t, s := ElemByElem(c, turn), Covers(TurnByTurnMonitor(c), turn), Covers(SkipMonitor(c), turn);
            !(e && t) && !(e && s) && !(t && s) && (e || t || s ==> 0 <= turn < c.numTurns)
  {
    var c := Parsed(args);
    ParsedIsSane(args);
    TurnByTurnCovers(c, turn);
    if Covers(SkipMonitor(c), turn) { SkipMonitorEnd(c, turn); }
  }

  /** Without skipping, the three schedules together cover every turn of the run. */
  lemma ScheduleIsComplete(args: Args, turn: int)
    requires NoOverflow(args) && Parsed(args).ioSkip == 1 && 0 <= turn < Parsed(args).numTurns
    ensures var c := Parsed(args);
            ElemByElem(c, turn) || Covers(TurnByTurnMonitor(c), turn) || Covers(SkipMonitor(c), turn)
  {
    ParsedIsSane(args);
    TurnByTurnCovers(Parsed(args), turn);
    SkipOneCovers(Parsed(args), turn);
  }

  /** What the skip monitor leaves unsampled at the end is shorter than one skip, and there is
      no such monitor only when nothing remains. */
  lemma UnsampledTailIsShort(args: Args)
    requires NoOverflow(args)
    ensures var c := Parsed(args);
            match SkipMonitor(c)
            case None => Remaining(c) == 0
            case Some(m) => 0 <= c.numTurns - (m.start + m.numStores * m.skip) < m.skip
  {
    ParsedIsSane(args);
    if SkipMonitor(Parsed(args)).Some? { TailIsShort(Parsed(args)); }
  }

  /** The sum that `main` does not guard: all turns of the turn-by-turn monitor lie within the
      run exactly when the two requested numbers do not overflow an `int`. */
  lemma TurnByTurnFitsIffNoOverflow(args: Args)
    ensures (forall turn :: Covers(TurnByTurnMonitor(Parsed(args)), turn) ==> turn < Parsed(args).numTurns)
            <==> NoOverflow(args)
  {
    var c := Parsed(args);
    if NoOverflow(args) {
      forall turn | Covers(TurnByTurnMonitor(c), turn) ensures turn < c.numTurns {
        ScheduleIsDisjoint(args, turn);
      }
    } else {
      var last := c.elemTurns + c.tbtTurns - 1;
      assert (last - c.elemTurns) % 1 == 0 && (last - c.elemTurns) / 1 == last - c.elemTurns;
      assert Covers(TurnByTurnMonitor(c), last);
    }
  }

  // A particle at turn `at` after tracking it until turn `until`.
  function Until(at: int, until: int): int {
    if at < until then until else at
  }

  /** The turn a particle that starts at turn `at` has reached when `main` ends, if it is not lost:
      element-by-element tracking, if it was asked for, takes particles with a turn number, and
      tracking until the last turn has a guard of its own. */
  function Reached(c: Config, at: int): int {
    var dumped := if c.elemTurns > 0 && at >= 0 then Until(at, c.elemTurns) else at;
    if c.elemTurns > c.numTurns then Until(dumped, c.numTurns) else dumped
  }

  /** That guard holds for no arguments, so `main` never gets a particle past the element-by-element
      turns, and gets one to the end of the run exactly when it starts there or all turns were to
      be dumped element by element. */
  lemma OnlyElemByElemTurnsAreTracked(args: Args, at: nat)
    ensures var c := Parsed(args);
            && Reached(c, at) == Until(at, c.elemTurns)
            && (Reached(c, at) >= c.numTurns <==>
                  || at >= c.numTurns
                  || args.elemByElem == Some(if args.turns.Some? && args.turns.value > 0 then args.turns.value else 1))
  {
  }

  /** Passages of particles that start at the turns `first`, in any order, as far as `main` tracks
      them. Copies of a particle carry its id, so nothing is said of whose passages they are. */
  ghost predicate MainRun(c: Config, first: seq<int>, tracked: seq<Sample>) {
    forall k :: 0 <= k < |tracked| ==> InMain(c, first, tracked[k].turn)
  }

  predicate InMain(c: Config, first: seq<int>, turn: int) {
    exists p :: 0 <= p < |first| && first[p] <= turn < Reached(c, first[p])
  }

  /** The job gives a buffer to the monitors that have stores and start no earlier than the first
      particle, if the particles have turn numbers ... */
  predicate Attached(m: Monitor, first: seq<int>) {
    && m.numStores > 0
    && (exists p :: 0 <= p < |first| && first[p] <= m.start)
    && forall p :: 0 <= p < |first| ==> first[p] >= 0
  }

  /** ... and gives them the particles' range of ids. A monitor without a buffer stores nothing. */
  ghost predicate Stored(m: Monitor, first: seq<int>, ids: nat, tracked: seq<Sample>, s: Sample)
    requires m.skip >= 1 && ids >= 1
  {
    Attached(m, first) && Retained(m.(particles := ids), tracked, s)
  }

  // After an overflow the skip monitor's number of stores is not positive.
  lemma OverflowHasNoStores(args: Args)
    requires !NoOverflow(args) && SkipMonitor(Parsed(args)).Some?
    ensures SkipMonitor(Parsed(args)).value.numStores <= 0
  {
    var c := Parsed(args);
    assert Wrap(c.numTurns - Wrap(c.elemTurns + c.tbtTurns)) == Remaining(c) < 0;
  }

  /** Whatever the arguments, the turns the particles start at and the order they are tracked in,
      neither monitor holds any turn of any particle when `main` ends: one that has a buffer starts
      at or after the first turn that is not tracked. */
  lemma NothingIsRetained(args: Args, m: Monitor, first: seq<int>, ids: nat, tracked: seq<Sample>, s: Sample)
    requires Some(m) == TurnByTurnMonitor(Parsed(args)) || Some(m) == SkipMonitor(Parsed(args))
    requires MainRun(Parsed(args), first, tracked) && ids >= 1
    ensures m.skip >= 1 && !Stored(m, first, ids, tracked, s)
  {
    var c, m' := Parsed(args), m.(particles := ids);
    if Some(m) == SkipMonitor(c) && !NoOverflow(args) {
      OverflowHasNoStores(args);
    }
    if Stored(m, first, ids, tracked, s) {
      var r :| 0 <= r < Capacity(m') && r in Records(m', tracked) && Records(m', tracked)[r] == s;
      RecordedAtRecord(m', tracked, r);
    }
  }

  /** If the particles were tracked for all NUM_TURNS turns, which `main` does not do, the
      turn-by-turn monitor would hold exactly the turns it was configured for, as far as the
      particles ran them. */
  lemma TurnByTurnWouldKeepAll(args: Args, first: seq<nat>, tracked: seq<Sample>, s: Sample)
    requires NoOverflow(args) && TurnByTurnMonitor(Parsed(args)).Some?
    requires Attached(TurnByTurnMonitor(Parsed(args)).value, first)
    requires IsRun(first, tracked) && s.particle < |first|
    requires Next(first, tracked, s.particle) == Parsed(args).numTurns
    ensures var c := Parsed(args);
            Stored(TurnByTurnMonitor(c).value, first, |first|, tracked, s) <==>
              first[s.particle] <= s.turn && c.elemTurns <= s.turn < c.elemTurns + c.tbtTurns
  {
    var c := Parsed(args);
    PredictionIsRight(TurnByTurnMonitor(c).value.(particles := |first|), first, tracked, s);
    ByOne(s.turn - c.elemTurns);
  }

  /** The skip monitor satisfies what the storing code asserts, and gets a buffer, exactly when one
      skip fits into the remaining turns. */
  lemma SkipMonitorUsableIff(args: Args)
    requires NoOverflow(args) && SkipMonitor(Parsed(args)).Some?
    ensures Usable(SkipMonitor(Parsed(args)).value) <==> Parsed(args).ioSkip <= Remaining(Parsed(args))
  {
    ParsedIsSane(args);
    DivMod.AtLeastOne(Remaining(Parsed(args)), Parsed(args).ioSkip);
  }

  /** If then the particles were tracked from the monitor's start or earlier to the end of NUM_TURNS
      turns, which `main` does not do, all its configured turns of all particles would be in the
      buffer if and only if the remaining turns are a multiple of the skip: otherwise one more
      sample rolls over the first. */
  lemma SkipMonitorWouldKeepAllIffDivisible(args: Args, first: seq<nat>, tracked: seq<Sample>)
    requires NoOverflow(args) && SkipMonitor(Parsed(args)).Some? && Usable(SkipMonitor(Parsed(args)).value)
    requires first != [] && IsRun(first, tracked)
    requires forall p :: 0 <= p < |first| ==>
               first[p] <= SkipMonitor(Parsed(args)).value.start && Next(first, tracked, p) == Parsed(args).numTurns
    ensures var c, m := Parsed(args), SkipMonitor(Parsed(args)).value;
            (forall p: nat, turn ::
               p < |first| && Covers(Some(m), turn) ==> Stored(m, first, |first|, tracked, Sample(p, turn)))
            <==> Remaining(c) % c.ioSkip == 0
  {
    var c := Parsed(args);
    var m := SkipMonitor(c).value;
    var m' := m.(particles := |first|);
    assert first[0] <= m.start;
    if Remaining(c) % c.ioSkip == 0 {
      forall p: nat, turn | p < |first| && Covers(Some(m), turn)
        ensures Stored(m, first, |first|, tracked, Sample(p, turn))
      {
        SkipMonitorEnd(c, turn);
        PredictionIsRight(m', first, tracked, Sample(p, turn));
      }
    } else {
      DivMod.Unique(0, m.skip, 0, 0);
      assert Covers(Some(m), m.start);
      PredictionIsRight(m', first, tracked, Sample(0, m.start));
    }
  }
}

/** Filling the tracked particles from a smaller or larger block of initial ones. */
module Replication {
  import opened Common
  import DivMod

  /** `requested` is the number of particles after argument parsing; 0 and INT32_MAX mean "as
      many as there are". Every particle of the result is the source particle of its index modulo
      the source's size, whether the block is copied whole or particle by particle; and a particle
      occurs in it as often as the shares of the source indices that hold it say. */
  method Replicate<P(0, ==)>(source: seq<P>, requested: nat) returns (particles: array<P>)
    requires |source| > 0
    ensures fresh(particles)
    ensures particles.Length == if requested == INT_MAX || requested == 0 then |source| else requested
    ensures forall i :: 0 <= i < particles.Length ==> particles[i] == source[i % |source|]
    ensures forall p :: p in source ==> multiset(particles[..])[p] == Shares(source, particles.Length, |source|, p)
  {
    var n := if requested == INT_MAX || requested == 0 then |source| else requested;
    if n == |source| {
      particles := new P[n](i requires 0 <= i < n => source[i]);
      forall i | 0 <= i < n ensures i % |source| == i {
        DivMod.Unique(i, |source|, 0, i);
      }
    } else {
      particles := new P[n];
      var ii := 0;
      while ii < n
        invariant 0 <= ii <= n
        invariant forall i :: 0 <= i < ii ==> particles[i] == source[i % |source|]
      {
        var jj := ii % |source|;
        particles[ii] := source[jj];
        ii := ii + 1;
      }
    }
    forall p | p in source ensures multiset(particles[..])[p] == Shares(source, n, |source|, p) {
      OccurrencesAreShares(source, particles[..], p);
    }
  }

  /** The copies of source index `j` among `n` particles. */
  function Share(n: nat, size: nat, j: nat): nat
    requires size > 0
  {
    n / size + if j < n % size then 1 else 0
  }

  /** The copies of the first `k` source indices that hold `p`. */
  function Shares<P(==)>(source: seq<P>, n: nat, k: nat, p: P): nat
    requires 0 < |source| && k <= |source|
  {
    if k == 0 then 0
    else Shares(source, n, k - 1, p) + if source[k - 1] == p then Share(n, |source|, k - 1) else 0
  }

  // One more particle adds one copy of one source index.
  lemma ShareNext(n: nat, size: nat, j: nat)
    requires j < size
    ensures Share(n + 1, size, j) == Share(n, size, j) + if n % size == j then 1 else 0
  {
    DivMod.Successor(n, size);
  }

  lemma {:induction false} SharesNext<P>(source: seq<P>, n: nat, k: nat, p: P)
    requires 0 < |source| && k <= |source|
    ensures Shares(source, n + 1, k, p) ==
              Shares(source, n, k, p) + if n % |source| < k && source[n % |source|] == p then 1 else 0
  {
    if k > 0 {
      ShareNext(n, |source|, k - 1);
      SharesNext(source, n, k - 1, p);
    }
  }

  lemma {:induction false} SharesOfNone<P>(source: seq<P>, k: nat, p: P)
    requires 0 < |source| && k <= |source|
    ensures Shares(source, 0, k, p) == 0
  {
    if k > 0 {
      DivMod.Unique(0, |source|, 0, 0);
      SharesOfNone(source, k - 1, p);
    }
  }

  /** In a block filled by index modulo the source's size, every particle occurs as often as the
      shares of the source indices that hold it. */
  lemma {:induction false} OccurrencesAreShares<P>(source: seq<P>, particles: seq<P>, p: P)
    requires 0 < |source| && forall i :: 0 <= i < |particles| ==> particles[i] == source[i % |source|]
    ensures multiset(particles)[p] == Shares(source, |particles|, |source|, p)
  {
    if particles == [] {
      SharesOfNone(source, |source|, p);
    } else {
      var n := |particles| - 1;
      assert particles == particles[..n] + [particles[n]];
      OccurrencesAreShares(source, particles[..n], p);
      SharesNext(source, n, |source|, p);
    }
  }

  function TotalShare(n: nat, size: nat, k: nat): nat
    requires size > 0
  {
    if k == 0 then 0 else TotalShare(n, size, k - 1) + Share(n, size, k - 1)
  }

  lemma {:induction false} TotalShareCounted(n: nat, size: nat, k: nat)
    requires size > 0
    ensures TotalShare(n, size, k) == k * (n / size) + if k < n % size then k else n % size
  {
    if k > 0 {
      TotalShareCounted(n, size, k - 1);
      assert k * (n / size) == (k - 1) * (n / size) + n / size;
    }
  }

  /** The shares of all source indices add up to the particles, and no index has two more copies
      than another. */
  lemma SharesAreEven(n: nat, size: nat, j: nat, k: nat)
    requires j < size && k < size
    ensures TotalShare(n, size, size) == n
    ensures Share(n, size, j) <= Share(n, size, k) + 1
  {
    TotalShareCounted(n, size, size);
  }
}
