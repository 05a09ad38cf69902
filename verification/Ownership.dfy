/**
 Reference counting through `detail::Wrapper<T>` and its specialisation for devices, in both
 generations of the bindings.
 */

/** The runtime behind the wrappers: retain is +1, release is -1, and every call is traced. */
module Runtime {
  import opened Common

  /** An OpenCL object as the bindings see it; `NULL` is none. */
  type Handle = int

  datatype Event = Retain(h: Handle) | Release(h: Handle)

  /** `fault` records a call on a handle that nobody holds (or on NULL). */
  datatype Rt = Rt(count: map<Handle, int>, trace: seq<Event>, fault: bool) {
    function Count(h: Handle): int {
      if h in count then count[h] else 0
    }

    function Retained(h: Handle): Rt {
      Rt(count[h := Count(h) + 1], trace + [Event.Retain(h)], fault || h == NULL || Count(h) <= 0)
    }

    function Released(h: Handle): Rt {
      Rt(count[h := Count(h) - 1], trace + [Event.Release(h)], fault || h == NULL || Count(h) <= 0)
    }
  }

  /** The generic wrapper, or the one for devices with its `referenceCountable_` flag. */
  datatype Kind = Plain | Device

  /** A wrapper's fields; a `Plain` wrapper has no flag and leaves `countable` false. */
  datatype Slot = Dead | Live(handle: Handle, countable: bool)

  /** The wrapper kind and `isReferenceCountable`, which the platform's version decides. */
  datatype Config = Config(kind: Kind, isReferenceCountable: Handle -> bool) {
    function Flag(h: Handle): bool {
      kind.Device? && isReferenceCountable(h)
    }

    /** Handles whose references the runtime counts. */
    predicate Counted(h: Handle) {
      h != NULL && (kind.Plain? || isReferenceCountable(h))
    }
  }

  const EMPTY := Live(NULL, false)

  function Holds(s: Slot, h: Handle): nat {
    if s.Live? && s.handle == h then 1 else 0
  }

  // A wrapper that holds a device knows whether it is counted.
  predicate FlagOk(cf: Config, s: Slot) {
    s.Live? && s.handle != NULL && cf.kind.Device? ==> s.countable == cf.isReferenceCountable(s.handle)
  }

  /** How many wrappers hold `h`. */
  function Holders(slots: seq<Slot>, h: Handle): nat {
    if slots == [] then 0 else Holds(slots[0], h) + Holders(slots[1..], h)
  }

  lemma {:induction false} HoldersSnoc(slots: seq<Slot>, s: Slot, h: Handle)
    ensures Holders(slots + [s], h) == Holders(slots, h) + Holds(s, h)
  {
    if slots == [] {
      assert [] + [s] == [s] && [s][1..] == [];
      assert Holders([s], h) == Holds(s, h) + Holders([], h);
    } else {
      assert (slots + [s])[1..] == slots[1..] + [s];
      HoldersSnoc(slots[1..], s, h);
    }
  }

  lemma {:induction false} HoldersUpdate(slots: seq<Slot>, i: nat, s: Slot, h: Handle)
    requires i < |slots|
    ensures Holders(slots[i := s], h) == Holders(slots, h) - Holds(slots[i], h) + Holds(s, h)
  {
    if i == 0 {
      assert slots[0 := s][1..] == slots[1..];
    } else {
      HoldersUpdate(slots[1..], i - 1, s, h);
      assert slots[i := s][1..] == slots[1..][i - 1 := s];
    }
  }
}

/** `external/CL/cl.hpp`: the call sites test for NULL, `retain` and `release` do not. */
module ClWrapper {
  import opened Common
  import opened Runtime

  function Retain(cf: Config, rt: Rt, s: Slot): Rt
    requires s.Live?
  {
    if cf.kind.Plain? || s.countable then rt.Retained(s.handle) else rt
  }

  function Release(cf: Config, rt: Rt, s: Slot): Rt
    requires s.Live?
  {
    if cf.kind.Plain? || s.countable then rt.Released(s.handle) else rt
  }

  function FromObject(cf: Config, h: Handle): Slot {
    Live(h, cf.Flag(h))
  }

  function CopyConstruct(cf: Config, rt: Rt, rhs: Slot): (Rt, Slot)
    requires rhs.Live?
  {
    var self := Live(rhs.handle, cf.Flag(rhs.handle));
    (if self.handle != NULL then Retain(cf, rt, self) else rt, self)
  }

  function CopyAssign(cf: Config, rt: Rt, self: Slot, rhs: Slot): (Rt, Slot)
    requires self.Live? && rhs.Live?
  {
    var rt1 := if self.handle != NULL then Release(cf, rt, self) else rt;
    (if rhs.handle != NULL then Retain(cf, rt1, rhs) else rt1, rhs)
  }

  /** The new value of the target; the source becomes `EMPTY`. */
  function MoveAssign(cf: Config, rt: Rt, self: Slot, rhs: Slot): (Rt, Slot)
    requires self.Live? && rhs.Live?
  {
    (if self.handle != NULL then Release(cf, rt, self) else rt, rhs)
  }

  function RawAssign(cf: Config, rt: Rt, self: Slot, h: Handle): (Rt, Slot)
    requires self.Live?
  {
    (if self.handle != NULL then Release(cf, rt, self) else rt, Live(h, cf.Flag(h)))
  }

  function Destroy(cf: Config, rt: Rt, self: Slot): Rt
    requires self.Live?
  {
    if self.handle != NULL then Release(cf, rt, self) else rt
  }
}

/** `external/CL/cl2.hpp`: `retain` and `release` test for NULL, most call sites do not. */
module Cl2Wrapper {
  import opened Common
  import opened Runtime

  function Retain(cf: Config, rt: Rt, s: Slot): Rt
    requires s.Live?
  {
    if s.handle != NULL && (cf.kind.Plain? || s.countable) then rt.Retained(s.handle) else rt
  }

  function Release(cf: Config, rt: Rt, s: Slot): Rt
    requires s.Live?
  {
    if s.handle != NULL && (cf.kind.Plain? || s.countable) then rt.Released(s.handle) else rt
  }

  function FromObject(cf: Config, rt: Rt, h: Handle, retainObject: bool): (Rt, Slot) {
    var self := Live(h, cf.Flag(h));
    (if retainObject then Retain(cf, rt, self) else rt, self)
  }

  function CopyConstruct(cf: Config, rt: Rt, rhs: Slot): (Rt, Slot)
    requires rhs.Live?
  {
    var self := Live(rhs.handle, cf.Flag(rhs.handle));
    (Retain(cf, rt, self), self)
  }

  function CopyAssign(cf: Config, rt: Rt, self: Slot, rhs: Slot): (Rt, Slot)
    requires self.Live? && rhs.Live?
  {
    (Retain(cf, Release(cf, rt, self), rhs), rhs)
  }

  function MoveAssign(cf: Config, rt: Rt, self: Slot, rhs: Slot): (Rt, Slot)
    requires self.Live? && rhs.Live?
  {
    (Release(cf, rt, self), rhs)
  }

  function RawAssign(cf: Config, rt: Rt, self: Slot, h: Handle): (Rt, Slot)
    requires self.Live?
  {
    (Release(cf, rt, self), Live(h, cf.Flag(h)))
  }

  function Destroy(cf: Config, rt: Rt, self: Slot): Rt
    requires self.Live?
  {
    if cf.kind.Device? then Release(cf, rt, self)
    else if self.handle != NULL then Release(cf, rt, self) else rt
  }

  lemma RetainCounts(cf: Config, rt: Rt, s: Slot, h: Handle)
    requires s.Live? && FlagOk(cf, s) && cf.Counted(h)
    ensures Retain(cf, rt, s).Count(h) == rt.Count(h) + Holds(s, h)
  {
  }

  lemma ReleaseCounts(cf: Config, rt: Rt, s: Slot, h: Handle)
    requires s.Live? && FlagOk(cf, s) && cf.Counted(h)
    ensures Release(cf, rt, s).Count(h) == rt.Count(h) - Holds(s, h)
  {
  }
}

/** Programs over any number of wrappers, run by either generation. */
module Programs {
  import opened Common
  import opened Runtime
  import ClWrapper
  import Cl2Wrapper

  /** `slots` are the places wrappers live in; `outside` counts the references owned by no
      wrapper: the caller's own and those the runtime keeps. */
  datatype World = World(rt: Rt, slots: seq<Slot>, outside: map<Handle, nat>) {
    function Outside(h: Handle): nat {
      if h in outside then outside[h] else 0
    }
  }

  datatype Op =
    | Default(i: nat)                           // Wrapper()
    | FromObject(i: nat, h: Handle, retain: bool) // Wrapper(obj), or cl2's Wrapper(obj, retainObject)
    | Copy(i: nat, j: nat)                      // Wrapper(const Wrapper&)
    | Move(i: nat, j: nat)                      // Wrapper(Wrapper&&)
    | CopyAssign(i: nat, j: nat)
    | MoveAssign(i: nat, j: nat)
    | RawAssign(i: nat, h: Handle)
    | Destroy(i: nat)
    | Obtain(h: Handle)                         // the caller is given a reference by the runtime
    | GiveUp(h: Handle)                         // the caller releases a reference of its own

  datatype Generation = Cl | Cl2

  predicate IsLive(w: World, i: nat) { i < |w.slots| && w.slots[i].Live? }
  predicate IsFree(w: World, i: nat) { i < |w.slots| && w.slots[i].Dead? }

  /** What C++ and the documented ownership transfer ask of a caller: constructors build in
      unused places, other operations use live wrappers, a raw handle given without a retain
      comes with a reference of the caller's, and one to be retained is still alive. */
  predicate Accepts(g: Generation, cf: Config, w: World, op: Op) {
    match op
    case Default(i) => IsFree(w, i)
    case FromObject(i, h, retain) =>
      && IsFree(w, i) && (retain ==> g.Cl2?)
      && (cf.Counted(h) ==> if retain then w.rt.Count(h) >= 1 else w.Outside(h) >= 1)
    case Copy(i, j) => IsFree(w, i) && IsLive(w, j)
    case Move(i, j) => IsFree(w, i) && IsLive(w, j)
    case CopyAssign(i, j) => IsLive(w, i) && IsLive(w, j)
    case MoveAssign(i, j) => IsLive(w, i) && IsLive(w, j)
    case RawAssign(i, h) => IsLive(w, i) && (cf.Counted(h) ==> w.Outside(h) >= 1)
    case Destroy(i) => IsLive(w, i)
    case Obtain(h) => cf.Counted(h)
    case GiveUp(h) => cf.Counted(h) && w.Outside(h) >= 1
  }

  // The reference that came with a raw handle now belongs to the wrapper.
  function HandOver(cf: Config, w: World, h: Handle): map<Handle, nat> {
    if cf.Counted(h) && w.Outside(h) >= 1 then w.outside[h := w.Outside(h) - 1] else w.outside
  }

  function Step(g: Generation, cf: Config, w: World, op: Op): World
    requires Accepts(g, cf, w, op)
  {
    match op
    case Default(i) => w.(slots := w.slots[i := EMPTY])
    case FromObject(i, h, retain) =>
      if g.Cl? then
        World(w.rt, w.slots[i := ClWrapper.FromObject(cf, h)], HandOver(cf, w, h))
      else
        var (rt, s) := Cl2Wrapper.FromObject(cf, w.rt, h, retain);
        World(rt, w.slots[i := s], if retain then w.outside else HandOver(cf, w, h))
    case Copy(i, j) =>
      var (rt, s) := if g.Cl? then ClWrapper.CopyConstruct(cf, w.rt, w.slots[j])
                     else Cl2Wrapper.CopyConstruct(cf, w.rt, w.slots[j]);
      World(rt, w.slots[i := s], w.outside)
    case Move(i, j) =>
      w.(slots := w.slots[i := w.slots[j]][j := EMPTY])
    case CopyAssign(i, j) =>
      if i == j then w
      else
        var (rt, s) := if g.Cl? then ClWrapper.CopyAssign(cf, w.rt, w.slots[i], w.slots[j])
                       else Cl2Wrapper.CopyAssign(cf, w.rt, w.slots[i], w.slots[j]);
        World(rt, w.slots[i := s], w.outside)
    case MoveAssign(i, j) =>
      if i == j then w
      else
        var (rt, s) := if g.Cl? then ClWrapper.MoveAssign(cf, w.rt, w.slots[i], w.slots[j])
                       else Cl2Wrapper.MoveAssign(cf, w.rt, w.slots[i], w.slots[j]);
        World(rt, w.slots[i := s][j := EMPTY], w.outside)
    case RawAssign(i, h) =>
      var (rt, s) := if g.Cl? then ClWrapper.RawAssign(cf, w.rt, w.slots[i], h)
                     else Cl2Wrapper.RawAssign(cf, w.rt, w.slots[i], h);
      World(rt, w.slots[i := s], HandOver(cf, w, h))
    case Destroy(i) =>
      var rt := if g.Cl? then ClWrapper.Destroy(cf, w.rt, w.slots[i])
                else Cl2Wrapper.Destroy(cf, w.rt, w.slots[i]);
      World(rt, w.slots[i := Dead], w.outside)
    case Obtain(h) =>
      World(w.rt.(count := w.rt.count[h := w.rt.Count(h) + 1]), w.slots, w.outside[h := w.Outside(h) + 1])
    case GiveUp(h) =>
      World(w.rt.(count := w.rt.count[h := w.rt.Count(h) - 1]), w.slots, w.outside[h := w.Outside(h) - 1])
  }

  predicate RunAccepted(g: Generation, cf: Config, w: World, ops: seq<Op>)
    decreases ops
  {
    ops == [] || (Accepts(g, cf, w, ops[0]) && RunAccepted(g, cf, Step(g, cf, w, ops[0]), ops[1..]))
  }

  function Run(g: Generation, cf: Config, w: World, ops: seq<Op>): World
    requires RunAccepted(g, cf, w, ops)
    decreases ops
  {
    if ops == [] then w else Run(g, cf, Step(g, cf, w, ops[0]), ops[1..])
  }

  // ------------------------------------------------------------ the invariant

  ghost predicate Balanced(cf: Config, w: World, h: Handle) {
    w.rt.Count(h) == Holders(w.slots, h) + w.Outside(h)
  }

  /** Counted handles are balanced, uncounted ones have seen no call, no call hit a dead
      handle, and device flags tell the truth. */
  ghost predicate Inv(cf: Config, w: World) {
    && !w.rt.fault
    && (forall i :: 0 <= i < |w.slots| ==> FlagOk(cf, w.slots[i]))
    && (forall h :: cf.Counted(h) ==> Balanced(cf, w, h))
    && (forall k :: 0 <= k < |w.rt.trace| ==> cf.Counted(w.rt.trace[k].h))
  }

  function Start(places: nat): World {
    World(Rt(map[], [], false), seq(places, _ => Dead), map[])
  }

  /** Both generations do the same to the runtime and to the wrappers, although their NULL tests
      sit in different functions. */
  lemma GenerationsStepAlike(cf: Config, w: World, op: Op)
    requires Accepts(Cl, cf, w, op)
    ensures Accepts(Cl2, cf, w, op) && Step(Cl2, cf, w, op) == Step(Cl, cf, w, op)
  {
  }

  lemma {:induction false} GenerationsAgree(cf: Config, w: World, ops: seq<Op>)
    requires RunAccepted(Cl, cf, w, ops)
    ensures RunAccepted(Cl2, cf, w, ops) && Run(Cl2, cf, w, ops) == Run(Cl, cf, w, ops)
    decreases ops
  {
    if ops != [] {
      GenerationsStepAlike(cf, w, ops[0]);
      GenerationsAgree(cf, Step(Cl, cf, w, ops[0]), ops[1..]);
    }
  }

  // A wrapper that holds a counted handle keeps that handle's count above zero.
  lemma HeldIsAlive(cf: Config, w: World, i: nat)
    requires Inv(cf, w) && IsLive(w, i) && cf.Counted(w.slots[i].handle)
    ensures w.rt.Count(w.slots[i].handle) >= 1 + w.Outside(w.slots[i].handle)
  {
    var h := w.slots[i].handle;
    assert Balanced(cf, w, h);
    HoldersUpdate(w.slots, i, Dead, h);
  }

  // ... and one held twice keeps it above one.
  lemma HeldTwiceIsAlive(cf: Config, w: World, i: nat, j: nat)
    requires Inv(cf, w) && IsLive(w, i) && IsLive(w, j) && i != j
    requires cf.Counted(w.slots[i].handle) && w.slots[i].handle == w.slots[j].handle
    ensures w.rt.Count(w.slots[i].handle) >= 2
  {
    var h := w.slots[i].handle;
    assert Balanced(cf, w, h);
    HoldersUpdate(w.slots, i, Dead, h);
    HoldersUpdate(w.slots[i := Dead], j, Dead, h);
  }

  // Flags, faults and the trace, which need the handles at hand to be alive.
  lemma StepIsSafe(cf: Config, w: World, op: Op)
    requires Inv(cf, w) && Accepts(Cl2, cf, w, op)
    ensures var w' := Step(Cl2, cf, w, op);
            && !w'.rt.fault
            && (forall i :: 0 <= i < |w'.slots| ==> FlagOk(cf, w'.slots[i]))
            && (forall k :: 0 <= k < |w'.rt.trace| ==> cf.Counted(w'.rt.trace[k].h))
  {
    match op
    case Default(i) =>
    case FromObject(i, h, retain) =>
    case Copy(i, j) =>
      if cf.Counted(w.slots[j].handle) { HeldIsAlive(cf, w, j); }
    case Move(i, j) =>
    case CopyAssign(i, j) =>
      if cf.Counted(w.slots[i].handle) { HeldIsAlive(cf, w, i); }
      if cf.Counted(w.slots[j].handle) { HeldIsAlive(cf, w, j); }
      if i != j && cf.Counted(w.slots[i].handle) && w.slots[i].handle == w.slots[j].handle {
        HeldTwiceIsAlive(cf, w, i, j);
      }
    case MoveAssign(i, j) =>
      if cf.Counted(w.slots[i].handle) { HeldIsAlive(cf, w, i); }
    case RawAssign(i, h) =>
      if cf.Counted(w.slots[i].handle) { HeldIsAlive(cf, w, i); }
    case Destroy(i) =>
      if cf.Counted(w.slots[i].handle) { HeldIsAlive(cf, w, i); }
    case Obtain(h) =>
    case GiveUp(h) =>
  }

  lemma CopyAssignCounts(cf: Config, rt: Rt, self: Slot, rhs: Slot, h: Handle)
    requires self.Live? && rhs.Live? && FlagOk(cf, self) && FlagOk(cf, rhs) && cf.Counted(h)
    ensures Cl2Wrapper.CopyAssign(cf, rt, self, rhs).0.Count(h) == rt.Count(h) - Holds(self, h) + Holds(rhs, h)
  {
    Cl2Wrapper.ReleaseCounts(cf, rt, self, h);
    Cl2Wrapper.RetainCounts(cf, Cl2Wrapper.Release(cf, rt, self), rhs, h);
  }

  lemma FromObjectCounts(cf: Config, rt: Rt, h0: Handle, retain: bool, h: Handle)
    requires cf.Counted(h)
    ensures var (rt', s) := Cl2Wrapper.FromObject(cf, rt, h0, retain);
            s == Live(h0, cf.Flag(h0)) && rt'.Count(h) == rt.Count(h) + if retain then Holds(s, h) else 0
  {
    Cl2Wrapper.RetainCounts(cf, rt, Live(h0, cf.Flag(h0)), h);
  }

  lemma HandOverCounts(cf: Config, w: World, h0: Handle, h: Handle)
    requires cf.Counted(h0) ==> w.Outside(h0) >= 1
    requires cf.Counted(h)
    ensures w.(outside := HandOver(cf, w, h0)).Outside(h) == w.Outside(h) - if h == h0 then 1 else 0
  {
  }

  lemma StepIsBalanced(cf: Config, w: World, op: Op, h: Handle)
    requires Inv(cf, w) && Accepts(Cl2, cf, w, op) && cf.Counted(h)
    ensures Balanced(cf, Step(Cl2, cf, w, op), h)
  {
    assert Balanced(cf, w, h);
    match op
    case Default(i) => HoldersUpdate(w.slots, i, EMPTY, h);
    case FromObject(i, h0, retain) =>
      FromObjectBalances(cf, w, i, h0, retain, h);
    case Copy(i, j) => CopyBalances(cf, w, i, j, h);
    case Move(i, j) =>
      HoldersUpdate(w.slots, i, w.slots[j], h);
      HoldersUpdate(w.slots[i := w.slots[j]], j, EMPTY, h);
    case CopyAssign(i, j) =>
      if i != j {
        CopyAssignCounts(cf, w.rt, w.slots[i], w.slots[j], h);
        HoldersUpdate(w.slots, i, w.slots[j], h);
      }
    case MoveAssign(i, j) =>
      if i != j { MoveAssignBalances(cf, w, i, j, h); }
    case RawAssign(i, h0) => RawAssignBalances(cf, w, i, h0, h);
    case Destroy(i) =>
      Cl2Wrapper.ReleaseCounts(cf, w.rt, w.slots[i], h);
      HoldersUpdate(w.slots, i, Dead, h);
    case Obtain(_) =>
    case GiveUp(_) =>
  }

  lemma FromObjectBalances(cf: Config, w: World, i: nat, h0: Handle, retain: bool, h: Handle)
    requires Inv(cf, w) && Accepts(Cl2, cf, w, FromObject(i, h0, retain)) && cf.Counted(h)
    ensures Balanced(cf, Step(Cl2, cf, w, FromObject(i, h0, retain)), h)
  {
    assert Balanced(cf, w, h);
    FromObjectCounts(cf, w.rt, h0, retain, h);
    HoldersUpdate(w.slots, i, Live(h0, cf.Flag(h0)), h);
    if !retain { HandOverCounts(cf, w, h0, h); }
  }

  lemma MoveAssignBalances(cf: Config, w: World, i: nat, j: nat, h: Handle)
    requires Inv(cf, w) && Accepts(Cl2, cf, w, MoveAssign(i, j)) && i != j && cf.Counted(h)
    ensures Balanced(cf, Step(Cl2, cf, w, MoveAssign(i, j)), h)
  {
    assert Balanced(cf, w, h);
    Cl2Wrapper.ReleaseCounts(cf, w.rt, w.slots[i], h);
    HoldersUpdate(w.slots, i, w.slots[j], h);
    HoldersUpdate(w.slots[i := w.slots[j]], j, EMPTY, h);
  }

  lemma CopyBalances(cf: Config, w: World, i: nat, j: nat, h: Handle)
    requires Inv(cf, w) && Accepts(Cl2, cf, w, Copy(i, j)) && cf.Counted(h)
    ensures Balanced(cf, Step(Cl2, cf, w, Copy(i, j)), h)
  {
    assert Balanced(cf, w, h);
    var s := Live(w.slots[j].handle, cf.Flag(w.slots[j].handle));
    Cl2Wrapper.RetainCounts(cf, w.rt, s, h);
    HoldersUpdate(w.slots, i, s, h);
  }

  lemma RawAssignBalances(cf: Config, w: World, i: nat, h0: Handle, h: Handle)
    requires Inv(cf, w) && Accepts(Cl2, cf, w, RawAssign(i, h0)) && cf.Counted(h)
    ensures Balanced(cf, Step(Cl2, cf, w, RawAssign(i, h0)), h)
  {
    assert Balanced(cf, w, h);
    Cl2Wrapper.ReleaseCounts(cf, w.rt, w.slots[i], h);
    HoldersUpdate(w.slots, i, Live(h0, cf.Flag(h0)), h);
    HandOverCounts(cf, w, h0, h);
  }

  /** Every operation of either generation keeps the balance of every handle. */
  lemma StepKeepsInv(g: Generation, cf: Config, w: World, op: Op)
    requires Inv(cf, w) && Accepts(g, cf, w, op)
    ensures Inv(cf, Step(g, cf, w, op))
  {
    if g.Cl? {
      GenerationsStepAlike(cf, w, op);
    }
    StepIsSafe(cf, w, op);
    forall h | cf.Counted(h) ensures Balanced(cf, Step(Cl2, cf, w, op), h) {
      StepIsBalanced(cf, w, op, h);
    }
  }

  lemma {:induction false} RunKeepsInv(g: Generation, cf: Config, w: World, ops: seq<Op>)
    requires Inv(cf, w) && RunAccepted(g, cf, w, ops)
    ensures Inv(cf, Run(g, cf, w, ops))
    decreases ops
  {
    if ops != [] {
      StepKeepsInv(g, cf, w, ops[0]);
      RunKeepsInv(g, cf, Step(g, cf, w, ops[0]), ops[1..]);
    }
  }

  lemma {:induction false} StartIsBalanced(cf: Config, places: nat)
    ensures Inv(cf, Start(places))
  {
    forall h ensures Holders(Start(places).slots, h) == 0 {
      NobodyHolds(Start(places).slots, h);
    }
  }

  lemma {:induction false} NobodyHolds(slots: seq<Slot>, h: Handle)
    requires forall i :: 0 <= i < |slots| ==> Holds(slots[i], h) == 0
    ensures Holders(slots, h) == 0
  {
    if slots != [] {
      NobodyHolds(slots[1..], h);
    }
  }

  /** Reference conservation over every program of wrapper operations of either generation: the
      count of a handle is the number of wrappers holding it plus the references owned outside;
      no call ever reached a handle with no reference left; handles that are not counted saw no
      call; and a device wrapper's flag is the countability of its device. */
  lemma ReferencesAreConserved(g: Generation, cf: Config, places: nat, ops: seq<Op>, h: Handle, i: nat)
    requires RunAccepted(g, cf, Start(places), ops)
    ensures var w := Run(g, cf, Start(places), ops);
            && (cf.Counted(h) ==> w.rt.Count(h) == Holders(w.slots, h) + w.Outside(h))
            && !w.rt.fault
            && (!cf.Counted(h) ==> Retain(h) !in w.rt.trace && Release(h) !in w.rt.trace)
            && (IsLive(w, i) && w.slots[i].handle != NULL && cf.kind.Device? ==>
                  w.slots[i].countable == cf.isReferenceCountable(w.slots[i].handle))
  {
    StartIsBalanced(cf, places);
    RunKeepsInv(g, cf, Start(places), ops);
    var w := Run(g, cf, Start(places), ops);
    assert cf.Counted(h) ==> Balanced(cf, w, h);
    assert i < |w.slots| ==> FlagOk(cf, w.slots[i]);
  }

  /** Once every wrapper is destroyed, exactly the outside references are left. */
  lemma DestroyingAllLeavesOutside(g: Generation, cf: Config, places: nat, ops: seq<Op>, h: Handle)
    requires RunAccepted(g, cf, Start(places), ops) && cf.Counted(h)
    requires forall i: nat :: !IsLive(Run(g, cf, Start(places), ops), i)
    ensures Run(g, cf, Start(places), ops).rt.Count(h) == Run(g, cf, Start(places), ops).Outside(h)
  {
    ReferencesAreConserved(g, cf, places, ops, h, 0);
    var w := Run(g, cf, Start(places), ops);
    forall i | 0 <= i < |w.slots| ensures Holds(w.slots[i], h) == 0 {
      assert !IsLive(w, i);
    }
    NobodyHolds(w.slots, h);
  }

  // ------------------------------------------- what the operations alone say

  /** What the place `i` holds after the operations, read off them from the last one back: no
      wrapper, or one with a handle. Construction and assignment from a handle give that handle,
      copies give that of their source, and a moved-from wrapper holds NULL. */
  function Held(ops: seq<Op>, i: nat): Option<Handle> {
    if ops == [] then None
    else
      var front := ops[..|ops| - 1];
      match ops[|ops| - 1]
      case Default(t) => if i == t then Some(NULL) else Held(front, i)
      case FromObject(t, h, _) => if i == t then Some(h) else Held(front, i)
      case RawAssign(t, h) => if i == t then Some(h) else Held(front, i)
      case Copy(t, j) => Held(front, if i == t then j else i)
      case CopyAssign(t, j) => Held(front, if i == t then j else i)
      case Move(t, j) => if i == j then Some(NULL) else Held(front, if i == t then j else i)
      case MoveAssign(t, j) =>
        if t != j && i == j then Some(NULL) else Held(front, if i == t then j else i)
      case Destroy(t) => if i == t then None else Held(front, i)
      case Obtain(_) => Held(front, i)
      case GiveUp(_) => Held(front, i)
  }

  /** The references to `h` that the operations leave with the caller and the runtime: those obtained
      and not given up, or handed to a wrapper with a handle that is not to be retained. */
  function Owned(ops: seq<Op>, h: Handle): int {
    if ops == [] then 0
    else
      var front, last := ops[..|ops| - 1], ops[|ops| - 1];
      Owned(front, h) +
      if last == Obtain(h) then 1
      else if last == GiveUp(h) || (last.RawAssign? && last.h == h) || (last.FromObject? && last.h == h && !last.retain)
      then -1 else 0
  }

  /** How many of the first `places` places hold `h`. */
  function HeldCount(ops: seq<Op>, places: nat, h: Handle): nat {
    if places == 0 then 0
    else HeldCount(ops, places - 1, h) + if Held(ops, places - 1) == Some(h) then 1 else 0
  }

  /** The references the caller obtained from the runtime and gave back to it, net. */
  function Exchanged(ops: seq<Op>, h: Handle): int {
    if ops == [] then 0
    else
      var front, last := ops[..|ops| - 1], ops[|ops| - 1];
      Exchanged(front, h) + if last == Obtain(h) then 1 else if last == GiveUp(h) then -1 else 0
  }

  lemma {:induction false} RunSnoc(g: Generation, cf: Config, w: World, ops: seq<Op>)
    requires RunAccepted(g, cf, w, ops) && ops != []
    ensures var front, last := ops[..|ops| - 1], ops[|ops| - 1];
            && RunAccepted(g, cf, w, front) && Accepts(g, cf, Run(g, cf, w, front), last)
            && Run(g, cf, w, ops) == Step(g, cf, Run(g, cf, w, front), last)
    decreases ops
  {
    var front := ops[..|ops| - 1];
    if |ops| > 1 {
      assert ops[1..][..|ops| - 2] == front[1..];
      RunSnoc(g, cf, Step(g, cf, w, ops[0]), ops[1..]);
    }
  }

  predicate HoldsAs(s: Slot, held: Option<Handle>) {
    if s.Dead? then held == None else held == Some(s.handle)
  }

  lemma StepHolds(g: Generation, cf: Config, w: World, front: seq<Op>, op: Op)
    requires Accepts(g, cf, w, op) && forall i :: 0 <= i < |w.slots| ==> HoldsAs(w.slots[i], Held(front, i))
    ensures var w' := Step(g, cf, w, op);
            |w'.slots| == |w.slots| && forall i :: 0 <= i < |w'.slots| ==> HoldsAs(w'.slots[i], Held(front + [op], i))
  {
    assert (front + [op])[..|front|] == front;
  }

  /** Which handle every wrapper holds, after any program of either generation: the one the
      operations say, as if wrappers were plain pointers. */
  lemma {:induction false} WrappersHold(g: Generation, cf: Config, places: nat, ops: seq<Op>)
    requires RunAccepted(g, cf, Start(places), ops)
    ensures var slots := Run(g, cf, Start(places), ops).slots;
            && |slots| == places
            && forall i :: 0 <= i < places ==>
                 if Held(ops, i) == None then slots[i].Dead?
                 else slots[i].Live? && slots[i].handle == Held(ops, i).value
    decreases |ops|
  {
    if ops != [] {
      var front, last := ops[..|ops| - 1], ops[|ops| - 1];
      RunSnoc(g, cf, Start(places), ops);
      WrappersHold(g, cf, places, front);
      StepHolds(g, cf, Run(g, cf, Start(places), front), front, last);
      assert front + [last] == ops;
      var w := Run(g, cf, Start(places), ops);
      assert forall i :: 0 <= i < places ==> HoldsAs(w.slots[i], Held(ops, i));
    }
  }

  lemma {:induction false} OutsideIsOwned(g: Generation, cf: Config, places: nat, ops: seq<Op>, h: Handle)
    requires RunAccepted(g, cf, Start(places), ops) && cf.Counted(h)
    ensures Run(g, cf, Start(places), ops).Outside(h) == Owned(ops, h)
    decreases |ops|
  {
    if ops != [] {
      RunSnoc(g, cf, Start(places), ops);
      OutsideIsOwned(g, cf, places, ops[..|ops| - 1], h);
    }
  }

  lemma {:induction false} HoldersAreHeld(slots: seq<Slot>, ops: seq<Op>, places: nat, h: Handle)
    requires places <= |slots| && forall i :: 0 <= i < places ==> HoldsAs(slots[i], Held(ops, i))
    ensures Holders(slots[..places], h) == HeldCount(ops, places, h)
  {
    if places > 0 {
      HoldersAreHeld(slots, ops, places - 1, h);
      HoldersSnoc(slots[..places - 1], slots[places - 1], h);
      assert slots[..places] == slots[..places - 1] + [slots[places - 1]];
    }
  }

  /** The count of every counted handle after any program, read off the operations: the places that
      hold it and the references owned elsewhere. */
  lemma CountIsRead(g: Generation, cf: Config, places: nat, ops: seq<Op>, h: Handle)
    requires RunAccepted(g, cf, Start(places), ops) && cf.Counted(h)
    ensures Run(g, cf, Start(places), ops).rt.Count(h) == HeldCount(ops, places, h) + Owned(ops, h)
  {
    var w := Run(g, cf, Start(places), ops);
    ReferencesAreConserved(g, cf, places, ops, h, 0);
    OutsideIsOwned(g, cf, places, ops, h);
    WrappersHold(g, cf, places, ops);
    HoldersAreHeld(w.slots, ops, places, h);
    assert w.slots[..places] == w.slots;
  }

  // What the trace says a handle's count has changed by.
  function Net(rt: Rt, h: Handle): int {
    rt.Count(h) - multiset(rt.trace)[Event.Retain(h)] + multiset(rt.trace)[Event.Release(h)]
  }

  lemma CallsAreNet(rt: Rt, k: Handle, h: Handle)
    ensures Net(rt.Retained(k), h) == Net(rt, h) && Net(rt.Released(k), h) == Net(rt, h)
  {
  }

  lemma RetainIsNet(cf: Config, rt: Rt, s: Slot, h: Handle)
    requires s.Live?
    ensures Net(Cl2Wrapper.Retain(cf, rt, s), h) == Net(Cl2Wrapper.Release(cf, rt, s), h) == Net(rt, h)
  {
    CallsAreNet(rt, s.handle, h);
  }

  lemma StepAccounts(g: Generation, cf: Config, w: World, op: Op, h: Handle)
    requires Accepts(g, cf, w, op)
    ensures Net(Step(g, cf, w, op).rt, h) ==
              Net(w.rt, h) + if op == Obtain(h) then 1 else if op == GiveUp(h) then -1 else 0
  {
    if g.Cl? { GenerationsStepAlike(cf, w, op); }
    match op
    case FromObject(i, o, retain) => RetainIsNet(cf, w.rt, Live(o, cf.Flag(o)), h);
    case Copy(i, j) => RetainIsNet(cf, w.rt, Live(w.slots[j].handle, cf.Flag(w.slots[j].handle)), h);
    case CopyAssign(i, j) =>
      RetainIsNet(cf, w.rt, w.slots[i], h);
      RetainIsNet(cf, Cl2Wrapper.Release(cf, w.rt, w.slots[i]), w.slots[j], h);
    case MoveAssign(i, j) => RetainIsNet(cf, w.rt, w.slots[i], h);
    case RawAssign(i, _) => RetainIsNet(cf, w.rt, w.slots[i], h);
    case Destroy(i) => RetainIsNet(cf, w.rt, w.slots[i], h);
    case _ =>
  }

  /** The trace accounts for the count of every handle: a retain adds one, a release takes one away,
      and nothing else changes it but the caller's own dealings with the runtime. */
  lemma {:induction false} TraceAccounts(g: Generation, cf: Config, places: nat, ops: seq<Op>, h: Handle)
    requires RunAccepted(g, cf, Start(places), ops)
    ensures var rt := Run(g, cf, Start(places), ops).rt;
            rt.Count(h) ==
              multiset(rt.trace)[Event.Retain(h)] - multiset(rt.trace)[Event.Release(h)] + Exchanged(ops, h)
    decreases |ops|
  {
    if ops != [] {
      RunSnoc(g, cf, Start(places), ops);
      TraceAccounts(g, cf, places, ops[..|ops| - 1], h);
      StepAccounts(g, cf, Run(g, cf, Start(places), ops[..|ops| - 1]), ops[|ops| - 1], h);
    }
  }

  /** How often the operations ask for one more reference to `h`: copies of a wrapper that holds it,
      other than onto itself, and constructions that are to retain it. */
  function Wanted(ops: seq<Op>, h: Handle): nat {
    if ops == [] then 0
    else
      var front, last := ops[..|ops| - 1], ops[|ops| - 1];
      Wanted(front, h) +
      match last
      case FromObject(_, o, retain) => if retain && o == h then 1 else 0
      case Copy(_, j) => if Held(front, j) == Some(h) then 1 else 0
      case CopyAssign(i, j) => if i != j && Held(front, j) == Some(h) then 1 else 0
      case _ => 0
  }

  /** The retains of `h` in the trace. */
  function RetainsOf(rt: Rt, h: Handle): nat {
    multiset(rt.trace)[Event.Retain(h)]
  }

  lemma CallsRetain(cf: Config, rt: Rt, s: Slot, h: Handle)
    requires s.Live? && FlagOk(cf, s) && cf.Counted(h)
    ensures RetainsOf(Cl2Wrapper.Retain(cf, rt, s), h) == RetainsOf(rt, h) + Holds(s, h)
    ensures RetainsOf(Cl2Wrapper.Release(cf, rt, s), h) == RetainsOf(rt, h)
  {
  }

  // How often one operation retains `h`, given what the places hold.
  function WantedBy(w: World, op: Op, h: Handle): nat {
    match op
    case FromObject(_, o, retain) => if retain && o == h then 1 else 0
    case Copy(_, j) => if j < |w.slots| then Holds(w.slots[j], h) else 0
    case CopyAssign(i, j) => if i != j && j < |w.slots| then Holds(w.slots[j], h) else 0
    case _ => 0
  }

  lemma StepRetains(g: Generation, cf: Config, w: World, op: Op, h: Handle)
    requires Accepts(g, cf, w, op) && cf.Counted(h)
    requires forall i :: 0 <= i < |w.slots| ==> FlagOk(cf, w.slots[i])
    ensures RetainsOf(Step(g, cf, w, op).rt, h) == RetainsOf(w.rt, h) + WantedBy(w, op, h)
  {
    if g.Cl? { GenerationsStepAlike(cf, w, op); }
    match op
    case FromObject(i, o, retain) => CallsRetain(cf, w.rt, Live(o, cf.Flag(o)), h);
    case Copy(i, j) => CallsRetain(cf, w.rt, Live(w.slots[j].handle, cf.Flag(w.slots[j].handle)), h);
    case CopyAssign(i, j) =>
      CallsRetain(cf, w.rt, w.slots[i], h);
      CallsRetain(cf, Cl2Wrapper.Release(cf, w.rt, w.slots[i]), w.slots[j], h);
    case MoveAssign(i, j) => CallsRetain(cf, w.rt, w.slots[i], h);
    case RawAssign(i, _) => CallsRetain(cf, w.rt, w.slots[i], h);
    case Destroy(i) => CallsRetain(cf, w.rt, w.slots[i], h);
    case _ =>
  }

  lemma WantedNext(g: Generation, cf: Config, w: World, front: seq<Op>, op: Op, h: Handle)
    requires Accepts(g, cf, w, op) && forall i :: 0 <= i < |w.slots| ==> HoldsAs(w.slots[i], Held(front, i))
    ensures Wanted(front + [op], h) == Wanted(front, h) + WantedBy(w, op, h)
  {
    assert (front + [op])[..|front|] == front;
    if op.Copy? || op.CopyAssign? { assert HoldsAs(w.slots[op.j], Held(front, op.j)); }
  }

  lemma NextRetains(g: Generation, cf: Config, places: nat, front: seq<Op>, op: Op, h: Handle)
    requires RunAccepted(g, cf, Start(places), front) && Accepts(g, cf, Run(g, cf, Start(places), front), op)
    requires cf.Counted(h)
    ensures var w := Run(g, cf, Start(places), front);
            RetainsOf(Step(g, cf, w, op).rt, h) - RetainsOf(w.rt, h) == Wanted(front + [op], h) - Wanted(front, h)
  {
    var w := Run(g, cf, Start(places), front);
    WrappersHold(g, cf, places, front);
    StartIsBalanced(cf, places);
    RunKeepsInv(g, cf, Start(places), front);
    StepRetains(g, cf, w, op, h);
    WantedNext(g, cf, w, front, op, h);
  }

  /** The runtime sees exactly that many retains of a counted handle. */
  lemma {:induction false} RetainsAreWanted(g: Generation, cf: Config, places: nat, ops: seq<Op>, h: Handle)
    requires RunAccepted(g, cf, Start(places), ops) && cf.Counted(h)
    ensures RetainsOf(Run(g, cf, Start(places), ops).rt, h) == Wanted(ops, h)
    decreases |ops|
  {
    if ops != [] {
      var front, last := ops[..|ops| - 1], ops[|ops| - 1];
      RunSnoc(g, cf, Start(places), ops);
      RetainsAreWanted(g, cf, places, front, h);
      NextRetains(g, cf, places, front, last, h);
      assert front + [last] == ops;
    }
  }
}
