/**
 Wrapper objects that share a runtime and update their fields in place. The two generations
 differ in where they test for NULL. Either way a method makes the calls of the step in
 `Programs`, and the set of live wrappers keeps its references accounted for.
 */
module WrapperObjects {
  import opened Common
  import opened Runtime
  import opened Programs
  import Cl2Wrapper

  /** The OpenCL runtime, with the headers a program was compiled against. */
  class RuntimeObject {
    const generation: Generation
    const cf: Config
    var rt: Rt

    constructor (generation: Generation, cf: Config, rt: Rt)
      ensures this.generation == generation && this.cf == cf && this.rt == rt
    {
      this.generation, this.cf, this.rt := generation, cf, rt;
    }
  }

  ghost function HoldersOf(objs: set<Wrapper>, h: Handle): set<Wrapper>
    reads objs
  {
    set o | o in objs && o.handle == h
  }

  /** No call hit a handle without references, or one that is not counted. */
  predicate Clean(cf: Config, rt: Rt) {
    !rt.fault && forall k :: 0 <= k < |rt.trace| ==> cf.Counted(rt.trace[k].h)
  }

  /** The live wrappers `objs` and the references `out` owned elsewhere account for every counted
      handle, every call was in order and device flags are right. */
  ghost predicate Conserved(runtime: RuntimeObject, objs: set<Wrapper>, out: Handle -> nat)
    reads runtime, objs
  {
    && Clean(runtime.cf, runtime.rt)
    && (forall o :: o in objs ==> o.runtime == runtime && FlagOk(runtime.cf, o.Fields()))
    && (forall h :: runtime.cf.Counted(h) ==> runtime.rt.Count(h) == |HoldersOf(objs, h)| + out(h))
  }

  /** One of the outside references to `h` has been handed to a wrapper. */
  function Without(cf: Config, out: Handle -> nat, h: Handle): Handle -> nat {
    x => if x == h && cf.Counted(h) && out(h) >= 1 then out(h) - 1 else out(x)
  }

  lemma CallsAreClean(cf: Config, rt: Rt, s: Slot)
    requires Clean(cf, rt) && s.Live? && FlagOk(cf, s)
    requires cf.Counted(s.handle) ==> rt.Count(s.handle) >= 1
    ensures Clean(cf, Cl2Wrapper.Retain(cf, rt, s)) && Clean(cf, Cl2Wrapper.Release(cf, rt, s))
  {
  }

  // What a copy assignment between two wrappers does to the runtime.
  lemma CopyAssignIsClean(cf: Config, rt: Rt, self: Slot, rhs: Slot)
    requires Clean(cf, rt) && self.Live? && rhs.Live? && FlagOk(cf, self) && FlagOk(cf, rhs)
    requires cf.Counted(self.handle) ==> rt.Count(self.handle) >= if self.handle == rhs.handle then 2 else 1
    requires cf.Counted(rhs.handle) ==> rt.Count(rhs.handle) >= 1
    ensures Clean(cf, Cl2Wrapper.CopyAssign(cf, rt, self, rhs).0)
  {
    CallsAreClean(cf, rt, self);
    if cf.Counted(rhs.handle) {
      Cl2Wrapper.ReleaseCounts(cf, rt, self, rhs.handle);
    }
    CallsAreClean(cf, Cl2Wrapper.Release(cf, rt, self), rhs);
  }

  lemma CardWithout<T>(s: set<T>, x: T)
    ensures |s - {x}| == |s| - if x in s then 1 else 0
  {
    if x in s {
      assert s == (s - {x}) + {x};
    } else {
      assert s - {x} == s;
    }
  }

  // A wrapper that holds a handle is one of its holders, and two are two.
  lemma HoldersCounted(objs: set<Wrapper>, a: Wrapper, b: Wrapper)
    requires a in objs && b in objs && a.handle == b.handle
    ensures |HoldersOf(objs, a.handle)| >= if a == b then 1 else 2
  {
    var s := HoldersOf(objs, a.handle);
    CardWithout(s, a);
    CardWithout(s - {a}, b);
  }

  // Two sets that differ in `x` at most.
  lemma CardMoved<T>(s: set<T>, s': set<T>, x: T)
    requires s - {x} == s' - {x}
    ensures |s'| == |s| - (if x in s then 1 else 0) + if x in s' then 1 else 0
  {
    CardWithout(s, x);
    CardWithout(s', x);
  }

  // `a` took what `b` held.
  lemma HoldersHandedOn(s: set<Wrapper>, s': set<Wrapper>, a: Wrapper, b: Wrapper)
    requires s - {a} - {b} == s' - {a} - {b} && (a in s' <==> b in s) && a != b && b !in s'
    ensures |s'| == |s| - if a in s then 1 else 0
  {
    CardMoved(s - {a}, s' - {a}, b);
    CardWithout(s, a);
    CardWithout(s', a);
  }

  // Between wrappers of the same handle the release leaves a reference to retain.
  lemma CopyAssignIsSafe(runtime: RuntimeObject, objs: set<Wrapper>, out: Handle -> nat, a: Wrapper, b: Wrapper)
    requires Conserved(runtime, objs, out) && a in objs && b in objs && a != b
    ensures Clean(runtime.cf, Cl2Wrapper.CopyAssign(runtime.cf, runtime.rt, a.Fields(), b.Fields()).0)
  {
    HoldersCounted(objs, a, a);
    HoldersCounted(objs, b, b);
    if a.handle == b.handle {
      HoldersCounted(objs, a, b);
    }
    CopyAssignIsClean(runtime.cf, runtime.rt, a.Fields(), b.Fields());
  }

  class Wrapper {
    const runtime: RuntimeObject
    var handle: Handle
    var referenceCountable: bool

    function Fields(): Slot
      reads this
    {
      Live(handle, referenceCountable)
    }

    /** `retain()`: cl2.hpp tests for NULL, cl.hpp leaves that to its callers. */
    method RetainHandle()
      requires runtime.generation.Cl? ==> handle != NULL
      modifies runtime
      ensures runtime.rt == Cl2Wrapper.Retain(runtime.cf, old(runtime.rt), Fields())
    {
      if handle != NULL || runtime.generation.Cl? {
        if runtime.cf.kind.Plain? || referenceCountable {
          runtime.rt := runtime.rt.Retained(handle);
        }
      }
    }

    /** `release()`, which tests for NULL as `retain()` does. */
    method ReleaseHandle()
      requires runtime.generation.Cl? ==> handle != NULL
      modifies runtime
      ensures runtime.rt == Cl2Wrapper.Release(runtime.cf, old(runtime.rt), Fields())
    {
      if handle != NULL || runtime.generation.Cl? {
        if runtime.cf.kind.Plain? || referenceCountable {
          runtime.rt := runtime.rt.Released(handle);
        }
      }
    }

    /** `Wrapper()`. */
    constructor Default(runtime: RuntimeObject, ghost objs: set<Wrapper>, ghost out: Handle -> nat)
      requires Conserved(runtime, objs, out)
      ensures this.runtime == runtime && Fields() == EMPTY
      ensures Conserved(runtime, objs + {this}, out)
    {
      this.runtime := runtime;
      handle, referenceCountable := NULL, false;
      new;
      forall h | runtime.cf.Counted(h) ensures runtime.rt.Count(h) == |HoldersOf(objs + {this}, h)| + out(h) {
        CardMoved(old(HoldersOf(objs, h)), HoldersOf(objs + {this}, h), this);
      }
    }

    /** `Wrapper(obj)`, which takes over a reference, or cl2's `Wrapper(obj, true)`, which takes one
        more of a handle that is alive. */
    constructor FromObject(runtime: RuntimeObject, obj: Handle, retainObject: bool,
                           ghost objs: set<Wrapper>, ghost out: Handle -> nat)
      requires Conserved(runtime, objs, out) && (retainObject ==> runtime.generation.Cl2?)
      requires runtime.cf.Counted(obj) ==> if retainObject then runtime.rt.Count(obj) >= 1 else out(obj) >= 1
      modifies runtime
      ensures this.runtime == runtime && Fields() == Live(obj, runtime.cf.Flag(obj))
      ensures runtime.rt == Cl2Wrapper.FromObject(runtime.cf, old(runtime.rt), obj, retainObject).0
      ensures Conserved(runtime, objs + {this}, if retainObject then out else Without(runtime.cf, out, obj))
    {
      this.runtime := runtime;
      handle, referenceCountable := obj, runtime.cf.Flag(obj);
      new;
      if retainObject {
        RetainHandle();
      }
      forall h | runtime.cf.Counted(h)
        ensures runtime.rt.Count(h) ==
                  |HoldersOf(objs + {this}, h)| + if retainObject then out(h) else Without(runtime.cf, out, obj)(h)
      {
        CardMoved(old(HoldersOf(objs, h)), HoldersOf(objs + {this}, h), this);
        Cl2Wrapper.RetainCounts(runtime.cf, old(runtime.rt), Fields(), h);
      }
    }

    /** `Wrapper(const Wrapper&)`. */
    constructor CopyOf(rhs: Wrapper, ghost objs: set<Wrapper>, ghost out: Handle -> nat)
      requires rhs in objs && Conserved(rhs.runtime, objs, out)
      modifies rhs.runtime
      ensures runtime == rhs.runtime && Fields() == Live(rhs.handle, runtime.cf.Flag(rhs.handle))
      ensures runtime.rt == Cl2Wrapper.Retain(runtime.cf, old(rhs.runtime.rt), Fields())
      ensures Conserved(runtime, objs + {this}, out)
    {
      runtime := rhs.runtime;
      handle := rhs.handle;
      referenceCountable := rhs.runtime.cf.Flag(rhs.handle);
      new;
      HoldersCounted(objs, rhs, rhs);
      if runtime.generation.Cl2? || handle != NULL {
        RetainHandle();
      }
      forall h | runtime.cf.Counted(h) ensures runtime.rt.Count(h) == |HoldersOf(objs + {this}, h)| + out(h) {
        CardMoved(old(HoldersOf(objs, h)), HoldersOf(objs + {this}, h), this);
        Cl2Wrapper.RetainCounts(runtime.cf, old(rhs.runtime.rt), Fields(), h);
      }
    }

    /** `Wrapper(Wrapper&&)`. */
    constructor MoveOf(rhs: Wrapper, ghost objs: set<Wrapper>, ghost out: Handle -> nat)
      requires rhs in objs && Conserved(rhs.runtime, objs, out)
      modifies rhs
      ensures runtime == rhs.runtime && Fields() == old(rhs.Fields()) && rhs.Fields() == EMPTY
      ensures Conserved(runtime, objs + {this}, out)
    {
      runtime := rhs.runtime;
      handle, referenceCountable := rhs.handle, rhs.referenceCountable;
      new;
      rhs.handle, rhs.referenceCountable := NULL, false;
      forall h | runtime.cf.Counted(h) ensures runtime.rt.Count(h) == |HoldersOf(objs + {this}, h)| + out(h) {
        HoldersHandedOn(old(HoldersOf(objs, h)), HoldersOf(objs + {this}, h), this, rhs);
      }
    }

    /** `operator=(const Wrapper&)`. */
    method CopyAssign(rhs: Wrapper, ghost objs: set<Wrapper>, ghost out: Handle -> nat)
      requires this in objs && rhs in objs && Conserved(runtime, objs, out)
      modifies this, runtime
      ensures Fields() == old(rhs.Fields())
      ensures runtime.rt == if this == rhs then old(runtime.rt)
                            else Cl2Wrapper.CopyAssign(runtime.cf, old(runtime.rt), old(Fields()), Fields()).0
      ensures Conserved(runtime, objs, out)
    {
      if this == rhs {
        return;
      }
      CopyAssignIsSafe(runtime, objs, out, this, rhs);
      if runtime.generation.Cl2? || handle != NULL {
        ReleaseHandle();
      }
      handle, referenceCountable := rhs.handle, rhs.referenceCountable;
      if runtime.generation.Cl2? || handle != NULL {
        RetainHandle();
      }
      forall h | runtime.cf.Counted(h) ensures runtime.rt.Count(h) == |HoldersOf(objs, h)| + out(h) {
        CardMoved(old(HoldersOf(objs, h)), HoldersOf(objs, h), this);
        CopyAssignCounts(runtime.cf, old(runtime.rt), old(Fields()), Fields(), h);
      }
    }

    /** `operator=(Wrapper&&)`. */
    method MoveAssign(rhs: Wrapper, ghost objs: set<Wrapper>, ghost out: Handle -> nat)
      requires this in objs && rhs in objs && Conserved(runtime, objs, out)
      modifies this, rhs, runtime
      ensures Fields() == old(rhs.Fields()) && (this != rhs ==> rhs.Fields() == EMPTY)
      ensures runtime.rt == if this == rhs then old(runtime.rt)
                            else Cl2Wrapper.Release(runtime.cf, old(runtime.rt), old(Fields()))
      ensures Conserved(runtime, objs, out)
    {
      if this == rhs {
        return;
      }
      HoldersCounted(objs, this, this);
      if runtime.generation.Cl2? || handle != NULL {
        ReleaseHandle();
      }
      handle, referenceCountable := rhs.handle, rhs.referenceCountable;
      rhs.handle, rhs.referenceCountable := NULL, false;
      forall h | runtime.cf.Counted(h) ensures runtime.rt.Count(h) == |HoldersOf(objs, h)| + out(h) {
        HoldersHandedOn(old(HoldersOf(objs, h)), HoldersOf(objs, h), this, rhs);
        Cl2Wrapper.ReleaseCounts(runtime.cf, old(runtime.rt), old(Fields()), h);
      }
    }

    /** `operator=(const cl_type&)`: the wrapper takes over a reference to `obj`. */
    method RawAssign(obj: Handle, ghost objs: set<Wrapper>, ghost out: Handle -> nat)
      requires this in objs && Conserved(runtime, objs, out)
      requires runtime.cf.Counted(obj) ==> out(obj) >= 1
      modifies this, runtime
      ensures Fields() == Live(obj, runtime.cf.Flag(obj))
      ensures runtime.rt == Cl2Wrapper.Release(runtime.cf, old(runtime.rt), old(Fields()))
      ensures Conserved(runtime, objs, Without(runtime.cf, out, obj))
    {
      HoldersCounted(objs, this, this);
      if runtime.generation.Cl2? || handle != NULL {
        ReleaseHandle();
      }
      handle, referenceCountable := obj, runtime.cf.Flag(obj);
      forall h | runtime.cf.Counted(h)
        ensures runtime.rt.Count(h) == |HoldersOf(objs, h)| + Without(runtime.cf, out, obj)(h)
      {
        CardMoved(old(HoldersOf(objs, h)), HoldersOf(objs, h), this);
        Cl2Wrapper.ReleaseCounts(runtime.cf, old(runtime.rt), old(Fields()), h);
      }
    }

    /** `~Wrapper()`: the other wrappers are left. cl2.hpp's wrapper of devices does not test for
        NULL here. */
    method Destroy(ghost objs: set<Wrapper>, ghost out: Handle -> nat)
      requires this in objs && Conserved(runtime, objs, out)
      modifies runtime
      ensures runtime.rt == Cl2Wrapper.Destroy(runtime.cf, old(runtime.rt), Fields())
      ensures Conserved(runtime, objs - {this}, out)
    {
      HoldersCounted(objs, this, this);
      if (runtime.generation.Cl2? && runtime.cf.kind.Device?) || handle != NULL {
        ReleaseHandle();
      }
      forall h | runtime.cf.Counted(h) ensures runtime.rt.Count(h) == |HoldersOf(objs - {this}, h)| + out(h) {
        CardMoved(HoldersOf(objs, h), HoldersOf(objs - {this}, h), this);
        Cl2Wrapper.ReleaseCounts(runtime.cf, old(runtime.rt), Fields(), h);
      }
    }
  }

  /** The end of a scope: once its wrappers are gone, in whatever order, the references owned
      elsewhere are the only ones left. */
  method DestroyAll(runtime: RuntimeObject, objs: set<Wrapper>, ghost out: Handle -> nat)
    requires Conserved(runtime, objs, out)
    modifies runtime
    ensures !runtime.rt.fault
    ensures forall h :: runtime.cf.Counted(h) ==> runtime.rt.Count(h) == out(h)
  {
    var rest := objs;
    while rest != {}
      invariant Conserved(runtime, rest, out)
    {
      var w :| w in rest;
      w.Destroy(rest, out);
      rest := rest - {w};
    }
  }
}
