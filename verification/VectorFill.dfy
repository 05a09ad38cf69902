/**
 Filling a vector of wrappers with the raw handles a query returned: `getInfoHelper` of both
 generations, and cl2's `Program::createKernels`.
 */
module VectorFill {
  import opened Common
  import opened Runtime
  import ClWrapper
  import Cl2Wrapper

  /** The two calls of a query: one for the size, one for the data. */
  datatype Query =
    | SizeFails(err: int)
    | DataFails(err: int)
    | Answers(values: seq<Handle>)

  function Handles(items: seq<Slot>): (r: seq<Handle>)
    requires forall i :: 0 <= i < |items| ==> items[i].Live?
    ensures |r| == |items| && forall i :: 0 <= i < |r| ==> r[i] == items[i].handle
  {
    seq(|items|, i requires 0 <= i < |items| => items[i].handle)
  }

  function Mult(values: seq<Handle>, h: Handle): nat {
    if values == [] then 0 else (if values[0] == h then 1 else 0) + Mult(values[1..], h)
  }

  lemma {:induction false} MultSnoc(values: seq<Handle>, v: Handle, h: Handle)
    ensures Mult(values + [v], h) == Mult(values, h) + if v == h then 1 else 0
  {
    if values == [] {
      assert [] + [v] == [v] && [v][1..] == [];
      assert Mult([], h) == 0;
    } else {
      assert (values + [v])[1..] == values[1..] + [v];
      MultSnoc(values[1..], v, h);
    }
  }

  /** Wrappers count as holders exactly as often as their handles occur. */
  lemma {:induction false} HoldersAreOccurrences(items: seq<Slot>, h: Handle)
    requires forall i :: 0 <= i < |items| ==> items[i].Live?
    ensures Holders(items, h) == Mult(Handles(items), h)
  {
    if items != [] {
      assert Handles(items)[1..] == Handles(items[1..]);
      HoldersAreOccurrences(items[1..], h);
    }
  }

  lemma {:induction false} MultConcat(a: seq<Handle>, b: seq<Handle>, h: Handle)
    ensures Mult(a + b, h) == Mult(a, h) + Mult(b, h)
  {
    if a == [] {
      assert a + b == b;
    } else {
      assert (a + b)[1..] == a[1..] + b;
      MultConcat(a[1..], b, h);
    }
  }

  /** The handles among `values` whose retain the runtime granted. */
  function Granted(values: seq<Handle>, errs: seq<int>): seq<Handle>
    requires |values| == |errs|
  {
    if values == [] then []
    else
      var n := |values| - 1;
      Granted(values[..n], errs[..n]) + if errs[n] == CL_SUCCESS then [values[n]] else []
  }

  /** A handle is granted as often as it occurs exactly when no retain of it is refused. */
  lemma {:induction false} GrantedCount(values: seq<Handle>, errs: seq<int>, h: Handle)
    requires |values| == |errs|
    ensures Mult(Granted(values, errs), h) <= Mult(values, h)
    ensures Mult(Granted(values, errs), h) == Mult(values, h) <==>
              forall i :: 0 <= i < |values| && values[i] == h ==> errs[i] == CL_SUCCESS
  {
    if values != [] {
      var n := |values| - 1;
      var vs, es := values[..n], errs[..n];
      assert values == vs + [values[n]];
      GrantedCount(vs, es, h);
      MultSnoc(vs, values[n], h);
      MultSnoc(Granted(vs, es), values[n], h);
      assert Granted(vs, es) + [] == Granted(vs, es);
      assert forall i :: 0 <= i < n ==> values[i] == vs[i] && errs[i] == es[i];
    }
  }

  /** The runtime refuses no retain that is asked of it; uncounted handles are not asked for. */
  ghost predicate AllAnswered(cf: Config, values: seq<Handle>, errs: seq<int>)
    requires |values| == |errs|
  {
    forall i :: 0 <= i < |values| && cf.Counted(values[i]) ==> errs[i] == CL_SUCCESS
  }

  /** The elements hold the given handles, with the flags their wrappers compute. */
  ghost predicate Filled(cf: Config, items: seq<Slot>, values: seq<Handle>) {
    |items| == |values| && forall k :: 0 <= k < |values| ==> items[k] == Live(values[k], cf.Flag(values[k]))
  }

  ghost predicate Sound(cf: Config, rt: Rt, items: seq<Slot>) {
    && !rt.fault
    && (forall k :: 0 <= k < |rt.trace| ==> cf.Counted(rt.trace[k].h))
    && (forall i :: 0 <= i < |items| ==> items[i].Live? && FlagOk(cf, items[i]))
  }

  /** Every counted handle's references are those of `owners` (wrappers that hold one each),
      one for each occurrence in `granted`, and those owned elsewhere. */
  ghost predicate Accounted(cf: Config, rt: Rt, owners: seq<Slot>, granted: seq<Handle>, out: Handle -> nat) {
    forall h :: cf.Counted(h) ==> rt.Count(h) == Holders(owners, h) + Mult(granted, h) + out(h)
  }

  // Dropping the first owner's reference.
  lemma ReleaseFirst(cf: Config, rt: Rt, owners: seq<Slot>, granted: seq<Handle>, out: Handle -> nat)
    requires owners != [] && Sound(cf, rt, owners) && Accounted(cf, rt, owners, granted, out)
    ensures var rt' := Cl2Wrapper.Release(cf, rt, owners[0]);
            && rt' == ClWrapper.Destroy(cf, rt, owners[0]) == Cl2Wrapper.Destroy(cf, rt, owners[0])
            && Sound(cf, rt', owners[1..]) && Accounted(cf, rt', owners[1..], granted, out)
  {
    var s := owners[0];
    var rt' := Cl2Wrapper.Release(cf, rt, s);
    forall h | cf.Counted(h)
      ensures rt'.Count(h) == Holders(owners[1..], h) + Mult(granted, h) + out(h)
    {
      Cl2Wrapper.ReleaseCounts(cf, rt, s, h);
    }
  }

  // The runtime's answer to a retain: the call is made on counted handles only, and a refusal
  // leaves the count alone.
  function TryRetain(cf: Config, rt: Rt, s: Slot, err: int): Rt
    requires s.Live?
  {
    if err == CL_SUCCESS then Cl2Wrapper.Retain(cf, rt, s) else rt
  }

  lemma RetainNext(cf: Config, rt: Rt, owners: seq<Slot>, values: seq<Handle>, errs: seq<int>, i: nat,
                   out: Handle -> nat)
    requires |values| == |errs| && i < |values|
    requires Sound(cf, rt, owners) && Accounted(cf, rt, owners, Granted(values[..i], errs[..i]), out)
    requires cf.Counted(values[i]) ==> out(values[i]) >= 1
    ensures var s := Live(values[i], cf.Flag(values[i]));
            var rt' := TryRetain(cf, rt, s, errs[i]);
            && Sound(cf, rt', owners)
            && Accounted(cf, rt', owners, Granted(values[..i + 1], errs[..i + 1]), out)
  {
    var s := Live(values[i], cf.Flag(values[i]));
    var rt' := TryRetain(cf, rt, s, errs[i]);
    assert values[..i + 1][..i] == values[..i] && errs[..i + 1][..i] == errs[..i];
    var g := Granted(values[..i], errs[..i]);
    forall h | cf.Counted(h)
      ensures rt'.Count(h) == Holders(owners, h) + Mult(Granted(values[..i + 1], errs[..i + 1]), h) + out(h)
    {
      if errs[i] == CL_SUCCESS {
        Cl2Wrapper.RetainCounts(cf, rt, s, h);
        MultSnoc(g, values[i], h);
      } else {
        assert g + [] == g;
      }
    }
  }

  // One round of cl2's loop: the new handle is retained, the old element releases its own.
  lemma ReplaceNext(cf: Config, rt: Rt, was: seq<Slot>, values: seq<Handle>, errs: seq<int>, i: nat, out: Handle -> nat)
    requires |was| == |values| == |errs| && i < |values|
    requires Sound(cf, rt, was[i..]) && Accounted(cf, rt, was[i..], Granted(values[..i], errs[..i]), out)
    requires cf.Counted(values[i]) ==> out(values[i]) >= 1
    ensures was[i].Live?
    ensures var rt' := Cl2Wrapper.Release(cf, TryRetain(cf, rt, Live(values[i], cf.Flag(values[i])), errs[i]), was[i]);
            && Sound(cf, rt', was[i + 1..])
            && Accounted(cf, rt', was[i + 1..], Granted(values[..i + 1], errs[..i + 1]), out)
  {
    RetainNext(cf, rt, was[i..], values, errs, i, out);
    ReleaseFirst(cf, TryRetain(cf, rt, Live(values[i], cf.Flag(values[i])), errs[i]), was[i..],
                 Granted(values[..i + 1], errs[..i + 1]), out);
    assert was[i..][1..] == was[i + 1..] && was[i..][0] == was[i];
  }

  // A reference given up by the first element that still owns one.
  lemma ReleaseNext(cf: Config, rt: Rt, was: seq<Slot>, i: nat, out: Handle -> nat)
    requires i < |was| && Sound(cf, rt, was[i..]) && Accounted(cf, rt, was[i..], [], out)
    ensures was[i].Live?
    ensures var rt' := Cl2Wrapper.Release(cf, rt, was[i]);
            && rt' == ClWrapper.Destroy(cf, rt, was[i])
            && Sound(cf, rt', was[i + 1..]) && Accounted(cf, rt', was[i + 1..], [], out)
  {
    ReleaseFirst(cf, rt, was[i..], [], out);
    assert was[i..][1..] == was[i + 1..] && was[i..][0] == was[i];
  }

  // A vector filled from `values` of which only a part, ending before a counted handle, is paid
  // for owes for that handle.
  lemma OwesTheRest(cf: Config, rt: Rt, items: seq<Slot>, values: seq<Handle>, paid: nat, out: Handle -> nat)
    requires paid < |values| && cf.Counted(values[paid])
    requires (forall i :: 0 <= i < |items| ==> items[i].Live?) && Handles(items) == values
    requires Accounted(cf, rt, [], values[..paid], out)
    ensures !Accounted(cf, rt, items, [], out)
  {
    var h := values[paid];
    HoldersAreOccurrences(items, h);
    MultConcat(values[..paid], values[paid..], h);
    assert values == values[..paid] + values[paid..];
    assert rt.Count(h) == Mult(values[..paid], h) + out(h);
  }

  lemma PayNext(cf: Config, rt: Rt, items: seq<Slot>, values: seq<Handle>, i: nat, out: Handle -> nat)
    requires i < |values| == |items| && items[i] == Live(values[i], cf.Flag(values[i]))
    requires Sound(cf, rt, items) && Accounted(cf, rt, [], values[..i], out)
    requires cf.Counted(values[i]) ==> out(values[i]) >= 1
    ensures var rt' := if values[i] != NULL then ClWrapper.Retain(cf, rt, items[i]) else rt;
            Sound(cf, rt', items) && Accounted(cf, rt', [], values[..i + 1], out)
  {
    var rt' := if values[i] != NULL then ClWrapper.Retain(cf, rt, items[i]) else rt;
    assert rt' == Cl2Wrapper.Retain(cf, rt, items[i]);
    assert values[..i + 1] == values[..i] + [values[i]];
    forall h | cf.Counted(h) ensures rt'.Count(h) == Mult(values[..i + 1], h) + out(h) {
      Cl2Wrapper.RetainCounts(cf, rt, items[i], h);
      MultSnoc(values[..i], values[i], h);
    }
  }

  lemma ReleaseLast(cf: Config, rt: Rt, items: seq<Slot>, out: Handle -> nat)
    requires items != [] && Sound(cf, rt, items) && Accounted(cf, rt, items, [], out)
    ensures var n := |items| - 1;
            var rt' := Cl2Wrapper.Destroy(cf, rt, items[n]);
            Sound(cf, rt', items[..n]) && Accounted(cf, rt', items[..n], [], out)
  {
    var n := |items| - 1;
    var rt' := Cl2Wrapper.Destroy(cf, rt, items[n]);
    assert items == items[..n] + [items[n]];
    HoldersSnoc(items[..n], items[n], items[n].handle);
    forall h | cf.Counted(h)
      ensures rt'.Count(h) == Holders(items[..n], h) + out(h)
    {
      HoldersSnoc(items[..n], items[n], h);
      Cl2Wrapper.ReleaseCounts(cf, rt, items[n], h);
    }
  }

  lemma AppendEmpty(cf: Config, rt: Rt, items: seq<Slot>, out: Handle -> nat)
    requires Sound(cf, rt, items) && Accounted(cf, rt, items, [], out)
    ensures Sound(cf, rt, items + [EMPTY]) && Accounted(cf, rt, items + [EMPTY], [], out)
  {
    forall h | cf.Counted(h) ensures Holders(items + [EMPTY], h) == Holders(items, h) {
      HoldersSnoc(items, EMPTY, h);
    }
  }

  // A vector filled from `values` holds a reference's worth of each of them.
  lemma FilledHolds(cf: Config, items: seq<Slot>, values: seq<Handle>, h: Handle)
    requires Filled(cf, items, values)
    ensures Handles(items) == values && Holders(items, h) == Mult(values, h)
  {
    assert Handles(items) == values;
    HoldersAreOccurrences(items, h);
  }

  lemma FilledOwes(cf: Config, rt: Rt, items: seq<Slot>, values: seq<Handle>, out: Handle -> nat)
    requires Filled(cf, items, values)
    requires Sound(cf, rt, []) && Accounted(cf, rt, [], [], out)
    ensures Sound(cf, rt, items) && Handles(items) == values
    ensures forall h :: cf.Counted(h) ==> rt.Count(h) == out(h)
    ensures forall h :: cf.Counted(h) ==> rt.Count(h) + Mult(values, h) == Holders(items, h) + out(h)
  {
    assert Handles(items) == values;
    forall h | cf.Counted(h) ensures rt.Count(h) == out(h) && Mult(values, h) == Holders(items, h) {
      FilledHolds(cf, items, values, h);
    }
  }

  /** A filled vector that got the granted references is accounted for exactly when no retain that
      was asked for was refused. */
  lemma AccountedIffAllAnswered(cf: Config, rt: Rt, items: seq<Slot>, values: seq<Handle>, errs: seq<int>,
                                out: Handle -> nat)
    requires |values| == |errs| && Filled(cf, items, values) && Accounted(cf, rt, [], Granted(values, errs), out)
    ensures Accounted(cf, rt, items, [], out) <==> AllAnswered(cf, values, errs)
  {
    forall h | cf.Counted(h)
      ensures rt.Count(h) == Holders(items, h) + out(h) <==>
                forall i :: 0 <= i < |values| && values[i] == h ==> errs[i] == CL_SUCCESS
    {
      FilledHolds(cf, items, values, h);
      GrantedCount(values, errs, h);
    }
    if AllAnswered(cf, values, errs) {
      forall h | cf.Counted(h) ensures rt.Count(h) == Holders(items, h) + out(h) {
        assert forall i :: 0 <= i < |values| && values[i] == h ==> cf.Counted(values[i]);
      }
    }
  }

  /** A caller's vector of wrappers, together with the runtime its elements talk to. */
  class ObjectVector {
    const cf: Config
    var rt: Rt
    var items: seq<Slot>

    constructor (cf: Config, rt: Rt)
      ensures this.cf == cf && this.rt == rt && items == []
    {
      this.cf, this.rt, items := cf, rt, [];
    }

    // The elements are well-formed and every count is explained.
    ghost predicate Valid(out: Handle -> nat)
      reads this
    {
      Sound(cf, rt, items) && Accounted(cf, rt, items, [], out)
    }

    // Positions below `n` hold the values; the elements from `n` on are still those of `was`.
    ghost predicate Overwritten(values: seq<Handle>, was: seq<Slot>, n: nat)
      reads this
    {
      && n <= |items| == |was| && n <= |values|
      && (forall k :: 0 <= k < n ==> items[k] == Live(values[k], cf.Flag(values[k])))
      && (forall k :: n <= k < |was| ==> items[k] == was[k])
    }

    // Only the elements of `owners` and the rest of the program own references.
    ghost predicate OwnedBy(owners: seq<Slot>, out: Handle -> nat)
      reads this
    {
      Sound(cf, rt, owners) && Accounted(cf, rt, owners, [], out)
    }

    // `operator=(const cl_type&)` on one element.
    method RawAssignAt(i: nat, h: Handle, ghost was: seq<Slot>, ghost out: Handle -> nat)
      requires i < |items| == |was| && items[i] == was[i] && OwnedBy(was[i..], out)
      modifies this
      ensures items == old(items)[i := Live(h, cf.Flag(h))] && OwnedBy(was[i + 1..], out)
    {
      ReleaseNext(cf, rt, was, i, out);
      var (rt', s) := ClWrapper.RawAssign(cf, rt, items[i], h);
      rt := rt';
      items := items[i := s];
    }

    method DestroyAt(i: nat, ghost was: seq<Slot>, ghost out: Handle -> nat)
      requires i < |items| == |was| && items[i] == was[i] && OwnedBy(was[i..], out)
      modifies this`rt
      ensures OwnedBy(was[i + 1..], out)
    {
      ReleaseNext(cf, rt, was, i, out);
      rt := ClWrapper.Destroy(cf, rt, items[i]);
    }

    /** `std::vector::assign` from raw handles: common positions are assigned through
        `operator=(const cl_type&)`, further ones constructed, surplus ones destroyed. No element
        takes a reference, so afterwards the vector owes one for each handle it holds. */
    method AssignRaw(values: seq<Handle>, ghost out: Handle -> nat)
      requires Valid(out)
      modifies this
      ensures Sound(cf, rt, items) && Handles(items) == values
      ensures forall h :: cf.Counted(h) ==> rt.Count(h) == out(h)
      ensures forall h :: cf.Counted(h) ==> rt.Count(h) + Mult(values, h) == Holders(items, h) + out(h)
      ensures forall i :: 0 <= i < |items| ==> items[i] == Live(values[i], cf.Flag(values[i]))
    {
      ghost var was := items;
      var kept := OverwriteCommon(values, out);
      Trim(kept, was, out);
      Extend(values, kept);
      FilledOwes(cf, rt, items, values, out);
    }

    method OverwriteCommon(values: seq<Handle>, ghost out: Handle -> nat) returns (i: nat)
      requires OwnedBy(items, out)
      modifies this
      ensures i == |values| || i == |old(items)|
      ensures Overwritten(values, old(items), i) && OwnedBy(old(items)[i..], out)
    {
      ghost var was := items;
      i := 0;
      assert was[0..] == was;
      while i < |items| && i < |values|
        invariant Overwritten(values, was, i) && OwnedBy(was[i..], out)
      {
        RawAssignAt(i, values[i], was, out);
        i := i + 1;
      }
    }

    // Destroys the elements from position `kept` on.
    method Trim(kept: nat, ghost was: seq<Slot>, ghost out: Handle -> nat)
      requires kept <= |items| == |was| && OwnedBy(was[kept..], out)
      requires forall k :: kept <= k < |was| ==> items[k] == was[k]
      modifies this
      ensures items == old(items)[..kept] && OwnedBy([], out)
    {
      var i := kept;
      while i < |items|
        invariant kept <= i <= |items| && items == old(items) && OwnedBy(was[i..], out)
      {
        DestroyAt(i, was, out);
        i := i + 1;
      }
      assert was[i..] == [];
      items := items[..kept];
    }

    // Constructs elements from the values beyond position `kept`.
    method Extend(values: seq<Handle>, kept: nat)
      requires |items| == kept <= |values|
      requires forall k :: 0 <= k < kept ==> items[k] == Live(values[k], cf.Flag(values[k]))
      modifies this`items
      ensures Filled(cf, items, values)
    {
      while |items| < |values|
        invariant |items| <= |values|
        invariant forall k :: 0 <= k < |items| ==> items[k] == Live(values[k], cf.Flag(values[k]))
        decreases |values| - |items|
      {
        items := items + [ClWrapper.FromObject(cf, values[|items|])];
      }
    }

    /** `getInfoHelper` of cl.hpp: raw assignment first, then one retain per non-null element.
        `errs[i]` is what the runtime answers to the retain of element `i`. A failing query
        touches nothing. The vector's debt is paid in full exactly when no retain is refused;
        at the first refusal the rest of it stays owed. */
    method GetInfoCl(query: Query, errs: seq<int>, ghost out: Handle -> nat) returns (err: int, ghost paid: nat)
      requires Valid(out)
      requires query.Answers? ==> |errs| == |query.values|
      requires query.Answers? ==> forall h :: h in query.values && cf.Counted(h) ==> out(h) >= 1
      requires query.SizeFails? || query.DataFails? ==> query.err != CL_SUCCESS
      modifies this
      ensures !query.Answers? ==> err == query.err && rt == old(rt) && items == old(items)
      ensures query.Answers? ==>
                && Sound(cf, rt, items) && Handles(items) == query.values && paid <= |query.values|
                && (forall h :: cf.Counted(h) ==>
                      rt.Count(h) == old(rt.Count(h)) - Holders(old(items), h) + Mult(query.values[..paid], h))
                && (forall i :: 0 <= i < paid && cf.Counted(query.values[i]) ==> errs[i] == CL_SUCCESS)
                && (if err == CL_SUCCESS then paid == |query.values|
                    else paid < |query.values| && cf.Counted(query.values[paid]) && errs[paid] == err)
                && (err == CL_SUCCESS <==> AllAnswered(cf, query.values, errs))
                && (Valid(out) <==> AllAnswered(cf, query.values, errs))
    {
      match query
      case SizeFails(e) => return e, 0;
      case DataFails(e) => return e, 0;
      case Answers(values) =>
        AssignRaw(values, out);
        err, paid := RetainElements(values, errs, out);
        if err == CL_SUCCESS {
          assert values[..paid] == values;
          forall h | cf.Counted(h) ensures rt.Count(h) == Holders(items, h) + out(h) {
            HoldersAreOccurrences(items, h);
          }
        } else {
          OwesTheRest(cf, rt, items, values, paid, out);
        }
    }

    // The second half of cl.hpp's version: one retain per non-null element, up to a refusal.
    method RetainElements(values: seq<Handle>, errs: seq<int>, ghost out: Handle -> nat)
      returns (err: int, ghost paid: nat)
      requires |items| == |values| == |errs|
      requires forall i :: 0 <= i < |items| ==> items[i] == Live(values[i], cf.Flag(values[i]))
      requires Sound(cf, rt, items) && Accounted(cf, rt, [], [], out)
      requires forall h :: h in values && cf.Counted(h) ==> out(h) >= 1
      modifies this`rt
      ensures paid <= |values| && Sound(cf, rt, items) && Accounted(cf, rt, [], values[..paid], out)
      ensures forall i :: 0 <= i < paid && cf.Counted(values[i]) ==> errs[i] == CL_SUCCESS
      ensures if err == CL_SUCCESS then paid == |values|
              else paid < |values| && cf.Counted(values[paid]) && errs[paid] == err
    {
      paid := 0;
      err := CL_SUCCESS;
      for i := 0 to |values|
        invariant paid == i && err == CL_SUCCESS
        invariant PaidUpTo(values, i, out)
        invariant forall k :: 0 <= k < i && cf.Counted(values[k]) ==> errs[k] == CL_SUCCESS
      {
        if values[i] != NULL {
          err := RetainAt(values, i, errs[i], out);
          if err != CL_SUCCESS {
            return;
          }
        } else {
          PayNext(cf, rt, items, values, i, out);
        }
        paid := paid + 1;
      }
    }

    ghost predicate PaidUpTo(values: seq<Handle>, i: nat, out: Handle -> nat)
      requires i <= |values|
      reads this
    {
      Sound(cf, rt, items) && Accounted(cf, rt, [], values[..i], out)
    }

    // `(*param)[i].retain()`, which the runtime is asked for counted handles only.
    method RetainAt(values: seq<Handle>, i: nat, answer: int, ghost out: Handle -> nat) returns (err: int)
      requires i < |items| == |values| && items[i] == Live(values[i], cf.Flag(values[i])) && values[i] != NULL
      requires PaidUpTo(values, i, out) && (cf.Counted(values[i]) ==> out(values[i]) >= 1)
      modifies this`rt
      ensures err == if cf.Counted(values[i]) then answer else CL_SUCCESS
      ensures if err == CL_SUCCESS then PaidUpTo(values, i + 1, out) else rt == old(rt)
    {
      if (cf.kind.Plain? || items[i].countable) && answer != CL_SUCCESS {
        return answer;
      }
      PayNext(cf, rt, items, values, i, out);
      rt := ClWrapper.Retain(cf, rt, items[i]);
      return CL_SUCCESS;
    }

    /** cl2's `resize(n)`: surplus elements are destroyed, missing ones default-constructed. */
    method Resize(n: nat, ghost out: Handle -> nat)
      requires Valid(out)
      modifies this
      ensures Valid(out) && |items| == n
      ensures items == if n <= |old(items)| then old(items)[..n]
                       else old(items) + seq(n - |old(items)|, _ => EMPTY)
    {
      while |items| > n
        invariant Valid(out) && |items| <= |old(items)| && items == old(items)[..|items|]
        invariant |items| >= n || items == old(items)
        decreases |items|
      {
        var last := items[|items| - 1];
        ReleaseLast(cf, rt, items, out);
        rt := Cl2Wrapper.Destroy(cf, rt, last);
        items := items[..|items| - 1];
      }
      while |items| < n
        invariant Valid(out) && |items| <= n && (|old(items)| > n ==> |items| == n)
        invariant |old(items)| > n ==> items == old(items)[..n]
        invariant |old(items)| <= n ==>
                    && |old(items)| <= |items|
                    && items == old(items) + seq(|items| - |old(items)|, _ => EMPTY)
      {
        AppendEmpty(cf, rt, items, out);
        items := items + [EMPTY];
      }
    }

    // `(*param)[i] = T(value, retainObject)`: the temporary is constructed, the element gives up
    // what it held, and the emptied temporary is destroyed.
    method AssignTemporary(i: nat, value: Handle, retainObject: bool, err: int)
      requires i < |items| && items[i].Live?
      modifies this
      ensures items == old(items)[i := Live(value, cf.Flag(value))]
      ensures var rt1 := if retainObject then TryRetain(cf, old(rt), Live(value, cf.Flag(value)), err) else old(rt);
              rt == Cl2Wrapper.Release(cf, rt1, old(items)[i])
    {
      var temporary := Live(value, cf.Flag(value));
      if retainObject {
        rt := TryRetain(cf, rt, temporary, err);
      }
      var (rt', s) := Cl2Wrapper.MoveAssign(cf, rt, items[i], temporary);
      items := items[i := s];
      temporary := EMPTY;
      rt := Cl2Wrapper.Destroy(cf, rt', temporary);
    }

    /** `getInfoHelper` of cl2.hpp: every element is retained before it enters the vector, so
        at no point does the vector owe more than the retains the runtime refused. This version does
        not report a refusal: it returns CL_SUCCESS, with a vector that is sound exactly when no
        retain asked for was refused. */
    method GetInfoCl2(query: Query, errs: seq<int>, ghost out: Handle -> nat) returns (err: int)
      requires Valid(out)
      requires query.Answers? ==> |errs| == |query.values|
      requires query.Answers? ==> forall h :: h in query.values && cf.Counted(h) ==> out(h) >= 1
      requires query.SizeFails? || query.DataFails? ==> query.err != CL_SUCCESS
      modifies this
      ensures !query.Answers? ==> err == query.err && rt == old(rt) && items == old(items)
      ensures query.Answers? ==>
                && err == CL_SUCCESS
                && Sound(cf, rt, items) && Handles(items) == query.values
                && (forall h :: cf.Counted(h) ==>
                      rt.Count(h) == old(rt.Count(h)) - Holders(old(items), h) + Mult(Granted(query.values, errs), h))
                && (Valid(out) <==> AllAnswered(cf, query.values, errs))
    {
      match query
      case SizeFails(e) => return e;
      case DataFails(e) => return e;
      case Answers(values) =>
        Resize(|values|, out);
        ReplaceAll(values, errs, out);
        err := CL_SUCCESS;
        AccountedIffAllAnswered(cf, rt, items, values, errs, out);
        assert Handles(items) == values;
    }

    // cl2's loop over the resized vector.
    method ReplaceAll(values: seq<Handle>, errs: seq<int>, ghost out: Handle -> nat)
      requires |items| == |values| == |errs| && OwnedBy(items, out)
      requires forall h :: h in values && cf.Counted(h) ==> out(h) >= 1
      modifies this
      ensures Filled(cf, items, values)
      ensures Sound(cf, rt, items) && Accounted(cf, rt, [], Granted(values, errs), out)
    {
      ghost var was := items;
      assert was[0..] == was;
      for i := 0 to |values|
        invariant Overwritten(values, was, i)
        invariant Sound(cf, rt, was[i..]) && Accounted(cf, rt, was[i..], Granted(values[..i], errs[..i]), out)
      {
        ReplaceNext(cf, rt, was, values, errs, i, out);
        AssignTemporary(i, values[i], true, errs[i]);
      }
      assert values[..|values|] == values && errs[..|errs|] == errs && was[|values|..] == [];
    }

    /** cl2's `createKernels`: the runtime hands over one reference per kernel (`given`), and the
        vector takes exactly those. Whether it grows or shrinks, every previous element is
        released once and nothing is retained. */
    method CreateKernels(query: Query, ghost given: Handle -> nat) returns (err: int, ghost out: Handle -> nat)
      requires Valid(given)
      requires query.Answers? ==> forall h :: cf.Counted(h) ==> given(h) >= Mult(query.values, h)
      requires query.SizeFails? || query.DataFails? ==> query.err != CL_SUCCESS
      modifies this
      ensures !query.Answers? ==> err == query.err && rt == old(rt) && items == old(items)
      ensures query.Answers? ==>
                && err == CL_SUCCESS && Valid(out) && Handles(items) == query.values
                && (forall h :: cf.Counted(h) ==> out(h) == given(h) - Mult(query.values, h))
                && (forall h :: cf.Counted(h) ==> rt.Count(h) == old(rt.Count(h)) - Holders(old(items), h))
    {
      out := given;
      match query
      case SizeFails(e) => err := e;
      case DataFails(e) => err := e;
      case Answers(values) =>
        Resize(|values|, given);
        ghost var was := items;
        for i := 0 to |values|
          invariant |items| == |was| == |values|
          invariant forall k :: i <= k < |was| ==> items[k] == was[k]
          invariant forall k :: 0 <= k < i ==> items[k] == Live(values[k], cf.Flag(values[k]))
          invariant Sound(cf, rt, was[i..]) && Accounted(cf, rt, was[i..], [], given)
        {
          ReleaseNext(cf, rt, was, i, given);
          assert items[i] == was[i];
          AssignTemporary(i, values[i], false, CL_SUCCESS);
        }
        err := CL_SUCCESS;
        assert Handles(items) == values;
        out := h => if cf.Counted(h) && given(h) >= Mult(values, h) then given(h) - Mult(values, h) else 0;
        forall h | cf.Counted(h) ensures rt.Count(h) == Holders(items, h) + out(h) {
          HoldersAreOccurrences(items, h);
        }
    }
  }

  // A plain handle that exists once, outside any wrapper.
  const PLAIN := Config(Plain, _ => false)
  const ONE_OUTSIDE: Handle -> nat := h => if h == 7 then 1 else 0

  /** One refused retain: cl2's version reports success and leaves a vector that owes a reference,
      so that destroying it would release one it never took. */
  method RefusalIsSwallowed(refusal: int) returns (v: ObjectVector, err: int)
    requires refusal != CL_SUCCESS
    ensures Sound(v.cf, v.rt, v.items)
    ensures err == CL_SUCCESS && Handles(v.items) == [7] && v.rt.Count(7) == 1
    ensures !v.Valid(ONE_OUTSIDE)
  {
    v := new ObjectVector(PLAIN, Rt(map[7 := 1], [], false));
    err := v.GetInfoCl2(Answers([7]), [refusal], ONE_OUTSIDE);
    assert !AllAnswered(PLAIN, [7], [refusal]) by { assert [7][0] == 7 && [refusal][0] == refusal; }
    assert Granted([7], [refusal]) == Granted([7][..0], [refusal][..0]) + [];
  }

  /** cl.hpp's version reports it, and leaves the same vector. */
  method RefusalIsReported(refusal: int) returns (v: ObjectVector, err: int)
    requires refusal != CL_SUCCESS
    ensures Sound(v.cf, v.rt, v.items)
    ensures err == refusal && Handles(v.items) == [7] && v.rt.Count(7) == 1
    ensures !v.Valid(ONE_OUTSIDE)
  {
    v := new ObjectVector(PLAIN, Rt(map[7 := 1], [], false));
    ghost var paid;
    err, paid := v.GetInfoCl(Answers([7]), [refusal], ONE_OUTSIDE);
    assert !AllAnswered(PLAIN, [7], [refusal]) by { assert [7][0] == 7 && [refusal][0] == refusal; }
    assert [7][..0] == [];
  }
}
