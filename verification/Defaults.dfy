/**
 The default platform, device, context and queue of cl2.hpp: `getDefault` and `setDefault`
 guarded by one `std::call_once` per class, with initialisers that call each other.
 */
module Defaults {
  import opened Common

  const CL_INVALID_PLATFORM := -32

  datatype Class = Platform | Context | Device | Queue

  /** `default_` and `default_error_`. */
  datatype Default = Default(value: int, error: int)

  /** The classes whose once-flag is spent, with their defaults. */
  type State = map<Class, Default>

  datatype PlatformAnswer = CountFails(err: int) | NonePresent | ListFails(err: int) | Ids(first: int)

  /** What the OpenCL runtime answers to the initialisers, each of which runs at most once. */
  datatype Env = Env(
    platforms: PlatformAnswer,
    createContext: int -> Default,        // from a platform, possibly NULL
    firstDevice: int -> int,              // of a context
    createQueue: (int, int) -> Default)   // from a context and a device

  // Who may call whom: an initialiser only calls getDefault of classes of lower rank.
  function Rank(c: Class): nat {
    match c
    case Platform => 0
    case Context => 1
    case Device => 2
    case Queue => 3
  }

  function MakePlatform(env: Env): Default {
    match env.platforms
    case CountFails(e) => Default(NULL, e)
    case NonePresent => Default(NULL, CL_INVALID_PLATFORM)
    case ListFails(e) => Default(NULL, e)
    case Ids(first) => Default(first, CL_SUCCESS)
  }

  /** The state once `c` is initialised: unchanged if it was, otherwise `c`'s initialiser has
      run, and so have the initialisers it called. */
  function Touch(env: Env, s: State, c: Class): (s': State)
    ensures c in s'
    decreases Rank(c)
  {
    if c in s then s
    else
      match c
      case Platform => s[Platform := MakePlatform(env)]
      case Context =>
        var s1 := Touch(env, s, Platform);
        s1[Context := env.createContext(s1[Platform].value)]
      case Device =>
        var s1 := Touch(env, s, Context);
        if s1[Context].error != CL_SUCCESS then s1[Device := Default(NULL, s1[Context].error)]
        else s1[Device := Default(env.firstDevice(s1[Context].value), CL_SUCCESS)]
      case Queue =>
        var s1 := Touch(env, s, Context);
        if s1[Context].error != CL_SUCCESS then s1[Queue := Default(NULL, s1[Context].error)]
        else
          var s2 := Touch(env, s1, Device);
          s2[Queue := env.createQueue(s2[Context].value, s2[Device].value)]
  }

  datatype Call = Get(c: Class) | Set(c: Class, value: int)

  function Step(env: Env, s: State, call: Call): (s': State)
    ensures call.c in s'
  {
    match call
    case Get(c) => Touch(env, s, c)
    case Set(c, v) => if c in s then s else s[c := Default(v, CL_SUCCESS)]
  }

  function Run(env: Env, s: State, calls: seq<Call>): State {
    if calls == [] then s else Step(env, Run(env, s, calls[..|calls| - 1]), calls[|calls| - 1])
  }

  /** What the `k`-th call of a run returns: the default and, from `getDefault`, its error. */
  function Report(env: Env, calls: seq<Call>, k: nat): Default
    requires k < |calls|
  {
    Step(env, Run(env, map[], calls[..k]), calls[k])[calls[k].c]
  }

  // --------------------------------------------------------- first call wins

  lemma {:induction false} TouchKeeps(env: Env, s: State, c: Class)
    ensures forall d :: d in s ==> d in Touch(env, s, c) && Touch(env, s, c)[d] == s[d]
    ensures forall d :: d in Touch(env, s, c) && Rank(d) > Rank(c) ==> d in s
    decreases Rank(c)
  {
    if c !in s {
      match c
      case Platform =>
      case Context => TouchKeeps(env, s, Platform);
      case Device => TouchKeeps(env, s, Context);
      case Queue =>
        TouchKeeps(env, s, Context);
        TouchKeeps(env, Touch(env, s, Context), Device);
    }
  }

  /** A class's default never changes once it has one. */
  lemma {:induction false} RunKeeps(env: Env, s: State, calls: seq<Call>)
    ensures forall d :: d in s ==> d in Run(env, s, calls) && Run(env, s, calls)[d] == s[d]
  {
    if calls != [] {
      RunKeeps(env, s, calls[..|calls| - 1]);
      var last := calls[|calls| - 1];
      if last.Get? {
        TouchKeeps(env, Run(env, s, calls[..|calls| - 1]), last.c);
      }
    }
  }

  lemma {:induction false} RunConcat(env: Env, s: State, xs: seq<Call>, ys: seq<Call>)
    ensures Run(env, s, xs + ys) == Run(env, Run(env, s, xs), ys)
  {
    if ys == [] {
      assert xs + ys == xs;
    } else {
      RunConcat(env, s, xs, ys[..|ys| - 1]);
      assert (xs + ys)[..|xs + ys| - 1] == xs + ys[..|ys| - 1];
    }
  }

  lemma ReportIsFinal(env: Env, calls: seq<Call>, k: nat)
    requires k < |calls|
    ensures calls[k].c in Run(env, map[], calls) && Run(env, map[], calls)[calls[k].c] == Report(env, calls, k)
  {
    assert calls == calls[..k + 1] + calls[k + 1..];
    RunConcat(env, map[], calls[..k + 1], calls[k + 1..]);
    assert calls[..k + 1][..k] == calls[..k];
    RunKeeps(env, Run(env, map[], calls[..k + 1]), calls[k + 1..]);
  }

  /** Any two calls on one class in any run report the same default and the same error. */
  lemma ReportsAgree(env: Env, calls: seq<Call>, j: nat, k: nat)
    requires j < |calls| && k < |calls| && calls[j].c == calls[k].c
    ensures Report(env, calls, j) == Report(env, calls, k)
  {
    ReportIsFinal(env, calls, j);
    ReportIsFinal(env, calls, k);
  }

  // ------------------------------------- what a built default is built from

  /** The equation a built default satisfies, in terms of the defaults in force. */
  predicate Built(env: Env, s: State, c: Class)
    requires c in s
  {
    match c
    case Platform =>
      if env.platforms.Ids? then s[c] == Default(env.platforms.first, CL_SUCCESS)
      else s[c] == Default(NULL, if env.platforms.NonePresent? then -32 else env.platforms.err)
    case Context => Platform in s && s[c] == env.createContext(s[Platform].value)
    case Device =>
      && Context in s
      && s[c] == if s[Context].error != CL_SUCCESS then Default(NULL, s[Context].error)
                 else Default(env.firstDevice(s[Context].value), CL_SUCCESS)
    case Queue =>
      && Context in s
      && if s[Context].error != CL_SUCCESS then s[c] == Default(NULL, s[Context].error)
         else Device in s && s[c] == env.createQueue(s[Context].value, s[Device].value)
  }

  /** Every default was either provided, error-free, by the user or built from those in force. */
  ghost predicate WellFounded(env: Env, s: State, provided: map<Class, int>) {
    forall c :: c in s ==> if c in provided then s[c] == Default(provided[c], CL_SUCCESS) else Built(env, s, c)
  }

  // A default built from those in force joins them; nothing was built from it before.
  lemma ExtendWellFounded(env: Env, s: State, provided: map<Class, int>, c: Class, d: Default)
    requires WellFounded(env, s, provided) && provided.Keys <= s.Keys
    requires c !in s && Built(env, s[c := d], c)
    ensures WellFounded(env, s[c := d], provided) && provided.Keys <= s[c := d].Keys
  {
  }

  lemma {:induction false} TouchIsWellFounded(env: Env, s: State, provided: map<Class, int>, c: Class)
    requires WellFounded(env, s, provided) && provided.Keys <= s.Keys
    ensures WellFounded(env, Touch(env, s, c), provided)
    ensures provided.Keys <= Touch(env, s, c).Keys
    decreases Rank(c)
  {
    if c !in s {
      var s' := Touch(env, s, c);
      match c
      case Platform =>
        ExtendWellFounded(env, s, provided, c, s'[c]);
      case Context =>
        TouchKeeps(env, s, Platform);
        TouchIsWellFounded(env, s, provided, Platform);
        ExtendWellFounded(env, Touch(env, s, Platform), provided, c, s'[c]);
      case Device =>
        TouchKeeps(env, s, Context);
        TouchIsWellFounded(env, s, provided, Context);
        ExtendWellFounded(env, Touch(env, s, Context), provided, c, s'[c]);
      case Queue =>
        TouchKeeps(env, s, Context);
        TouchIsWellFounded(env, s, provided, Context);
        var s1 := Touch(env, s, Context);
        if s1[Context].error != CL_SUCCESS {
          ExtendWellFounded(env, s1, provided, c, s'[c]);
        } else {
          TouchKeeps(env, s1, Device);
          TouchIsWellFounded(env, s1, provided, Device);
          ExtendWellFounded(env, Touch(env, s1, Device), provided, c, s'[c]);
        }
    }
  }

  /** The classes whose first call was a `setDefault`, with the value given. */
  function Provided(env: Env, calls: seq<Call>): map<Class, int> {
    if calls == [] then map[]
    else
      var front, last := calls[..|calls| - 1], calls[|calls| - 1];
      var p := Provided(env, front);
      if last.Set? && last.c !in Run(env, map[], front) then p[last.c := last.value] else p
  }

  // A class that is set later was not yet used to build another.
  lemma {:induction false} RunIsWellFounded(env: Env, calls: seq<Call>)
    ensures var s := Run(env, map[], calls);
            WellFounded(env, s, Provided(env, calls)) && Provided(env, calls).Keys <= s.Keys
  {
    if calls != [] {
      var front, last := calls[..|calls| - 1], calls[|calls| - 1];
      RunIsWellFounded(env, front);
      var s := Run(env, map[], front);
      if last.Get? {
        TouchIsWellFounded(env, s, Provided(env, front), last.c);
      }
    }
  }

  /** The platform default nobody provided is what the runtime answers: the first platform it lists,
      without error, or else NULL with the error of the query that failed, or with
      CL_INVALID_PLATFORM when there is none. It has no error if and only if one is listed. */
  lemma {:induction false} PlatformIsFirstListed(env: Env, calls: seq<Call>)
    requires Platform in Run(env, map[], calls) && Platform !in Provided(env, calls)
    requires env.platforms.CountFails? || env.platforms.ListFails? ==> env.platforms.err != CL_SUCCESS
    ensures var d := Run(env, map[], calls)[Platform];
            && (d.error == CL_SUCCESS <==> env.platforms.Ids?)
            && d.value == (if env.platforms.Ids? then env.platforms.first else NULL)
            && (env.platforms.CountFails? || env.platforms.ListFails? ==> d.error == env.platforms.err)
            && (env.platforms.NonePresent? ==> d.error == -32)
  {
    RunIsWellFounded(env, calls);
  }

  /** A failed context default is the error of every device or queue default built after it: a
      class that was not provided by the user reports NULL and the context's error. */
  lemma {:induction false} ContextErrorSpreads(env: Env, calls: seq<Call>, c: Class)
    requires c.Device? || c.Queue?
    requires c in Run(env, map[], calls) && c !in Provided(env, calls)
    ensures var s := Run(env, map[], calls);
            Context in s && (s[Context].error != CL_SUCCESS ==> s[c] == Default(NULL, s[Context].error))
  {
    RunIsWellFounded(env, calls);
  }

  /** The defaults depend only on what the user provided before it was built: two runs in which
      the same values were provided agree on every class they both initialised, whatever the
      order and number of their calls. */
  lemma {:induction false} OrderDoesNotMatter(env: Env, xs: seq<Call>, ys: seq<Call>, c: Class)
    requires Provided(env, xs) == Provided(env, ys)
    requires c in Run(env, map[], xs) && c in Run(env, map[], ys)
    ensures Run(env, map[], xs)[c] == Run(env, map[], ys)[c]
    decreases Rank(c)
  {
    RunIsWellFounded(env, xs);
    RunIsWellFounded(env, ys);
    if c !in Provided(env, xs) {
      match c
      case Platform =>
      case Context => OrderDoesNotMatter(env, xs, ys, Platform);
      case Device => OrderDoesNotMatter(env, xs, ys, Context);
      case Queue =>
        OrderDoesNotMatter(env, xs, ys, Context);
        if Run(env, map[], xs)[Context].error == CL_SUCCESS {
          OrderDoesNotMatter(env, xs, ys, Device);
        }
    }
  }

  // ----------------------------------------- when a default is initialised

  predicate Named(calls: seq<Call>, c: Class) {
    exists j :: 0 <= j < |calls| && calls[j].c == c
  }

  predicate SetIn(calls: seq<Call>, c: Class) {
    exists j :: 0 <= j < |calls| && calls[j].c == c && calls[j].Set?
  }

  // The first call that names the class of call `j` is call `j` itself, and a `getDefault`.
  predicate FirstGet(calls: seq<Call>, j: nat) {
    j < |calls| && calls[j].Get? && !Named(calls[..j], calls[j].c)
  }

  predicate FirstCallGets(calls: seq<Call>, c: Class) {
    exists j :: 0 <= j < |calls| && calls[j].c == c && FirstGet(calls, j)
  }

  // A `getDefault` of the context, or one whose chain passes through it, before any context is set.
  predicate OpensPlatform(calls: seq<Call>) {
    exists j :: 0 <= j < |calls| && calls[j].c != Platform && FirstGet(calls, j) && !SetIn(calls[..j], Context)
  }

  function ContextError(env: Env, calls: seq<Call>): int {
    if Context in Run(env, map[], calls) then Run(env, map[], calls)[Context].error else CL_SUCCESS
  }

  /** When a class gets its default, read off the calls: some call names it, or the chain of a
      `getDefault` reaches it. A queue's chain reaches the context, and the device unless the
      context failed; a device's chain reaches the context; and all three reach the platform
      unless a context had been set before. */
  predicate Reached(env: Env, calls: seq<Call>, c: Class) {
    || Named(calls, c)
    || match c
       case Queue => false
       case Device => FirstCallGets(calls, Queue) && ContextError(env, calls) == CL_SUCCESS
       case Context => FirstCallGets(calls, Device) || FirstCallGets(calls, Queue)
       case Platform => OpensPlatform(calls)
  }

  lemma CallsSnoc(front: seq<Call>, last: Call, c: Class)
    ensures Named(front + [last], c) <==> Named(front, c) || last.c == c
    ensures SetIn(front + [last], c) <==> SetIn(front, c) || (last.c == c && last.Set?)
    ensures FirstCallGets(front + [last], c) <==> FirstCallGets(front, c) || (last == Get(c) && !Named(front, c))
    ensures OpensPlatform(front + [last]) <==>
              || OpensPlatform(front)
              || (last.Get? && last.c != Platform && !Named(front, last.c) && !SetIn(front, Context))
  {
    var calls := front + [last];
    var n := |front|;
    assert calls[n] == last && calls[..n] == front;
    assert forall j :: 0 <= j < n ==> calls[j] == front[j];
    forall j | 0 <= j < n ensures FirstGet(calls, j) <==> FirstGet(front, j) {
      assert calls[..j] == front[..j];
    }
    forall j | 0 <= j < n ensures SetIn(calls[..j], Context) <==> SetIn(front[..j], Context) {
      assert calls[..j] == front[..j];
    }
  }

  lemma {:induction false} ProvidedWasSet(env: Env, calls: seq<Call>, c: Class)
    requires c in Provided(env, calls)
    ensures SetIn(calls, c)
  {
    var front, last := calls[..|calls| - 1], calls[|calls| - 1];
    assert calls == front + [last];
    CallsSnoc(front, last, c);
    if c in Provided(env, front) {
      ProvidedWasSet(env, front, c);
    }
  }

  // A default in force that nobody set has those it is built from in force too.
  lemma BuiltHasParents(env: Env, calls: seq<Call>, c: Class)
    requires c in Run(env, map[], calls) && !SetIn(calls, c)
    ensures c.Context? ==> Platform in Run(env, map[], calls)
    ensures c.Device? ==> Context in Run(env, map[], calls)
  {
    RunIsWellFounded(env, calls);
    if c in Provided(env, calls) {
      ProvidedWasSet(env, calls, c);
    }
  }

  // The classes one more `getDefault` initialises.
  lemma TouchDomain(env: Env, s: State, c: Class, d: Class)
    ensures d in Touch(env, s, c) <==>
              || d in s || d == c
              || (c !in s && d == Context && (c.Device? || c.Queue?))
              || (c !in s && d == Platform && (c.Context? || ((c.Device? || c.Queue?) && Context !in s)))
              || (c !in s && d == Device && c.Queue? && Touch(env, s, Context)[Context].error == CL_SUCCESS)
  {
    TouchKeeps(env, s, Context);
  }

  lemma ReachedAfterSet(env: Env, front: seq<Call>, last: Call, c: Class)
    requires last.Set?
    requires forall d :: d in Run(env, map[], front) <==> Reached(env, front, d)
    ensures c in Run(env, map[], front + [last]) <==> Reached(env, front + [last], c)
  {
    assert (front + [last])[..|front|] == front;
    CallsSnoc(front, last, c);
    CallsSnoc(front, last, Queue);
    CallsSnoc(front, last, Device);
    assert FirstCallGets(front, Queue) ==> Reached(env, front, Context);
  }

  lemma ReachedAfterGet(env: Env, front: seq<Call>, e: Class, c: Class)
    requires forall d :: d in Run(env, map[], front) <==> Reached(env, front, d)
    ensures c in Run(env, map[], front + [Get(e)]) <==> Reached(env, front + [Get(e)], c)
  {
    var s, calls := Run(env, map[], front), front + [Get(e)];
    assert calls[..|front|] == front;
    assert Run(env, map[], calls) == Touch(env, s, e);
    TouchDomain(env, s, e, c);
    TouchKeeps(env, s, e);
    CallsSnoc(front, Get(e), c);
    CallsSnoc(front, Get(e), Queue);
    CallsSnoc(front, Get(e), Device);
    assert forall d :: Named(front, d) ==> d in s;
    assert forall d :: SetIn(front, d) ==> Named(front, d);
    assert FirstCallGets(front, Queue) ==> Reached(env, front, Context);
    match c
    case Queue =>
    case Device => ReachedDevice(env, front, e);
    case Context =>
      if Device in s && !Named(front, Device) { BuiltHasParents(env, front, Device); }
    case Platform =>
      if Context in s && !SetIn(front, Context) { BuiltHasParents(env, front, Context); }
      if Device in s && !SetIn(front, Device) { BuiltHasParents(env, front, Device); }
  }

  lemma ReachedDevice(env: Env, front: seq<Call>, e: Class)
    requires forall d :: d in Run(env, map[], front) <==> Reached(env, front, d)
    ensures Device in Run(env, map[], front + [Get(e)]) <==> Reached(env, front + [Get(e)], Device)
  {
    var s, calls := Run(env, map[], front), front + [Get(e)];
    assert calls[..|front|] == front;
    CallsSnoc(front, Get(e), Device);
    CallsSnoc(front, Get(e), Queue);
    TouchDomain(env, s, e, Device);
    TouchKeeps(env, s, e);
    assert FirstCallGets(front, Queue) ==> Reached(env, front, Context);
    assert Queue in s <==> Reached(env, front, Queue);
    if e == Queue && Queue !in s {
      TouchKeeps(env, Touch(env, s, Context), Device);
      assert Touch(env, s, Queue)[Context] == Touch(env, s, Context)[Context];
    }
  }

  /** A class has its default after a run exactly when one of the run's calls reached it. */
  lemma {:induction false} InitialisedIffReached(env: Env, calls: seq<Call>, c: Class)
    ensures c in Run(env, map[], calls) <==> Reached(env, calls, c)
  {
    if calls != [] {
      var front, last := calls[..|calls| - 1], calls[|calls| - 1];
      assert calls == front + [last];
      forall d ensures d in Run(env, map[], front) <==> Reached(env, front, d) {
        InitialisedIffReached(env, front, d);
      }
      if last.Set? {
        ReachedAfterSet(env, front, last, c);
      } else {
        ReachedAfterGet(env, front, last.c, c);
      }
    }
  }

  /** `setDefault` decides the default of the whole rest of the run exactly when no earlier call
      reached its class; otherwise what was there stays. */
  lemma SetWinsIffFirst(env: Env, calls: seq<Call>, k: nat)
    requires k < |calls| && calls[k].Set?
    ensures var c := calls[k].c;
            && c in Run(env, map[], calls)
            && (!Reached(env, calls[..k], c) ==> Run(env, map[], calls)[c] == Default(calls[k].value, CL_SUCCESS))
            && (Reached(env, calls[..k], c) ==>
                  c in Run(env, map[], calls[..k]) && Run(env, map[], calls)[c] == Run(env, map[], calls[..k])[c])
  {
    ReportIsFinal(env, calls, k);
    InitialisedIffReached(env, calls[..k], calls[k].c);
  }

  // ------------------------------------------------------ the static members

  /** The four classes' static members, updated in place; a class absent from `values` or
      `errors` still has its first value, NULL or CL_SUCCESS. */
  class Statics {
    const env: Env
    var spent: set<Class>           // the once-flags
    var values: map<Class, int>     // default_
    var errors: map<Class, int>     // default_error_

    ghost predicate Valid()
      reads this
    {
      values.Keys <= spent && errors.Keys <= spent
    }

    function Value(c: Class): int
      reads this
    {
      if c in values then values[c] else NULL
    }

    function Error(c: Class): int
      reads this
    {
      if c in errors then errors[c] else CL_SUCCESS
    }

    ghost function Now(): State
      reads this
    {
      map c | c in spent :: Default(Value(c), Error(c))
    }

    constructor (env: Env)
      ensures Valid() && Now() == map[] && this.env == env
    {
      this.env := env;
      spent, values, errors := {}, map[], map[];
    }

    method GetDefault(c: Class) returns (value: int, err: int)
      requires Valid()
      modifies this
      ensures Valid() && Now() == Step(env, old(Now()), Get(c))
      ensures Default(value, err) == Now()[c]
      decreases Rank(c), 1
    {
      if c !in spent {
        match c
        case Platform => MakePlatformDefault();
        case Context => MakeContextDefault();
        case Device => MakeDeviceDefault();
        case Queue => MakeQueueDefault();
      }
      return Value(c), Error(c);
    }

    method SetDefault(c: Class, provided: int) returns (value: int)
      requires Valid()
      modifies this
      ensures Valid() && Now() == Step(env, old(Now()), Set(c, provided))
      ensures value == Now()[c].value
    {
      if c !in spent {
        values := values[c := provided];
        spent := spent + {c};
      }
      return Value(c);
    }

    // The end of an initialiser: its assignments, and the once-flag `call_once` then spends.
    method Conclude(c: Class, value: int, err: int)
      requires Valid() && c !in spent
      modifies this
      ensures Valid() && Now() == old(Now())[c := Default(value, err)]
    {
      values, errors := values[c := value], errors[c := err];
      spent := spent + {c};
    }

    method MakePlatformDefault()
      requires Valid() && Platform !in spent
      modifies this
      ensures Valid() && Now() == Touch(env, old(Now()), Platform)
      decreases Rank(Platform), 0
    {
      match env.platforms
      case CountFails(e) => Conclude(Platform, Value(Platform), e);
      case NonePresent => Conclude(Platform, Value(Platform), CL_INVALID_PLATFORM);
      case ListFails(e) => Conclude(Platform, Value(Platform), e);
      case Ids(first) => Conclude(Platform, first, Error(Platform));
    }

    // The platform's error is not looked at: a NULL platform goes to the runtime.
    method MakeContextDefault()
      requires Valid() && Context !in spent
      modifies this
      ensures Valid() && Now() == Touch(env, old(Now()), Context)
      decreases Rank(Context), 0
    {
      TouchKeeps(env, Now(), Platform);
      var platform, _ := GetDefault(Platform);
      var made := env.createContext(platform);
      Conclude(Context, made.value, made.error);
    }

    method MakeDeviceDefault()
      requires Valid() && Device !in spent
      modifies this
      ensures Valid() && Now() == Touch(env, old(Now()), Device)
      decreases Rank(Device), 0
    {
      TouchKeeps(env, Now(), Context);
      var context, e := GetDefault(Context);
      if e != CL_SUCCESS {
        Conclude(Device, Value(Device), e);
      } else {
        Conclude(Device, env.firstDevice(context), CL_SUCCESS);
      }
    }

    method MakeQueueDefault()
      requires Valid() && Queue !in spent
      modifies this
      ensures Valid() && Now() == Touch(env, old(Now()), Queue)
      decreases Rank(Queue), 0
    {
      TouchKeeps(env, Now(), Context);
      var context, e := GetDefault(Context);
      if e != CL_SUCCESS {
        Conclude(Queue, Value(Queue), e);
      } else {
        TouchKeeps(env, Now(), Device);
        var device, _ := GetDefault(Device);
        var made := env.createQueue(context, device);
        Conclude(Queue, made.value, made.error);
      }
    }
  }
}
