/**
 What every run of the initialisation protocol guarantees, and when it does.
 */
module OnceSafety {
  import opened Common
  import opened OnceInit

  ghost function At(scripts: seq<seq<Call>>, choices: seq<Choice>): State {
    Run(Launch(scripts), choices)
  }

  // How a flag may differ one step later.
  predicate FlagStep(flag: int, flag': int) {
    || flag' == flag
    || (flag == NOT_INITIALIZED && flag' == BEING_INITIALIZED)
    || (flag == BEING_INITIALIZED && flag' == INITIALIZED)
  }

  /** Any two returns for the same default agree, whichever threads and calls they belong to;
      both were made after `default_` and `default_error_` held the outcome of the only
      construction, and they carry an error exactly when the caller passed a pointer. */
  lemma AllReturnsAgree(scripts: seq<seq<Call>>, choices: seq<Choice>, i: nat, k: nat, j: nat, l: nat)
    requires var s := At(scripts, choices);
             i < |s.threads| && j < |s.threads| && k < |s.threads[i].log| && l < |s.threads[j].log|
             && s.threads[i].log[k].call.target == s.threads[j].log[l].call.target
    ensures var s := At(scripts, choices);
            var a, b := s.threads[i].log[k], s.threads[j].log[l];
            && a.value == b.value
            && (a.error.Some? <==> a.call.wantError)
            && (a.error.Some? && b.error.Some? ==> a.error == b.error)
            && CellOf(s, a.call.target).entered == 1
            && CellOf(s, a.call.target).built ==
                 Some(Outcome(a.value, if a.error.Some? then a.error.value else CellOf(s, a.call.target).error))
  {
    Reachable(scripts, choices);
    var s := At(scripts, choices);
    assert ThreadOk(s, s.threads[i], scripts[i]) && ThreadOk(s, s.threads[j], scripts[j]);
    assert Reports(s, s.threads[i].log[k]) && Reports(s, s.threads[j].log[l]);
  }

  /** Construction of each default is entered at most once in any run, and each flag moves
      only from NOT_INITIALIZED to BEING_INITIALIZED to INITIALIZED. */
  lemma OneConstruction(scripts: seq<seq<Call>>, choices: seq<Choice>, next: Choice)
    ensures var s, s' := At(scripts, choices), At(scripts, choices + [next]);
            && s.context.entered <= 1 && s.queue.entered <= 1
            && FlagStep(s.context.flag, s'.context.flag) && FlagStep(s.queue.flag, s'.queue.flag)
  {
    Reachable(scripts, choices);
    assert (choices + [next])[..|choices|] == choices;
    StepKeepsInv(At(scripts, choices), next, scripts);
  }

  /** Once published, a default and its error never change again. */
  lemma {:induction false} PublishedIsFinal(scripts: seq<seq<Call>>, choices: seq<Choice>, more: seq<Choice>,
                                            target: Target)
    requires CellOf(At(scripts, choices), target).flag == INITIALIZED
    ensures CellOf(At(scripts, choices + more), target) == CellOf(At(scripts, choices), target)
  {
    if more == [] {
      assert choices + more == choices;
    } else {
      var front, last := more[..|more| - 1], more[|more| - 1];
      PublishedIsFinal(scripts, choices, front, target);
      assert choices + more == (choices + front) + [last];
      assert (choices + more)[..|choices + more| - 1] == choices + front;
      Reachable(scripts, choices + front);
      StepKeepsInv(At(scripts, choices + front), last, scripts);
    }
  }

  /** When the default context failed, every queue call reports that same error and a null queue. */
  lemma QueueInheritsContextError(scripts: seq<seq<Call>>, choices: seq<Choice>, i: nat, k: nat)
    requires var s := At(scripts, choices);
             i < |s.threads| && k < |s.threads[i].log| && s.threads[i].log[k].call.target.QueueDefault?
    ensures var s := At(scripts, choices);
            var r := s.threads[i].log[k];
            && s.context.flag == INITIALIZED && s.context.entered == 1
            && (s.context.error != CL_SUCCESS ==>
                  r.value == NULL && (r.call.wantError ==> r.error == Some(s.context.error)))
  {
    Reachable(scripts, choices);
    var s := At(scripts, choices);
    assert ThreadOk(s, s.threads[i], scripts[i]);
    assert Reports(s, s.threads[i].log[k]);
  }

  // ------------------------------------------------- the start state matters

  /** A flag that starts the protocol, or one whose bits keep every caller from constructing. */
  predicate PreparedFlag(flag: int) {
    flag == NOT_INITIALIZED || Bit(flag, BEING_INITIALIZED) || Bit(flag, INITIALIZED)
  }

  // Nobody constructs and the flag still has its first value.
  ghost predicate Quiet(c: Cell, stages: seq<Option<Stage>>, flag: int) {
    c.flag == flag && c.entered == 0 && forall i :: !OwnerAt(stages, i)
  }

  // What a prepared flag guarantees of its cell, in every reachable state.
  ghost predicate Guarded(c: Cell, stages: seq<Option<Stage>>, flag: int) {
    if flag == NOT_INITIALIZED then Protocol(c, stages) else Quiet(c, stages, flag)
  }

  lemma MoveKeepsQuiet(c: Cell, stages: seq<Option<Stage>>, i: nat, c': Cell, st': Option<Stage>, flag: int)
    requires PreparedFlag(flag) && flag != NOT_INITIALIZED && Quiet(c, stages, flag)
    requires i < |stages| && Moves(c, stages[i], c', st')
    ensures Quiet(c', stages[i := st'], flag)
  {
    assert !OwnerAt(stages, i);
    var stages' := stages[i := st'];
    forall j ensures !OwnerAt(stages', j) {
      assert !OwnerAt(stages, j);
    }
  }

  function FlagOf(contextFlag: int, queueFlag: int, target: Target): int {
    if target.ContextDefault? then contextFlag else queueFlag
  }

  /** A prepared flag guards its own default, whatever the other flag is. */
  lemma {:induction false} StaysGuarded(contextFlag: int, queueFlag: int, scripts: seq<seq<Call>>,
                                        choices: seq<Choice>, target: Target)
    requires PreparedFlag(FlagOf(contextFlag, queueFlag, target))
    ensures var s := Run(Start(contextFlag, queueFlag, scripts), choices);
            Guarded(CellOf(s, target), Stages(s.threads, target), FlagOf(contextFlag, queueFlag, target))
  {
    if choices != [] {
      var flag := FlagOf(contextFlag, queueFlag, target);
      var front, ch := choices[..|choices| - 1], choices[|choices| - 1];
      StaysGuarded(contextFlag, queueFlag, scripts, front, target);
      var s := Run(Start(contextFlag, queueFlag, scripts), front);
      if flag == NOT_INITIALIZED {
        StepKeepsProtocol(s, ch, target);
      } else if ch.thread < |s.threads| {
        StepMoves(s, ch, target);
        var s' := Step(s, ch);
        MoveKeepsQuiet(CellOf(s, target), Stages(s.threads, target), ch.thread,
                       CellOf(s', target), StageOn(s'.threads[ch.thread].pc, target), flag);
      }
    }
  }

  // Two threads, one call each.
  function TwoCalls(target: Target): seq<seq<Call>> {
    [[Call(target, false)], [Call(target, false)]]
  }

  // Both threads pass the compare-and-swap before either of them builds ...
  function BothExchange(a: Choice, b: Choice): seq<Choice> { [a, a, b, b] }

  // ... and then build one after the other.
  function Race(first: Outcome, second: Outcome): seq<Choice> {
    var a, b := Choice(0, first), Choice(1, second);
    BothExchange(a, b) + Six(a) + Six(b)
  }

  function Six(c: Choice): seq<Choice> { [c, c, c, c, c, c] }

  lemma {:induction false} RunConcat(s: State, xs: seq<Choice>, ys: seq<Choice>)
    ensures Run(s, xs + ys) == Run(Run(s, xs), ys)
  {
    if ys == [] {
      assert xs + ys == xs;
    } else {
      var front := ys[..|ys| - 1];
      RunConcat(s, xs, front);
      assert (xs + ys)[..|xs + ys| - 1] == xs + front;
    }
  }

  lemma RunTwo(s: State, a: Choice, b: Choice)
    ensures Run(s, [a, b]) == Step(Step(s, a), b)
  {
    assert [a, b][..1] == [a] && [a][..0] == [];
    assert Run(s, [a]) == Step(s, a);
  }

  lemma StepInContext(s: State, i: nat, st: Stage, o: Outcome)
    requires i < |s.threads| && s.threads[i] == Thread([], InContext(false, st), []) && !st.Finished?
    ensures var (c, st') := CellStep(s.context, st, false, o);
            Step(s, Choice(i, o)) == State(c, s.queue, s.threads[i := Thread([], InContext(false, st'), [])])
  {
  }

  // From Build, six undisturbed steps store, publish and return the outcome.
  lemma SixStepsFromBuild(s: State, i: nat, o: Outcome)
    requires i < |s.threads| && s.threads[i] == Thread([], InContext(false, Build), [])
    ensures var s' := Run(s, Six(Choice(i, o)));
            && s'.threads == s.threads[i := Thread([], Idle, [Return(Call(ContextDefault, false), o.value, None)])]
            && s'.context.entered == s.context.entered
  {
    var c := Choice(i, o);
    var s1 := Step(s, c);
    StepInContext(s, i, Build, o);
    var s2 := Step(s1, c);
    StepInContext(s1, i, StoreValue(o), o);
    var s3 := Step(s2, c);
    StepInContext(s2, i, StoreError(o.error), o);
    var s4 := Step(s3, c);
    StepInContext(s3, i, Publish, o);
    var s5 := Step(s4, c);
    StepInContext(s4, i, ReadValue(None), o);
    assert s5.threads[i] == Thread([], InContext(false, Finished(o.value, None)), []);
    assert Run(s, Six(c)) == Step(s5, c) by { RunSix(s, c); }
    assert s5.context.entered == s.context.entered;
    assert s5.threads == s.threads[i := s5.threads[i]];
    var r := Return(Call(ContextDefault, false), o.value, None);
    assert Step(s5, c).threads == s5.threads[i := Thread([], Idle, [] + [r])];
    assert [] + [r] == [r];
  }

  lemma RunSix(s: State, c: Choice)
    ensures Run(s, Six(c)) == Step(Step(Step(Step(Step(Step(s, c), c), c), c), c), c)
  {
    assert Six(c) == [c, c] + ([c, c] + [c, c]);
    RunConcat(s, [c, c], [c, c] + [c, c]);
    RunTwo(s, c, c);
    var s2 := Run(s, [c, c]);
    RunConcat(s2, [c, c], [c, c]);
    RunTwo(s2, c, c);
    RunTwo(Run(s2, [c, c]), c, c);
  }

  function Building(target: Target): PC {
    if target.ContextDefault? then InContext(false, Build) else InQueue(false, Build)
  }

  lemma BothEnter(contextFlag: int, queueFlag: int, target: Target, a: Choice, b: Choice)
    requires !PreparedFlag(FlagOf(contextFlag, queueFlag, target)) && a.thread == 0 && b.thread == 1
    ensures var s := Run(Start(contextFlag, queueFlag, TwoCalls(target)), BothExchange(a, b));
            && s.threads == [Thread([], Building(target), []), Thread([], Building(target), [])]
            && CellOf(s, target).entered == 2
  {
    var s, calls := Start(contextFlag, queueFlag, TwoCalls(target)), [Call(target, false)];
    assert s.threads == [Thread(calls, Idle, []), Thread(calls, Idle, [])];
    assert BothExchange(a, b) == [a, a] + [b, b];
    RunConcat(s, [a, a], [b, b]);
    RunTwo(s, a, a);
    var s2 := Step(Step(s, a), a);
    assert s2.threads == [Thread([], Building(target), []), Thread(calls, Idle, [])];
    RunTwo(s2, b, b);
  }

  /** From a context flag that is not prepared (0 is such a flag, and the C++11 definition gives
      the flag no other value), both threads build a context and return different ones. */
  lemma TwoConstructions(contextFlag: int, queueFlag: int, first: Outcome, second: Outcome)
    requires !PreparedFlag(contextFlag)
    ensures var s := Run(Start(contextFlag, queueFlag, TwoCalls(ContextDefault)), Race(first, second));
            && s.context.entered == 2 && |s.threads| == 2
            && s.threads[0].log == [Return(Call(ContextDefault, false), first.value, None)]
            && s.threads[1].log == [Return(Call(ContextDefault, false), second.value, None)]
  {
    var a, b := Choice(0, first), Choice(1, second);
    var s0 := Start(contextFlag, queueFlag, TwoCalls(ContextDefault));
    RunConcat(s0, BothExchange(a, b) + Six(a), Six(b));
    RunConcat(s0, BothExchange(a, b), Six(a));
    BothEnter(contextFlag, queueFlag, ContextDefault, a, b);
    SixStepsFromBuild(Run(s0, BothExchange(a, b)), 0, first);
    SixStepsFromBuild(Run(s0, BothExchange(a, b) + Six(a)), 1, second);
  }

  /** Each default is constructed at most once in every run of every set of threads, exactly when
      its own flag starts at NOT_INITIALIZED or already carries one of the other two bits. */
  lemma UniqueIffFlagPrepared(contextFlag: int, queueFlag: int, target: Target)
    ensures (forall scripts: seq<seq<Call>>, choices: seq<Choice> ::
               CellOf(Run(Start(contextFlag, queueFlag, scripts), choices), target).entered <= 1)
            <==> PreparedFlag(FlagOf(contextFlag, queueFlag, target))
  {
    if PreparedFlag(FlagOf(contextFlag, queueFlag, target)) {
      forall scripts: seq<seq<Call>>, choices: seq<Choice>
        ensures CellOf(Run(Start(contextFlag, queueFlag, scripts), choices), target).entered <= 1
      {
        StaysGuarded(contextFlag, queueFlag, scripts, choices, target);
      }
    } else {
      var a, b := Choice(0, Outcome(NULL, CL_SUCCESS)), Choice(1, Outcome(NULL, CL_SUCCESS));
      BothEnter(contextFlag, queueFlag, target, a, b);
      assert CellOf(Run(Start(contextFlag, queueFlag, TwoCalls(target)), BothExchange(a, b)), target).entered == 2;
    }
  }
}

/**
 What is built, stored and returned is what a constructor yielded, at the one step that ran it.
 */
module OnceConstruction {
  import opened Common
  import opened OnceInit

  /** The thread's next step runs the constructor of a default. The queue's builder comes to it when
      its call of `Context::getDefault` is over. */
  predicate Constructs(pc: PC, target: Target) {
    match target
    case ContextDefault => (pc.InContext? || pc.InQueueContext?) && pc.st.Build?
    case QueueDefault => pc.InQueueContext? && pc.st.Finished?
  }

  /** Step `k` of the run does so. */
  ghost predicate ConstructsAt(scripts: seq<seq<Call>>, choices: seq<Choice>, k: nat, target: Target) {
    && k < |choices|
    && var s := Run(Launch(scripts), choices[..k]);
    choices[k].thread < |s.threads| && Constructs(s.threads[choices[k].thread].pc, target)
  }

  /** What a default is to hold: what its constructor yielded, but NULL and the context's error for
      a queue whose context failed. */
  predicate Holds(s: State, target: Target, value: int, error: int, yielded: Outcome) {
    if target.QueueDefault? && s.context.error != CL_SUCCESS then value == NULL && error == s.context.error
    else value == yielded.value && error == yielded.error
  }

  // The step that runs the constructor records what it yields; no other touches what was built.
  lemma StepConstructs(s: State, scripts: seq<seq<Call>>, ch: Choice, target: Target)
    requires Inv(s, scripts)
    ensures var built, s' := CellOf(s, target).built, Step(s, ch);
            var built' := CellOf(s', target).built;
            if ch.thread < |s.threads| && Constructs(s.threads[ch.thread].pc, target)
            then built == None && built'.Some? && Holds(s', target, built'.value.value, built'.value.error, ch.outcome)
            else built' == built
  {
    if ch.thread < |s.threads| {
      var t := s.threads[ch.thread];
      assert ThreadOk(s, t, scripts[ch.thread]);
      assert Stages(s.threads, ContextDefault)[ch.thread] == StageOn(t.pc, ContextDefault);
      assert Stages(s.threads, QueueDefault)[ch.thread] == StageOn(t.pc, QueueDefault);
    }
  }

  // Once something is built, the context's error stands as far as the default depends on it.
  lemma HoldsOn(s: State, scripts: seq<seq<Call>>, ch: Choice, target: Target, value: int, error: int, o: Outcome)
    requires Inv(s, scripts) && CellOf(s, target).built.Some? && Holds(s, target, value, error, o)
    ensures Holds(Step(s, ch), target, value, error, o)
  {
    StepKeepsInv(s, ch, scripts);
  }

  /** In every run at most one step runs the constructor of a default. Before it nothing is built,
      and after it what is built is what that constructor yielded. */
  lemma {:induction false} ConstructedOnce(scripts: seq<seq<Call>>, choices: seq<Choice>, target: Target)
    ensures var s := Run(Launch(scripts), choices);
            var built := CellOf(s, target).built;
            && (forall j: nat, k: nat ::
                  ConstructsAt(scripts, choices, j, target) && ConstructsAt(scripts, choices, k, target) ==> j == k)
            && (built.Some? <==> exists k: nat :: ConstructsAt(scripts, choices, k, target))
            && (forall k: nat :: ConstructsAt(scripts, choices, k, target) ==>
                  built.Some? && Holds(s, target, built.value.value, built.value.error, choices[k].outcome))
  {
    if choices != [] {
      var n, front := |choices| - 1, choices[..|choices| - 1];
      var s := Run(Launch(scripts), front);
      ConstructedOnce(scripts, front, target);
      Reachable(scripts, front);
      StepConstructs(s, scripts, choices[n], target);
      var now := choices[n].thread < |s.threads| && Constructs(s.threads[choices[n].thread].pc, target);
      forall k: nat
        ensures ConstructsAt(scripts, choices, k, target) <==>
                  if k == n then now else ConstructsAt(scripts, front, k, target)
      {
        if k < n { assert choices[..k] == front[..k]; }
      }
      forall k: nat | ConstructsAt(scripts, front, k, target)
        ensures var b := CellOf(s, target).built;
                b.Some? && Holds(Step(s, choices[n]), target, b.value.value, b.value.error, front[k].outcome)
      {
        var b := CellOf(s, target).built.value;
        HoldsOn(s, scripts, choices[n], target, b.value, b.error, front[k].outcome);
      }
      if now {
        assert ConstructsAt(scripts, choices, n, target);
      } else if CellOf(s, target).built.Some? {
        var k: nat :| ConstructsAt(scripts, front, k, target);
        assert ConstructsAt(scripts, choices, k, target);
      }
    }
  }

  /** Every return, of any call in any run, carries the value and the error that the constructor of
      its default yielded at the one step that ran it; a queue whose context failed is NULL, with
      the context's error. */
  lemma ReturnsAreConstructed(scripts: seq<seq<Call>>, choices: seq<Choice>, i: nat, j: nat) returns (k: nat)
    requires var s := Run(Launch(scripts), choices); i < |s.threads| && j < |s.threads[i].log|
    ensures var s := Run(Launch(scripts), choices);
            var r := s.threads[i].log[j];
            && ConstructsAt(scripts, choices, k, r.call.target)
            && (r.error.Some? <==> r.call.wantError)
            && (if r.call.target.QueueDefault? && s.context.error != CL_SUCCESS
                then r.value == NULL && (r.error.Some? ==> r.error.value == s.context.error)
                else r.value == choices[k].outcome.value
                     && (r.error.Some? ==> r.error.value == choices[k].outcome.error))
  {
    Reachable(scripts, choices);
    var s := Run(Launch(scripts), choices);
    var r := s.threads[i].log[j];
    assert ThreadOk(s, s.threads[i], scripts[i]);
    assert Reports(s, r);
    ConstructedOnce(scripts, choices, r.call.target);
    k :| ConstructsAt(scripts, choices, k, r.call.target);
  }
}

/**
 The protocol refines the `std::call_once` form: an abstract machine in which a default is
 initialised by one atomic action and every call returns what that action produced.
 */
module OnceRefinement {
  import opened Common
  import opened OnceConstruction
  import opened OnceInit

  datatype Caller = Caller(pending: seq<Call>, log: seq<Return>)

  /** A default is absent or has its one outcome. */
  datatype Spec = Spec(context: Option<Outcome>, queue: Option<Outcome>, callers: seq<Caller>)

  /** `call_once` runs the context's initialiser, on behalf of a pending context call or of a
      pending queue call whose own initialiser has not completed; `yielded` is what constructors
      have yielded so far. */
  ghost predicate InitContext(a: Spec, a': Spec, i: nat, o: Outcome, yielded: seq<Outcome>) {
    && i < |a.callers| && a.callers[i].pending != []
    && a.context == None
    && (a.callers[i].pending[0].target.QueueDefault? ==> a.queue == None)
    && o in yielded
    && a' == a.(context := Some(o))
  }

  /** `call_once` runs the queue's initialiser, which has the context's outcome in hand. */
  ghost predicate InitQueue(a: Spec, a': Spec, i: nat, o: Outcome, yielded: seq<Outcome>) {
    && i < |a.callers| && a.callers[i].pending != [] && a.callers[i].pending[0].target.QueueDefault?
    && a.queue == None && a.context.Some?
    && (if a.context.value.error != CL_SUCCESS then o == Outcome(NULL, a.context.value.error) else o in yielded)
    && a' == a.(queue := Some(o))
  }

  /** A call whose default is initialised returns that default and, if asked, its error. */
  ghost predicate ReturnCall(a: Spec, a': Spec, i: nat) {
    && i < |a.callers| && a.callers[i].pending != []
    && var caller := a.callers[i];
    var call := caller.pending[0];
    var once := if call.target.ContextDefault? then a.context else a.queue;
    && once.Some?
    && var r := Return(call, once.value.value, if call.wantError then Some(once.value.error) else None);
    a' == a.(callers := a.callers[i := Caller(caller.pending[1..], caller.log + [r])])
  }

  ghost predicate SpecNext(a: Spec, a': Spec, yielded: seq<Outcome>) {
    || a' == a
    || (exists i: nat, o: Outcome :: InitContext(a, a', i, o, yielded))
    || (exists i: nat, o: Outcome :: InitQueue(a, a', i, o, yielded))
    || (exists i: nat :: ReturnCall(a, a', i))
  }

  function OnceOf(c: Cell): Option<Outcome> {
    if c.flag == INITIALIZED then Some(Outcome(c.value, c.error)) else None
  }

  function Abstract(s: State): Spec {
    Spec(OnceOf(s.context), OnceOf(s.queue),
         seq(|s.threads|, i requires 0 <= i < |s.threads| => Caller(Pending(s.threads[i]), s.threads[i].log)))
  }

  lemma AbstractStep(s: State, ch: Choice)
    requires ch.thread < |s.threads|
    ensures var t' := ThreadStep(s.context, s.queue, s.threads[ch.thread], ch.outcome).2;
            Abstract(Step(s, ch)).callers == Abstract(s).callers[ch.thread := Caller(Pending(t'), t'.log)]
  {
  }

  // A step that returns touches no cell and finishes the call at hand.
  lemma ReturningStep(c: Cell, q: Cell, t: Thread, o: Outcome)
    requires ThreadStep(c, q, t, o).2.log != t.log
    ensures var (c', q', t') := ThreadStep(c, q, t, o);
            && c' == c && q' == q && Pending(t) != [] && Pending(t') == Pending(t)[1..]
            && |t'.log| == |t.log| + 1 && t'.log == t.log + [t'.log[|t.log|]]
            && t'.log[|t.log|].call == Pending(t)[0]
  {
    ThreadStepOnScript(c, q, t, o);
    var t' := ThreadStep(c, q, t, o).2;
    assert t'.log == t'.log[..|t.log|] + [t'.log[|t.log|]];
  }

  /** A step that returns is the abstract return. */
  lemma ReturnRefines(s: State, ch: Choice, scripts: seq<seq<Call>>)
    requires Inv(s, scripts) && ch.thread < |s.threads|
    requires ThreadStep(s.context, s.queue, s.threads[ch.thread], ch.outcome).2.log != s.threads[ch.thread].log
    ensures ReturnCall(Abstract(s), Abstract(Step(s, ch)), ch.thread)
  {
    var i := ch.thread;
    var t := s.threads[i];
    var t' := ThreadStep(s.context, s.queue, t, ch.outcome).2;
    ReturningStep(s.context, s.queue, t, ch.outcome);
    AbstractStep(s, ch);
    StepKeepsInv(s, ch, scripts);
    assert ThreadOk(Step(s, ch), t', scripts[i]);
    assert Reports(Step(s, ch), t'.log[|t.log|]);
  }

  /** A step that returns nothing publishes a default, which is the abstract initialisation,
      or changes nothing the abstract machine can see. */
  lemma PublishRefines(c: Cell, q: Cell, t: Thread, o: Outcome)
    requires CellOk(c) && CellOk(q) && Placed(c, q, t)
    requires Nested(State(c, q, []))
    ensures var (c', q', t') := ThreadStep(c, q, t, o);
            || (OnceOf(c') == OnceOf(c) && OnceOf(q') == OnceOf(q))
            || (OnceOf(q') == OnceOf(q) && OnceOf(c) == None && OnceOf(c').Some? && Pending(t) != []
                && OnceOf(c') == c.built
                && (Pending(t)[0].target.QueueDefault? ==> OnceOf(q) == None))
            || (OnceOf(c') == OnceOf(c) && OnceOf(q) == None && OnceOf(c).Some? && OnceOf(q').Some? && Pending(t) != []
                && Pending(t)[0].target.QueueDefault?
                && OnceOf(q') == q.built && (c.error != CL_SUCCESS ==> OnceOf(q') == Some(Outcome(NULL, c.error))))
  {
    match t.pc
    case Idle =>
    case InContext(_, _) =>
    case InQueue(_, _) =>
    case InQueueContext(_, _) =>
  }

  // What was built is what some constructor yielded, unless the context failed.
  ghost predicate Yielded(s: State, yielded: seq<Outcome>) {
    && (s.context.built.Some? ==> s.context.built.value in yielded)
    && (s.queue.built.Some? && s.context.error == CL_SUCCESS ==> s.queue.built.value in yielded)
  }

  function Outcomes(choices: seq<Choice>): (r: seq<Outcome>)
    ensures |r| == |choices| && forall k :: 0 <= k < |r| ==> r[k] == choices[k].outcome
  {
    seq(|choices|, k requires 0 <= k < |choices| => choices[k].outcome)
  }

  lemma RunIsYielded(scripts: seq<seq<Call>>, choices: seq<Choice>)
    ensures Yielded(Run(Launch(scripts), choices), Outcomes(choices))
  {
    var s := Run(Launch(scripts), choices);
    ConstructedOnce(scripts, choices, ContextDefault);
    ConstructedOnce(scripts, choices, QueueDefault);
    if s.context.built.Some? {
      var k: nat :| ConstructsAt(scripts, choices, k, ContextDefault);
      assert s.context.built.value == Outcomes(choices)[k];
    }
    if s.queue.built.Some? && s.context.error == CL_SUCCESS {
      var k: nat :| ConstructsAt(scripts, choices, k, QueueDefault);
      assert s.queue.built.value == Outcomes(choices)[k];
    }
  }

  /** Every step of the protocol is a step of the `call_once` machine, or invisible to it. */
  lemma StepRefines(s: State, ch: Choice, scripts: seq<seq<Call>>, yielded: seq<Outcome>)
    requires Inv(s, scripts) && Yielded(s, yielded)
    ensures SpecNext(Abstract(s), Abstract(Step(s, ch)), yielded)
  {
    var a, a' := Abstract(s), Abstract(Step(s, ch));
    if ch.thread < |s.threads| {
      var i, t := ch.thread, s.threads[ch.thread];
      var (c', q', t') := ThreadStep(s.context, s.queue, t, ch.outcome);
      if t'.log != t.log {
        ReturnRefines(s, ch, scripts);
      } else {
        assert Stages(s.threads, ContextDefault)[i] == StageOn(t.pc, ContextDefault);
        assert Stages(s.threads, QueueDefault)[i] == StageOn(t.pc, QueueDefault);
        AbstractStep(s, ch);
        ThreadStepOnScript(s.context, s.queue, t, ch.outcome);
        assert a'.callers == a.callers;
        PublishRefines(s.context, s.queue, t, ch.outcome);
        if a'.context != a.context {
          assert InitContext(a, a', i, a'.context.value, yielded);
        } else if a'.queue != a.queue {
          assert InitQueue(a, a', i, a'.queue.value, yielded);
        }
      }
    }
  }

  ghost predicate SpecStart(a: Spec, scripts: seq<seq<Call>>) {
    a == Spec(None, None, seq(|scripts|, i requires 0 <= i < |scripts| => Caller(scripts[i], [])))
  }

  /** Refinement: the abstract images of the states along any run, for any number of threads
      and any interleaving, form a run of the `call_once` machine, which initialises its defaults
      with what the constructors of the run have yielded. */
  lemma RunRefinesCallOnce(scripts: seq<seq<Call>>, choices: seq<Choice>)
    ensures SpecStart(Abstract(Launch(scripts)), scripts)
    ensures forall k :: 0 <= k < |choices| ==>
              SpecNext(Abstract(Run(Launch(scripts), choices[..k])),
                       Abstract(Run(Launch(scripts), choices[..k + 1])), Outcomes(choices[..k]))
  {
    forall k | 0 <= k < |choices|
      ensures SpecNext(Abstract(Run(Launch(scripts), choices[..k])),
                       Abstract(Run(Launch(scripts), choices[..k + 1])), Outcomes(choices[..k]))
    {
      assert choices[..k + 1][..k] == choices[..k];
      Reachable(scripts, choices[..k]);
      RunIsYielded(scripts, choices[..k]);
      StepRefines(Run(Launch(scripts), choices[..k]), choices[k], scripts, Outcomes(choices[..k]));
    }
  }
}

/**
 No deadlock, and a bound on the work of any run.
 */
module OnceProgress {
  import opened OnceInit

  predicate Done(t: Thread) {
    t.pc.Idle? && t.todo == []
  }

  // The thread's next access is a failed test of its spin loop.
  predicate Spinning(s: State, t: Thread) {
    match t.pc
    case InContext(_, Spin) => s.context.flag != INITIALIZED
    case InQueueContext(_, Spin) => s.context.flag != INITIALIZED
    case InQueue(_, Spin) => s.queue.flag != INITIALIZED
    case _ => false
  }

  predicate CanAdvance(s: State, i: nat) {
    i < |s.threads| && !Done(s.threads[i]) && !Spinning(s, s.threads[i])
  }

  lemma ContextOwnerAdvances(s: State, scripts: seq<seq<Call>>) returns (j: nat)
    requires Inv(s, scripts) && s.context.flag == BEING_INITIALIZED
    ensures CanAdvance(s, j)
  {
    j :| OwnerAt(Stages(s.threads, ContextDefault), j);
  }

  // Whoever spins on the queue waits for its owner, who may itself wait for the context's owner.
  lemma QueueOwnerAdvances(s: State, scripts: seq<seq<Call>>) returns (j: nat)
    requires Inv(s, scripts) && s.queue.flag == BEING_INITIALIZED
    ensures CanAdvance(s, j)
  {
    j :| OwnerAt(Stages(s.threads, QueueDefault), j);
    if Spinning(s, s.threads[j]) {
      assert StageOk(s.context, Stages(s.threads, ContextDefault)[j].value);
      j := ContextOwnerAdvances(s, scripts);
    }
  }

  /** In every reachable state with an unfinished thread, some thread has a step that is not a
      failed spin test. */
  lemma NeverDeadlocked(scripts: seq<seq<Call>>, choices: seq<Choice>, i: nat) returns (j: nat)
    requires var s := Run(Launch(scripts), choices); i < |s.threads| && !Done(s.threads[i])
    ensures CanAdvance(Run(Launch(scripts), choices), j)
  {
    Reachable(scripts, choices);
    var s := Run(Launch(scripts), choices);
    j := i;
    if Spinning(s, s.threads[i]) {
      if s.threads[i].pc.InQueue? {
        assert StageOk(s.queue, Stages(s.threads, QueueDefault)[i].value);
        j := QueueOwnerAdvances(s, scripts);
      } else {
        assert StageOk(s.context, Stages(s.threads, ContextDefault)[i].value);
        j := ContextOwnerAdvances(s, scripts);
      }
    }
  }

  // ------------------------------------------------------------- the measure

  function StageRank(st: Stage): nat {
    match st
    case Exchange => 10
    case Spin => 9
    case Build => 8
    case StoreValue(_) => 7
    case StoreError(_) => 6
    case Publish => 5
    case ReadError => 4
    case ReadValue(_) => 3
    case Finished(_, _) => 2
  }

  // A queue initialiser passes through a whole context call between Build and StoreValue.
  function Rank(pc: PC): nat {
    match pc
    case Idle => 0
    case InContext(_, st) => StageRank(st)
    case InQueueContext(_, st) => 10 + StageRank(st)
    case InQueue(_, st) => if st.Exchange? || st.Spin? || st.Build? then 20 + StageRank(st) else StageRank(st)
  }

  function ThreadMeasure(t: Thread): nat {
    31 * |t.todo| + Rank(t.pc)
  }

  function Measure(threads: seq<Thread>): nat {
    if threads == [] then 0 else ThreadMeasure(threads[0]) + Measure(threads[1..])
  }

  lemma {:induction false} MeasureUpdate(threads: seq<Thread>, i: nat, t: Thread)
    requires i < |threads|
    ensures Measure(threads[i := t]) == Measure(threads) - ThreadMeasure(threads[i]) + ThreadMeasure(t)
  {
    if i == 0 {
      assert threads[0 := t][1..] == threads[1..];
    } else {
      MeasureUpdate(threads[1..], i - 1, t);
      assert threads[i := t][1..] == threads[1..][i - 1 := t];
    }
  }

  lemma ThreadStepLowers(c: Cell, q: Cell, t: Thread, o: Outcome)
    requires !Done(t) && !Spinning(State(c, q, []), t)
    ensures ThreadMeasure(ThreadStep(c, q, t, o).2) < ThreadMeasure(t)
  {
    match t.pc
    case Idle =>
    case InContext(_, _) =>
    case InQueue(_, _) =>
    case InQueueContext(_, _) =>
  }

  /** A step that is neither a failed spin test nor a finished thread's lowers the measure;
      all other steps change nothing at all. */
  lemma StepLowersMeasure(s: State, ch: Choice)
    ensures CanAdvance(s, ch.thread) ==> Measure(Step(s, ch).threads) < Measure(s.threads)
    ensures !CanAdvance(s, ch.thread) ==> Step(s, ch) == s
  {
    if CanAdvance(s, ch.thread) {
      ThreadStepLowers(s.context, s.queue, s.threads[ch.thread], ch.outcome);
      MeasureUpdate(s.threads, ch.thread, ThreadStep(s.context, s.queue, s.threads[ch.thread], ch.outcome).2);
    } else if ch.thread < |s.threads| {
      assert s.threads[ch.thread := s.threads[ch.thread]] == s.threads;
    }
  }

  function Advances(s: State, choices: seq<Choice>): nat {
    if choices == [] then 0
    else
      var front := choices[..|choices| - 1];
      Advances(s, front) + if CanAdvance(Run(s, front), choices[|choices| - 1].thread) then 1 else 0
  }

  /** However the threads interleave, a run makes at most as many advancing steps as the measure
      of its first state. */
  lemma {:induction false} WorkIsBounded(s: State, choices: seq<Choice>)
    ensures Advances(s, choices) + Measure(Run(s, choices).threads) <= Measure(s.threads)
  {
    if choices != [] {
      var front := choices[..|choices| - 1];
      WorkIsBounded(s, front);
      StepLowersMeasure(Run(s, front), choices[|choices| - 1]);
    }
  }

  /** Every thread is done and has answered its calls, all of them and in order. */
  ghost predicate AllServed(s: State, scripts: seq<seq<Call>>) {
    && |s.threads| == |scripts|
    && forall i :: 0 <= i < |scripts| ==> Done(s.threads[i]) && Calls(s.threads[i].log) == scripts[i]
  }

  /** A run that cannot advance further has served every call of every script, in order. */
  lemma StuckMeansServed(scripts: seq<seq<Call>>, choices: seq<Choice>)
    requires var s := Run(Launch(scripts), choices); forall i: nat :: !CanAdvance(s, i)
    ensures AllServed(Run(Launch(scripts), choices), scripts)
  {
    Reachable(scripts, choices);
    var s := Run(Launch(scripts), choices);
    forall i | 0 <= i < |scripts|
      ensures Done(s.threads[i]) && Calls(s.threads[i].log) == scripts[i]
    {
      if !Done(s.threads[i]) {
        var j := NeverDeadlocked(scripts, choices, i);
        assert false;
      }
      assert ThreadOk(s, s.threads[i], scripts[i]);
      assert Calls(s.threads[i].log) + [] == Calls(s.threads[i].log);
    }
  }

  // ---------------------------------------------------------- fair schedules

  /** The first `n` choices of an infinite schedule. */
  function Prefix(schedule: nat -> Choice, n: nat): seq<Choice> {
    seq(n, i requires 0 <= i => schedule(i))
  }

  function After(scripts: seq<seq<Call>>, schedule: nat -> Choice, n: nat): State {
    Run(Launch(scripts), Prefix(schedule, n))
  }

  lemma AfterNext(scripts: seq<seq<Call>>, schedule: nat -> Choice, n: nat)
    ensures After(scripts, schedule, n + 1) == Step(After(scripts, schedule, n), schedule(n))
  {
    assert Prefix(schedule, n + 1)[..n] == Prefix(schedule, n);
  }

  ghost predicate ScheduledFrom(schedule: nat -> Choice, n: nat, i: nat) {
    exists m: nat :: m >= n && schedule(m).thread == i
  }

  /** Every thread is scheduled again and again. */
  ghost predicate Fair(schedule: nat -> Choice, threads: nat) {
    forall i: nat, n: nat :: i < threads ==> ScheduledFrom(schedule, n, i)
  }

  // A thread that can advance after `n` steps and is scheduled at `m` is not outwaited: some
  // step from `n` to `m` lowers the measure.
  lemma {:induction false} AdvancesBy(scripts: seq<seq<Call>>, schedule: nat -> Choice, n: nat, m: nat)
    returns (n': nat)
    requires n <= m && CanAdvance(After(scripts, schedule, n), schedule(m).thread)
    ensures Measure(After(scripts, schedule, n').threads) < Measure(After(scripts, schedule, n).threads)
    decreases m - n
  {
    AfterNext(scripts, schedule, n);
    StepLowersMeasure(After(scripts, schedule, n), schedule(n));
    if CanAdvance(After(scripts, schedule, n), schedule(n).thread) {
      n' := n + 1;
    } else {
      n' := AdvancesBy(scripts, schedule, n + 1, m);
    }
  }

  // While some thread is unfinished a fair schedule gets ahead.
  lemma FairRunsAdvance(scripts: seq<seq<Call>>, schedule: nat -> Choice, n: nat, i: nat) returns (n': nat)
    requires Fair(schedule, |scripts|)
    requires var s := After(scripts, schedule, n); i < |s.threads| && !Done(s.threads[i])
    ensures Measure(After(scripts, schedule, n').threads) < Measure(After(scripts, schedule, n).threads)
  {
    Reachable(scripts, Prefix(schedule, n));
    var j := NeverDeadlocked(scripts, Prefix(schedule, n), i);
    assert ScheduledFrom(schedule, n, j);
    var m: nat :| m >= n && schedule(m).thread == j;
    n' := AdvancesBy(scripts, schedule, n, m);
  }

  /** Under every fair schedule all calls are eventually answered: after finitely many steps every
      thread is done with its whole script. */
  lemma {:induction false} FairRunsFinish(scripts: seq<seq<Call>>, schedule: nat -> Choice, n: nat) returns (end: nat)
    requires Fair(schedule, |scripts|)
    ensures AllServed(After(scripts, schedule, end), scripts)
    decreases Measure(After(scripts, schedule, n).threads)
  {
    if i: nat :| i < |After(scripts, schedule, n).threads| && !Done(After(scripts, schedule, n).threads[i]) {
      var n' := FairRunsAdvance(scripts, schedule, n, i);
      end := FairRunsFinish(scripts, schedule, n');
    } else {
      end := n;
      var s := After(scripts, schedule, n);
      forall i: nat ensures !CanAdvance(s, i) {
        assert i < |s.threads| ==> Done(s.threads[i]);
      }
      StuckMeansServed(scripts, Prefix(schedule, n));
    }
  }

  /** ... and stays so: from then on no step changes anything. */
  lemma {:induction false} ServedStaysServed(scripts: seq<seq<Call>>, schedule: nat -> Choice, end: nat, n: nat)
    requires end <= n && AllServed(After(scripts, schedule, end), scripts)
    ensures After(scripts, schedule, n) == After(scripts, schedule, end)
    decreases n
  {
    if n > end {
      ServedStaysServed(scripts, schedule, end, n - 1);
      AfterNext(scripts, schedule, n - 1);
      StepLowersMeasure(After(scripts, schedule, end), schedule(n - 1));
    }
  }
}
