/**
 The hand-written one-time initialisation of `Context::getDefault` and
 `CommandQueue::getDefault`: a compare-and-swap on a three-valued flag, a spin
 loop for the losers, and a plain sequence of writes for the winner. The queue's
 winner calls `Context::getDefault` in the middle of its own construction.

 Threads interleave one shared access at a time. `Step` is a function of the
 scheduler's choice, so a run is a sequence of choices and "for every run" is
 "for every sequence".
 */
module OnceInit {
  import opened Common

  const NOT_INITIALIZED := 1
  const BEING_INITIALIZED := 2
  const INITIALIZED := 4

  // `state & mask` for a mask that is a power of two
  predicate Bit(state: int, mask: int)
    requires mask > 0
  {
    (state / mask) % 2 == 1
  }

  datatype Target = ContextDefault | QueueDefault
  datatype Call = Call(target: Target, wantError: bool)
  datatype Outcome = Outcome(value: int, error: int)
  datatype Return = Return(call: Call, value: int, error: Option<int>)

  /** `default_initialized_`, `default_`, `default_error_` of one class. `entered` and
      `built` are history: how often construction was entered and what it produced. */
  datatype Cell = Cell(flag: int, value: int, error: int, entered: nat, built: Option<Outcome>)

  /** Where a call stands, one shared access per stage. */
  datatype Stage =
    | Exchange                                    // about to compare-and-swap the flag
    | Spin                                        // lost: waiting for INITIALIZED
    | Build                                       // won: about to run the constructor
    | StoreValue(o: Outcome)                      // about to assign default_
    | StoreError(e: int)                          // about to assign default_error_
    | Publish                                     // about to set the flag
    | ReadError                                   // about to read default_error_ into *err
    | ReadValue(seen: Option<int>)                // about to copy default_
    | Finished(value: int, seenError: Option<int>)

  /** `InQueueContext` is a queue initialiser inside its nested `Context::getDefault(&error)`. */
  datatype PC =
    | Idle
    | InContext(want: bool, st: Stage)
    | InQueue(want: bool, st: Stage)
    | InQueueContext(want: bool, st: Stage)

  datatype Thread = Thread(todo: seq<Call>, pc: PC, log: seq<Return>)
  datatype State = State(context: Cell, queue: Cell, threads: seq<Thread>)

  // ------------------------------------------------------------------ steps

  function AfterPublication(want: bool): Stage {
    if want then ReadError else ReadValue(None)
  }

  /** One step of a call that holds `st` on the cell `c`; `o` is what the constructor
      yields if this step runs it. */
  function CellStep(c: Cell, st: Stage, want: bool, o: Outcome): (Cell, Stage) {
    match st
    case Exchange =>
      var c' := if c.flag == NOT_INITIALIZED then c.(flag := BEING_INITIALIZED) else c;
      if Bit(c.flag, INITIALIZED) then (c', AfterPublication(want))
      else if Bit(c.flag, BEING_INITIALIZED) then (c', Spin)
      else (c'.(entered := c.entered + 1), Build)
    case Spin => (c, if c.flag == INITIALIZED then AfterPublication(want) else Spin)
    case Build => (c.(built := Some(o)), StoreValue(o))
    case StoreValue(p) => (c.(value := p.value), StoreError(p.error))
    case StoreError(e) => (c.(error := e), Publish)
    case Publish => (c.(flag := INITIALIZED), AfterPublication(want))
    case ReadError => (c, ReadValue(Some(c.error)))
    case ReadValue(seen) => (c, Finished(c.value, seen))
    case Finished(_, _) => (c, st)
  }

  /** What the queue's initialiser does with the context it was given: on a context error
      `default_` is never assigned and the error is passed on. */
  function QueueBuilt(q: Cell, contextError: int, o: Outcome): (Outcome, Stage) {
    if contextError != CL_SUCCESS then (Outcome(q.value, contextError), StoreError(contextError))
    else (o, StoreValue(o))
  }

  function ThreadStep(c: Cell, q: Cell, t: Thread, o: Outcome): (Cell, Cell, Thread) {
    match t.pc
    case Idle =>
      if t.todo == [] then (c, q, t)
      else
        var call := t.todo[0];
        var pc := if call.target.ContextDefault? then InContext(call.wantError, Exchange)
                  else InQueue(call.wantError, Exchange);
        (c, q, Thread(t.todo[1..], pc, t.log))
    case InContext(want, Finished(v, e)) =>
      (c, q, Thread(t.todo, Idle, t.log + [Return(Call(ContextDefault, want), v, e)]))
    case InContext(want, st) =>
      var (c', st') := CellStep(c, st, want, o);
      (c', q, t.(pc := InContext(want, st')))
    case InQueue(want, Finished(v, e)) =>
      (c, q, Thread(t.todo, Idle, t.log + [Return(Call(QueueDefault, want), v, e)]))
    case InQueue(want, Build) =>
      (c, q, t.(pc := InQueueContext(want, Exchange)))
    case InQueue(want, st) =>
      var (q', st') := CellStep(q, st, want, o);
      (c, q', t.(pc := InQueue(want, st')))
    case InQueueContext(want, Finished(_, e)) =>
      var (built, st') := QueueBuilt(q, if e.Some? then e.value else CL_SUCCESS, o);
      (c, q.(built := Some(built)), t.(pc := InQueue(want, st')))
    case InQueueContext(want, st) =>
      var (c', st') := CellStep(c, st, true, o);
      (c', q, t.(pc := InQueueContext(want, st')))
  }

  /** The scheduler picks a thread and, should that thread run a constructor, its outcome. */
  datatype Choice = Choice(thread: nat, outcome: Outcome)

  function Step(s: State, ch: Choice): State {
    if ch.thread >= |s.threads| then s
    else
      var (c, q, t) := ThreadStep(s.context, s.queue, s.threads[ch.thread], ch.outcome);
      State(c, q, s.threads[ch.thread := t])
  }

  function Run(s: State, choices: seq<Choice>): State {
    if choices == [] then s else Step(Run(s, choices[..|choices| - 1]), choices[|choices| - 1])
  }

  function FreshCell(flag: int): Cell {
    Cell(flag, NULL, CL_SUCCESS, 0, None)
  }

  /** All threads idle, thread `i` about to make the calls `scripts[i]`. */
  function Start(contextFlag: int, queueFlag: int, scripts: seq<seq<Call>>): State {
    State(FreshCell(contextFlag), FreshCell(queueFlag),
          seq(|scripts|, i requires 0 <= i < |scripts| => Thread(scripts[i], Idle, [])))
  }

  /** The start the protocol was written for. */
  function Launch(scripts: seq<seq<Call>>): State {
    Start(NOT_INITIALIZED, NOT_INITIALIZED, scripts)
  }

  // -------------------------------------------------- invariant of one cell

  predicate Owns(st: Stage) {
    st.Build? || st.StoreValue? || st.StoreError? || st.Publish?
  }

  predicate Saw(c: Cell, seen: Option<int>) {
    seen == None || seen == Some(c.error)
  }

  predicate StageOk(c: Cell, st: Stage) {
    match st
    case Exchange => true
    case Spin => c.flag != NOT_INITIALIZED
    case Build => c.flag == BEING_INITIALIZED && c.value == NULL && c.error == CL_SUCCESS && c.built == None
    case StoreValue(o) => c.flag == BEING_INITIALIZED && c.built == Some(o)
    case StoreError(e) => c.flag == BEING_INITIALIZED && c.built == Some(Outcome(c.value, e))
    case Publish => c.flag == BEING_INITIALIZED && c.built == Some(Outcome(c.value, c.error))
    case ReadError => c.flag == INITIALIZED
    case ReadValue(seen) => c.flag == INITIALIZED && Saw(c, seen)
    case Finished(v, seen) => c.flag == INITIALIZED && v == c.value && Saw(c, seen)
  }

  predicate CellOk(c: Cell) {
    && c.flag in {NOT_INITIALIZED, BEING_INITIALIZED, INITIALIZED}
    && (c.flag == NOT_INITIALIZED ==> c == FreshCell(NOT_INITIALIZED))
    && (c.flag != NOT_INITIALIZED ==> c.entered == 1)
    && (c.flag == INITIALIZED ==> c.built == Some(Outcome(c.value, c.error)))
  }

  ghost predicate OwnerAt(stages: seq<Option<Stage>>, i: int) {
    0 <= i < |stages| && stages[i].Some? && Owns(stages[i].value)
  }

  /** The invariant of one cell and the stages (if any) the threads hold on it. */
  ghost predicate Protocol(c: Cell, stages: seq<Option<Stage>>) {
    && CellOk(c)
    && (forall i :: 0 <= i < |stages| && stages[i].Some? ==> StageOk(c, stages[i].value))
    && (forall i, j :: OwnerAt(stages, i) && OwnerAt(stages, j) ==> i == j)
    && (c.flag == BEING_INITIALIZED ==> exists i :: OwnerAt(stages, i))
  }

  // A published cell is final; until then a cell only moves as CellStep moves it.
  predicate Extends(c: Cell, c': Cell) {
    && (c.flag == INITIALIZED ==> c' == c)
    && c.entered <= c'.entered
    && (c'.flag == c.flag || (c.flag == NOT_INITIALIZED && c'.flag == BEING_INITIALIZED)
        || (c.flag == BEING_INITIALIZED && c'.flag == INITIALIZED))
  }

  lemma CellStepKeepsProtocol(c: Cell, stages: seq<Option<Stage>>, i: nat, want: bool, o: Outcome)
    requires Protocol(c, stages) && i < |stages| && stages[i].Some?
    ensures var (c', st') := CellStep(c, stages[i].value, want, o);
            && Protocol(c', stages[i := Some(st')]) && Extends(c, c')
            && c'.built == if stages[i].value.Build? then Some(o) else c.built
  {
    var st := stages[i].value;
    var (c', st') := CellStep(c, st, want, o);
    var stages' := stages[i := Some(st')];
    if Owns(st) {
      assert OwnerAt(stages, i);
    }
    forall j | 0 <= j < |stages'| && stages'[j].Some?
      ensures StageOk(c', stages'[j].value)
    {
      if j != i {
        assert OwnerAt(stages, j) <==> Owns(stages[j].value);
      }
    }
    forall j, k | OwnerAt(stages', j) && OwnerAt(stages', k)
      ensures j == k
    {
      assert j != i ==> OwnerAt(stages, j);
      assert k != i ==> OwnerAt(stages, k);
    }
    if c'.flag == BEING_INITIALIZED {
      if Owns(st') {
        assert OwnerAt(stages', i);
      } else {
        var j :| OwnerAt(stages, j);
        assert OwnerAt(stages', j);
      }
    }
  }

  /** A thread joins at Exchange, or leaves from Finished. */
  lemma JoinLeaveKeepsProtocol(c: Cell, stages: seq<Option<Stage>>, i: nat, st: Option<Stage>)
    requires Protocol(c, stages) && i < |stages|
    requires !OwnerAt(stages, i)
    requires st == None || st == Some(Exchange)
    ensures Protocol(c, stages[i := st])
  {
    var stages' := stages[i := st];
    forall j ensures OwnerAt(stages', j) <==> OwnerAt(stages, j) {}
    if c.flag == BEING_INITIALIZED {
      var j :| OwnerAt(stages, j);
      assert OwnerAt(stages', j);
    }
  }

  /** The queue's builder comes back from `Context::getDefault` with an outcome. */
  lemma BuiltKeepsProtocol(c: Cell, stages: seq<Option<Stage>>, i: nat, contextError: int, o: Outcome)
    requires Protocol(c, stages) && i < |stages| && stages[i] == Some(Build)
    ensures var (built, st') := QueueBuilt(c, contextError, o);
            var c' := c.(built := Some(built));
            Protocol(c', stages[i := Some(st')]) && Extends(c, c')
  {
    var (built, st') := QueueBuilt(c, contextError, o);
    var c' := c.(built := Some(built));
    var stages' := stages[i := Some(st')];
    assert OwnerAt(stages, i);
    forall j ensures OwnerAt(stages', j) <==> OwnerAt(stages, j) {}
    forall j | 0 <= j < |stages'| && stages'[j].Some?
      ensures StageOk(c', stages'[j].value)
    {
      if j != i {
        assert OwnerAt(stages, j) <==> Owns(stages[j].value);
      }
    }
  }

  // ------------------------------------------------ invariant of the system

  function StageOn(pc: PC, target: Target): Option<Stage> {
    match target
    case ContextDefault => if pc.InContext? || pc.InQueueContext? then Some(pc.st) else None
    case QueueDefault =>
      if pc.InQueue? then Some(pc.st) else if pc.InQueueContext? then Some(Build) else None
  }

  function Stages(threads: seq<Thread>, target: Target): (r: seq<Option<Stage>>)
    ensures |r| == |threads|
    ensures forall i :: 0 <= i < |r| ==> r[i] == StageOn(threads[i].pc, target)
  {
    seq(|threads|, i requires 0 <= i < |threads| => StageOn(threads[i].pc, target))
  }

  function CellOf(s: State, target: Target): Cell {
    if target.ContextDefault? then s.context else s.queue
  }

  /** What a return must look like: the cell is published and the return repeats it. */
  predicate Reports(s: State, r: Return) {
    var c := CellOf(s, r.call.target);
    c.flag == INITIALIZED && r.value == c.value
    && r.error == if r.call.wantError then Some(c.error) else None
  }

  // A stage past the error read holds an error exactly when the caller passed a pointer.
  predicate SeenOk(want: bool, st: Stage) {
    && (st.ReadError? ==> want)
    && (st.ReadValue? ==> st.seen.Some? == want)
    && (st.Finished? ==> st.seenError.Some? == want)
  }

  predicate PCOk(pc: PC) {
    match pc
    case Idle => true
    case InContext(want, st) => SeenOk(want, st)
    case InQueue(want, st) => SeenOk(want, st)
    case InQueueContext(_, st) => SeenOk(true, st)
  }

  function Calls(log: seq<Return>): (r: seq<Call>)
    ensures |r| == |log|
    ensures forall k :: 0 <= k < |r| ==> r[k] == log[k].call
  {
    seq(|log|, k requires 0 <= k < |log| => log[k].call)
  }

  function Pending(t: Thread): seq<Call> {
    match t.pc
    case Idle => t.todo
    case InContext(want, _) => [Call(ContextDefault, want)] + t.todo
    case _ => [Call(QueueDefault, t.pc.want)] + t.todo
  }

  ghost predicate ThreadOk(s: State, t: Thread, script: seq<Call>) {
    && PCOk(t.pc)
    && (forall k :: 0 <= k < |t.log| ==> Reports(s, t.log[k]))
    && Calls(t.log) + Pending(t) == script
  }

  /** A built queue was built from a published context, and inherits its error. */
  predicate Nested(s: State) {
    s.queue.built.Some? ==>
      s.context.flag == INITIALIZED
      && (s.context.error != CL_SUCCESS ==> s.queue.built.value == Outcome(NULL, s.context.error))
  }

  ghost predicate Inv(s: State, scripts: seq<seq<Call>>) {
    && |s.threads| == |scripts|
    && Protocol(s.context, Stages(s.threads, ContextDefault))
    && Protocol(s.queue, Stages(s.threads, QueueDefault))
    && (forall i :: 0 <= i < |scripts| ==> ThreadOk(s, s.threads[i], scripts[i]))
    && Nested(s)
  }

  lemma StagesUpdate(threads: seq<Thread>, i: nat, t: Thread, target: Target)
    requires i < |threads|
    ensures Stages(threads[i := t], target) == Stages(threads, target)[i := StageOn(t.pc, target)]
  {
  }

  /** What one thread's step can do to a cell and to the stage the thread holds on it: nothing,
      join, leave, one access, or bring back the outcome of a nested call. */
  ghost predicate Moves(c: Cell, st: Option<Stage>, c': Cell, st': Option<Stage>) {
    || (c' == c && st' == st)
    || (c' == c && st == None && st' == Some(Exchange))
    || (c' == c && st.Some? && st.value.Finished? && st' == None)
    || (st.Some? && st'.Some? && exists want: bool, o: Outcome :: (c', st'.value) == CellStep(c, st.value, want, o))
    || (st == Some(Build) && st'.Some? && exists e: int, o: Outcome ::
          (c', st'.value) == (c.(built := Some(QueueBuilt(c, e, o).0)), QueueBuilt(c, e, o).1))
  }

  lemma ThreadStepMoves(c: Cell, q: Cell, t: Thread, o: Outcome)
    ensures var (c', q', t') := ThreadStep(c, q, t, o);
            && Moves(c, StageOn(t.pc, ContextDefault), c', StageOn(t'.pc, ContextDefault))
            && Moves(q, StageOn(t.pc, QueueDefault), q', StageOn(t'.pc, QueueDefault))
  {
    match t.pc
    case Idle =>
    case InContext(want, st) => var _ := CellStep(c, st, want, o);
    case InQueue(want, st) => var _ := CellStep(q, st, want, o);
    case InQueueContext(_, st) =>
      var _ := CellStep(c, st, true, o);
      var e := if st.Finished? && st.seenError.Some? then st.seenError.value else CL_SUCCESS;
      var _ := QueueBuilt(q, e, o);
  }

  /** Whatever a thread does to a cell, the cell's protocol survives. */
  lemma MoveKeepsProtocol(c: Cell, stages: seq<Option<Stage>>, i: nat, c': Cell, st': Option<Stage>)
    requires Protocol(c, stages) && i < |stages| && Moves(c, stages[i], c', st')
    ensures Protocol(c', stages[i := st']) && Extends(c, c')
  {
    var st := stages[i];
    if c' == c && st' == st {
      assert stages[i := st'] == stages;
    } else if c' == c && (st == None || st.value.Finished?) && (st' == None || st' == Some(Exchange)) {
      JoinLeaveKeepsProtocol(c, stages, i, st');
    } else if want: bool, o: Outcome :| (c', st'.value) == CellStep(c, st.value, want, o) {
      CellStepKeepsProtocol(c, stages, i, want, o);
    } else {
      var e: int, o: Outcome :| (c', st'.value) == (c.(built := Some(QueueBuilt(c, e, o).0)), QueueBuilt(c, e, o).1);
      BuiltKeepsProtocol(c, stages, i, e, o);
    }
  }

  /** The stage and cell of one default after a step, in terms of those before. */
  lemma StepMoves(s: State, ch: Choice, target: Target)
    requires ch.thread < |s.threads|
    ensures var s', stages := Step(s, ch), Stages(s.threads, target);
            && Stages(s'.threads, target) == stages[ch.thread := StageOn(s'.threads[ch.thread].pc, target)]
            && Moves(CellOf(s, target), stages[ch.thread],
                     CellOf(s', target), StageOn(s'.threads[ch.thread].pc, target))
  {
    ThreadStepMoves(s.context, s.queue, s.threads[ch.thread], ch.outcome);
    StagesUpdate(s.threads, ch.thread, Step(s, ch).threads[ch.thread], target);
  }

  /** The protocol of each default survives every step, whatever the other default does; and what a
      step builds is what a constructor yielded, or a failure the queue inherits. */
  lemma StepKeepsProtocol(s: State, ch: Choice, target: Target)
    requires Protocol(CellOf(s, target), Stages(s.threads, target))
    ensures var c, c', s' := CellOf(s, target), CellOf(Step(s, ch), target), Step(s, ch);
            && Protocol(c', Stages(s'.threads, target)) && Extends(c, c')
            && (c'.built == c.built || c'.built == Some(ch.outcome)
                || (target.QueueDefault? && c'.built.Some? && c'.built.value.value == c.value
                    && c'.built.value.error != CL_SUCCESS))
  {
    if ch.thread < |s.threads| {
      var s' := Step(s, ch);
      StepMoves(s, ch, target);
      MoveKeepsProtocol(CellOf(s, target), Stages(s.threads, target), ch.thread,
                        CellOf(s', target), StageOn(s'.threads[ch.thread].pc, target));
    }
  }

  // The stages a thread holds satisfy their stage conditions.
  ghost predicate Placed(c: Cell, q: Cell, t: Thread) {
    && (StageOn(t.pc, ContextDefault).Some? ==> StageOk(c, StageOn(t.pc, ContextDefault).value))
    && (StageOn(t.pc, QueueDefault).Some? ==> StageOk(q, StageOn(t.pc, QueueDefault).value))
  }

  // One step starts the next call, finishes the current one, or leaves the script alone.
  lemma ThreadStepOnScript(c: Cell, q: Cell, t: Thread, o: Outcome)
    ensures var t' := ThreadStep(c, q, t, o).2;
            || (t'.log == t.log && Pending(t') == Pending(t))
            || (!t.pc.Idle? && t'.pc.Idle? && t'.todo == t.todo && |t'.log| == |t.log| + 1 && t'.log[..|t.log|] == t.log
                && [t'.log[|t.log|].call] + t.todo == Pending(t))
  {
    match t.pc
    case Idle => assert t.todo != [] ==> t.todo == [t.todo[0]] + t.todo[1..];
    case InContext(_, _) =>
    case InQueue(_, _) =>
    case InQueueContext(_, _) =>
  }

  lemma ThreadStepKeepsCalls(c: Cell, q: Cell, t: Thread, o: Outcome)
    ensures var t' := ThreadStep(c, q, t, o).2; Calls(t'.log) + Pending(t') == Calls(t.log) + Pending(t)
  {
    ThreadStepOnScript(c, q, t, o);
    var t' := ThreadStep(c, q, t, o).2;
    if t'.log != t.log {
      FinishKeepsCalls(t, t');
    }
  }

  lemma FinishKeepsCalls(t: Thread, t': Thread)
    requires t'.pc.Idle? && t'.todo == t.todo && |t'.log| == |t.log| + 1 && t'.log[..|t.log|] == t.log
    requires [t'.log[|t.log|].call] + t.todo == Pending(t)
    ensures Calls(t'.log) + Pending(t') == Calls(t.log) + Pending(t)
  {
    var last := t'.log[|t.log|].call;
    assert Calls(t'.log) == Calls(t.log) + [last] by {
      assert forall k :: 0 <= k < |t.log| ==> t'.log[k] == t'.log[..|t.log|][k];
    }
    assert (Calls(t.log) + [last]) + t.todo == Calls(t.log) + ([last] + t.todo);
  }

  lemma ThreadStepReports(s: State, t: Thread, o: Outcome, s': State)
    requires Placed(s.context, s.queue, t) && PCOk(t.pc)
    requires Extends(s.context, s'.context) && Extends(s.queue, s'.queue)
    requires forall k :: 0 <= k < |t.log| ==> Reports(s, t.log[k])
    ensures var t' := ThreadStep(s.context, s.queue, t, o).2;
            PCOk(t'.pc) && forall k :: 0 <= k < |t'.log| ==> Reports(s', t'.log[k])
  {
    var t' := ThreadStep(s.context, s.queue, t, o).2;
    assert t'.log == t.log || (|t'.log| == |t.log| + 1 && t'.log[..|t.log|] == t.log && Reports(s', t'.log[|t.log|]));
    forall k | 0 <= k < |t'.log| ensures Reports(s', t'.log[k]) {
      if k < |t.log| {
        assert t'.log[k] == t.log[k];
        assert Reports(s, t.log[k]);
      }
    }
  }

  lemma ThreadStepKeepsNested(s: State, t: Thread, o: Outcome)
    requires Placed(s.context, s.queue, t) && PCOk(t.pc) && Nested(s)
    requires CellOk(s.queue)
    ensures var (c, q, t') := ThreadStep(s.context, s.queue, t, o); Nested(State(c, q, s.threads))
  {
  }

  lemma StepKeepsThread(s: State, ch: Choice, scripts: seq<seq<Call>>, i: nat)
    requires Inv(s, scripts) && ch.thread < |s.threads| && i < |scripts|
    requires Extends(s.context, Step(s, ch).context) && Extends(s.queue, Step(s, ch).queue)
    ensures ThreadOk(Step(s, ch), Step(s, ch).threads[i], scripts[i])
  {
    var t := s.threads[i];
    assert ThreadOk(s, t, scripts[i]);
    if i == ch.thread {
      ThreadStepKeepsCalls(s.context, s.queue, t, ch.outcome);
      ThreadStepReports(s, t, ch.outcome, Step(s, ch));
    }
  }

  lemma StepKeepsInv(s: State, ch: Choice, scripts: seq<seq<Call>>)
    requires Inv(s, scripts)
    ensures Inv(Step(s, ch), scripts)
    ensures Extends(s.context, Step(s, ch).context) && Extends(s.queue, Step(s, ch).queue)
  {
    if ch.thread < |s.threads| {
      var t, s' := s.threads[ch.thread], Step(s, ch);
      assert ThreadOk(s, t, scripts[ch.thread]);
      StepKeepsProtocol(s, ch, ContextDefault);
      StepKeepsProtocol(s, ch, QueueDefault);
      ThreadStepKeepsNested(s, t, ch.outcome);
      forall i | 0 <= i < |scripts| ensures ThreadOk(s', s'.threads[i], scripts[i]) {
        StepKeepsThread(s, ch, scripts, i);
      }
    }
  }

  /** The invariant holds in every reachable state, for any number of threads and calls. */
  lemma {:induction false} Reachable(scripts: seq<seq<Call>>, choices: seq<Choice>)
    ensures Inv(Run(Launch(scripts), choices), scripts)
  {
    if choices == [] {
      var s := Launch(scripts);
      forall i | 0 <= i < |scripts| ensures ThreadOk(s, s.threads[i], scripts[i]) {
        assert Calls([]) + scripts[i] == scripts[i];
      }
    } else {
      Reachable(scripts, choices[..|choices| - 1]);
      StepKeepsInv(Run(Launch(scripts), choices[..|choices| - 1]),
                   choices[|choices| - 1], scripts);
    }
  }
}
