/**
 Concurrent calls of cl2's `getDefault` and `setDefault`, at the granularity of the once-flags:
 `std::call_once` lets one thread run an initialiser and blocks the others that ask for the same
 class, while other classes may be set or initialised in between.
 */
module Interleavings {
  import opened Common
  import opened Defaults

  /** The calls a thread has yet to answer, and the initialisers it is in, the innermost last. */
  datatype Thread = Thread(todo: seq<Call>, stack: seq<Class>)

  /** A completed call; `nested` if an initialiser made it. */
  datatype Entry = Entry(thread: nat, call: Call, nested: bool, report: Default)

  datatype Machine = Machine(state: State, threads: seq<Thread>, log: seq<Entry>)

  /** Some thread runs the initialiser of the class. */
  predicate Running(threads: seq<Thread>, c: Class) {
    exists i :: 0 <= i < |threads| && c in threads[i].stack
  }

  /** The class whose `getDefault` an initialiser calls next. That of a class whose flag is spent
      only reads what never changes again, and is no step of its own. */
  function Needs(s: State, c: Class): Option<Class> {
    match c
    case Platform => None
    case Context => if Platform in s then None else Some(Platform)
    case Device => if Context in s then None else Some(Context)
    case Queue =>
      if Context !in s then Some(Context)
      else if s[Context].error != CL_SUCCESS || Device in s then None else Some(Device)
  }

  /** The innermost initialiser of thread `i` goes on: it enters another one, waits for the thread
      that runs that one, or assigns its class's default, which spends the flag. */
  function Initialise(env: Env, m: Machine, i: nat): Machine
    requires i < |m.threads| && m.threads[i].stack != []
  {
    var Thread(todo, stack) := m.threads[i];
    var c, outer := stack[|stack| - 1], stack[..|stack| - 1];
    match Needs(m.state, c)
    case Some(d) =>
      if Running(m.threads, d) then m else m.(threads := m.threads[i := Thread(todo, stack + [d])])
    case None =>
      var s' := Touch(env, m.state, c);
      var rest := if outer == [] && todo != [] then todo[1..] else todo;
      Machine(s', m.threads[i := Thread(rest, outer)], m.log + [Entry(i, Get(c), outer != [], s'[c])])
  }

  /** One step of thread `i`; a thread that waits, or is done, leaves everything as it is. */
  function ThreadStep(env: Env, m: Machine, i: nat): Machine {
    if i >= |m.threads| then m
    else
      var Thread(todo, stack) := m.threads[i];
      if stack != [] then Initialise(env, m, i)
      else if todo == [] then m
      else if todo[0].c !in m.state && Running(m.threads, todo[0].c) then m
      else if todo[0].c in m.state || todo[0].Set? then
        var s' := Step(env, m.state, todo[0]);
        Machine(s', m.threads[i := Thread(todo[1..], [])], m.log + [Entry(i, todo[0], false, s'[todo[0].c])])
      else
        m.(threads := m.threads[i := Thread(todo, [todo[0].c])])
  }

  function Launch(scripts: seq<seq<Call>>): Machine {
    Machine(map[], seq(|scripts|, i requires 0 <= i < |scripts| => Thread(scripts[i], [])), [])
  }

  function Interleave(env: Env, m: Machine, schedule: seq<nat>): Machine {
    if schedule == [] then m
    else ThreadStep(env, Interleave(env, m, schedule[..|schedule| - 1]), schedule[|schedule| - 1])
  }

  function Calls(log: seq<Entry>): (r: seq<Call>)
    ensures |r| == |log| && forall k :: 0 <= k < |log| ==> r[k] == log[k].call
  {
    seq(|log|, k requires 0 <= k < |log| => log[k].call)
  }

  /** The calls of its own that thread `i` has completed. */
  function Answered(log: seq<Entry>, i: nat): seq<Call> {
    if log == [] then []
    else
      var front, last := log[..|log| - 1], log[|log| - 1];
      Answered(front, i) + if last.thread == i && !last.nested then [last.call] else []
  }

  // ------------------------------------------------------------ the invariant

  /** A thread is in initialisers of unspent classes, each of lower rank than the one that called
      it, the outermost for its call at hand. */
  ghost predicate StackOk(s: State, t: Thread) {
    && (t.stack != [] ==> t.todo != [] && t.todo[0] == Get(t.stack[0]))
    && (forall a, b :: 0 <= a < b < |t.stack| ==> Rank(t.stack[a]) > Rank(t.stack[b]))
    && (forall a :: 0 <= a < |t.stack| ==> t.stack[a] !in s)
  }

  ghost predicate Exclusive(threads: seq<Thread>) {
    forall i, j, c ::
      0 <= i < |threads| && 0 <= j < |threads| && c in threads[i].stack && c in threads[j].stack ==> i == j
  }

  ghost predicate Inv(env: Env, m: Machine, scripts: seq<seq<Call>>) {
    && |m.threads| == |scripts| && Exclusive(m.threads)
    && m.state == Run(env, map[], Calls(m.log))
    && (forall k :: 0 <= k < |m.log| ==>
          m.log[k].call.c in m.state && m.log[k].report == m.state[m.log[k].call.c])
    && (forall i :: 0 <= i < |scripts| ==>
          StackOk(m.state, m.threads[i]) && Answered(m.log, i) + m.threads[i].todo == scripts[i])
  }

  // An initialiser that needs nothing more adds its own class and no other.
  lemma TouchWhenReady(env: Env, s: State, c: Class)
    requires Needs(s, c) == None
    ensures Touch(env, s, c).Keys == s.Keys + {c}
    ensures forall d :: d in s ==> Touch(env, s, c)[d] == s[d]
  {
  }

  lemma LogSnoc(env: Env, m: Machine, e: Entry, i: nat)
    ensures Run(env, map[], Calls(m.log + [e])) == Step(env, Run(env, map[], Calls(m.log)), e.call)
    ensures Answered(m.log + [e], i) == Answered(m.log, i) + if e.thread == i && !e.nested then [e.call] else []
  {
    assert (m.log + [e])[..|m.log|] == m.log;
    assert Calls(m.log + [e]) == Calls(m.log) + [e.call];
    assert (Calls(m.log) + [e.call])[..|m.log|] == Calls(m.log);
  }

  // A thread enters an initialiser nobody runs.
  lemma EnterKeepsInv(env: Env, m: Machine, scripts: seq<seq<Call>>, i: nat, d: Class)
    requires Inv(env, m, scripts) && i < |m.threads| && !Running(m.threads, d) && d !in m.state
    requires var t := m.threads[i];
             if t.stack == [] then t.todo != [] && t.todo[0] == Get(d)
             else Rank(d) < Rank(t.stack[|t.stack| - 1])
    ensures Inv(env, m.(threads := m.threads[i := Thread(m.threads[i].todo, m.threads[i].stack + [d])]), scripts)
  {
    assert StackOk(m.state, m.threads[i]);
  }

  // Leaving the innermost initialiser, or none, once its class has its default.
  lemma LeaveKeepsStack(s: State, t: Thread, s': State, t': Thread, c: Class)
    requires StackOk(s, t) && s'.Keys == s.Keys + {c}
    requires t'.stack == t.stack == [] || (t.stack == t'.stack + [c] && (t'.stack != [] ==> t'.todo == t.todo))
    ensures StackOk(s', t')
  {
    if t.stack != [] {
      assert t.stack[|t'.stack|] == c;
      assert forall a :: 0 <= a < |t'.stack| ==> t'.stack[a] == t.stack[a];
    }
  }

  /** Thread `i` becomes `t'` by completing the call of `e`: one it makes itself, or that of the
      initialiser it leaves. */
  ghost predicate Completes(env: Env, m: Machine, i: nat, t': Thread, e: Entry) {
    && i < |m.threads| && e.thread == i
    && var t, s', c := m.threads[i], Step(env, m.state, e.call), e.call.c;
    && e.report == s'[c] && s'.Keys == m.state.Keys + {c} && (forall d :: d in m.state ==> s'[d] == m.state[d])
    && (t.stack == t'.stack == [] || t.stack == t'.stack + [c])
    && (e.nested <==> t'.stack != [])
    && (if e.nested then t'.todo == t.todo else t.todo != [] && t.todo[0] == e.call && t'.todo == t.todo[1..])
    && (c in m.state || !Running(m.threads, c) || c in t.stack)
  }

  lemma CompleteKeepsStacks(env: Env, m: Machine, i: nat, t': Thread, e: Entry, j: nat)
    requires Completes(env, m, i, t', e) && Exclusive(m.threads) && j < |m.threads|
    requires StackOk(m.state, m.threads[j])
    ensures StackOk(Step(env, m.state, e.call), m.threads[i := t'][j])
  {
    if j == i {
      LeaveKeepsStack(m.state, m.threads[i], Step(env, m.state, e.call), t', e.call.c);
    } else {
      assert e.call.c in m.threads[j].stack ==> Running(m.threads, e.call.c);
    }
  }

  lemma CompleteKeepsExclusive(env: Env, m: Machine, i: nat, t': Thread, e: Entry)
    requires Completes(env, m, i, t', e) && Exclusive(m.threads)
    ensures Exclusive(m.threads[i := t'])
  {
    var threads' := m.threads[i := t'];
    forall j, k, c | 0 <= j < |threads'| && 0 <= k < |threads'| && c in threads'[j].stack && c in threads'[k].stack
      ensures j == k
    {
      assert c in m.threads[j].stack && c in m.threads[k].stack;
    }
  }

  lemma CompleteKeepsAnswers(env: Env, m: Machine, i: nat, t': Thread, e: Entry, j: nat)
    requires Completes(env, m, i, t', e) && j < |m.threads|
    ensures Answered(m.log + [e], j) + m.threads[i := t'][j].todo == Answered(m.log, j) + m.threads[j].todo
  {
    LogSnoc(env, m, e, j);
    if j == i && !e.nested {
      assert (Answered(m.log, i) + [e.call]) + t'.todo == Answered(m.log, i) + m.threads[i].todo;
    }
  }

  lemma CompleteKeepsReports(env: Env, m: Machine, i: nat, t': Thread, e: Entry)
    requires Completes(env, m, i, t', e)
    requires forall k :: 0 <= k < |m.log| ==> m.log[k].call.c in m.state && m.log[k].report == m.state[m.log[k].call.c]
    ensures var s', log' := Step(env, m.state, e.call), m.log + [e];
            forall k :: 0 <= k < |log'| ==> log'[k].call.c in s' && log'[k].report == s'[log'[k].call.c]
  {
    var s', log' := Step(env, m.state, e.call), m.log + [e];
    forall k | 0 <= k < |log'| ensures log'[k].call.c in s' && log'[k].report == s'[log'[k].call.c] {
      assert k < |m.log| ==> log'[k] == m.log[k];
    }
  }

  lemma CompleteKeepsInv(env: Env, m: Machine, scripts: seq<seq<Call>>, i: nat, t': Thread, e: Entry)
    requires Inv(env, m, scripts) && Completes(env, m, i, t', e)
    ensures Inv(env, Machine(Step(env, m.state, e.call), m.threads[i := t'], m.log + [e]), scripts)
  {
    LogSnoc(env, m, e, i);
    CompleteKeepsExclusive(env, m, i, t', e);
    CompleteKeepsReports(env, m, i, t', e);
    forall j | 0 <= j < |scripts|
      ensures StackOk(Step(env, m.state, e.call), m.threads[i := t'][j])
      ensures Answered(m.log + [e], j) + m.threads[i := t'][j].todo == scripts[j]
    {
      CompleteKeepsStacks(env, m, i, t', e, j);
      CompleteKeepsAnswers(env, m, i, t', e, j);
    }
  }

  lemma InitialiseKeepsInv(env: Env, m: Machine, scripts: seq<seq<Call>>, i: nat)
    requires Inv(env, m, scripts) && i < |m.threads| && m.threads[i].stack != []
    ensures Inv(env, Initialise(env, m, i), scripts)
  {
    var t := m.threads[i];
    var c, outer := t.stack[|t.stack| - 1], t.stack[..|t.stack| - 1];
    assert StackOk(m.state, t);
    match Needs(m.state, c)
    case Some(d) =>
      if !Running(m.threads, d) {
        EnterKeepsInv(env, m, scripts, i, d);
      }
    case None =>
      TouchWhenReady(env, m.state, c);
      assert t.stack == outer + [c];
      CompleteKeepsInv(env, m, scripts, i, Thread(if outer == [] then t.todo[1..] else t.todo, outer),
                       Entry(i, Get(c), outer != [], Touch(env, m.state, c)[c]));
  }

  // A call whose class has its default, or that sets one nobody is initialising.
  lemma AnswerKeepsInv(env: Env, m: Machine, scripts: seq<seq<Call>>, i: nat)
    requires Inv(env, m, scripts) && i < |m.threads| && m.threads[i].stack == [] && m.threads[i].todo != []
    requires var call := m.threads[i].todo[0]; call.c in m.state || (call.Set? && !Running(m.threads, call.c))
    ensures Inv(env, ThreadStep(env, m, i), scripts)
  {
    var todo := m.threads[i].todo;
    CompleteKeepsInv(env, m, scripts, i, Thread(todo[1..], []),
                     Entry(i, todo[0], false, Step(env, m.state, todo[0])[todo[0].c]));
  }

  lemma StepKeepsInv(env: Env, m: Machine, scripts: seq<seq<Call>>, i: nat)
    requires Inv(env, m, scripts)
    ensures Inv(env, ThreadStep(env, m, i), scripts)
  {
    if i < |m.threads| {
      var t := m.threads[i];
      if t.stack != [] {
        InitialiseKeepsInv(env, m, scripts, i);
      } else if t.todo != [] && (t.todo[0].c in m.state || !Running(m.threads, t.todo[0].c)) {
        if t.todo[0].c in m.state || t.todo[0].Set? {
          AnswerKeepsInv(env, m, scripts, i);
        } else {
          EnterKeepsInv(env, m, scripts, i, t.todo[0].c);
        }
      }
    }
  }

  lemma {:induction false} Reachable(env: Env, scripts: seq<seq<Call>>, schedule: seq<nat>)
    ensures Inv(env, Interleave(env, Launch(scripts), schedule), scripts)
  {
    if schedule != [] {
      Reachable(env, scripts, schedule[..|schedule| - 1]);
      StepKeepsInv(env, Interleave(env, Launch(scripts), schedule[..|schedule| - 1]), scripts,
                   schedule[|schedule| - 1]);
    }
  }

  /** Every interleaving is a sequential run: the calls in the order in which they complete, those
      that initialisers make included, leave the same defaults and give the same reports. Each
      thread's own calls come in the order of its script. */
  lemma InterleavingsAreSequential(env: Env, scripts: seq<seq<Call>>, schedule: seq<nat>)
    ensures var m := Interleave(env, Launch(scripts), schedule);
            && m.state == Run(env, map[], Calls(m.log))
            && (forall k :: 0 <= k < |m.log| ==> m.log[k].report == Report(env, Calls(m.log), k))
            && |m.threads| == |scripts|
            && (forall i :: 0 <= i < |scripts| ==> Answered(m.log, i) + m.threads[i].todo == scripts[i])
  {
    Reachable(env, scripts, schedule);
    var m := Interleave(env, Launch(scripts), schedule);
    forall k | 0 <= k < |m.log| ensures m.log[k].report == Report(env, Calls(m.log), k) {
      ReportIsFinal(env, Calls(m.log), k);
    }
  }

  // ---------------------------------------------------------------- progress

  predicate CanStep(env: Env, m: Machine, i: nat) {
    ThreadStep(env, m, i) != m
  }

  // From a thread inside an initialiser the waiting leads down the ranks to one that can go on.
  lemma {:induction false} WaitingEnds(env: Env, m: Machine, scripts: seq<seq<Call>>, i: nat) returns (j: nat)
    requires Inv(env, m, scripts) && i < |m.threads| && m.threads[i].stack != []
    ensures CanStep(env, m, j)
    decreases Rank(m.threads[i].stack[|m.threads[i].stack| - 1])
  {
    var stack := m.threads[i].stack;
    var need := Needs(m.state, stack[|stack| - 1]);
    if need.Some? && Running(m.threads, need.value) {
      var k: nat :| k < |m.threads| && need.value in m.threads[k].stack;
      assert StackOk(m.state, m.threads[k]);
      j := WaitingEnds(env, m, scripts, k);
    } else {
      j := i;
      assert ThreadStep(env, m, i).threads[i].stack != stack;
    }
  }

  /** No interleaving deadlocks: while a thread has calls to answer, some thread can step. */
  lemma NeverDeadlocked(env: Env, scripts: seq<seq<Call>>, schedule: seq<nat>, i: nat) returns (j: nat)
    requires var m := Interleave(env, Launch(scripts), schedule); i < |m.threads| && m.threads[i].todo != []
    ensures CanStep(env, Interleave(env, Launch(scripts), schedule), j)
  {
    Reachable(env, scripts, schedule);
    var m := Interleave(env, Launch(scripts), schedule);
    var t := m.threads[i];
    if t.stack != [] {
      j := WaitingEnds(env, m, scripts, i);
    } else if Running(m.threads, t.todo[0].c) {
      var k: nat :| k < |m.threads| && t.todo[0].c in m.threads[k].stack;
      j := WaitingEnds(env, m, scripts, k);
    } else {
      j := i;
      assert ThreadStep(env, m, i).threads[i] != t;
    }
  }

  // --------------------------- the initialisers' own calls cannot be left out

  const ENV := Env(Ids(1), p => Default(2, CL_SUCCESS), c => 3, (c, d) => Default(4, CL_SUCCESS))

  const SETS := [Set(Context, 7), Set(Device, 9)]

  // What the second thread is told.
  const FOUND := Default(2, CL_SUCCESS)
  const PROVIDED := Default(9, CL_SUCCESS)

  // The states of an interleaving in which the first thread gets the queue, and the second makes
  // its two calls once the context is built.
  function During(k: nat): Machine
    requires k <= 8
  {
    var s1 := map[Platform := Default(1, CL_SUCCESS)];
    var s2 := s1[Context := FOUND];
    var s3 := s2[Device := PROVIDED];
    var log := [Entry(0, Get(Platform), true, Default(1, CL_SUCCESS)),
                Entry(0, Get(Context), true, Default(2, CL_SUCCESS)),
                Entry(1, Set(Context, 7), false, FOUND),
                Entry(1, Set(Device, 9), false, PROVIDED),
                Entry(0, Get(Queue), false, Default(4, CL_SUCCESS))];
    match k
    case 0 => Machine(map[], [Thread([Get(Queue)], []), Thread(SETS, [])], [])
    case 1 => Machine(map[], [Thread([Get(Queue)], [Queue]), Thread(SETS, [])], [])
    case 2 => Machine(map[], [Thread([Get(Queue)], [Queue, Context]), Thread(SETS, [])], [])
    case 3 => Machine(map[], [Thread([Get(Queue)], [Queue, Context, Platform]), Thread(SETS, [])], [])
    case 4 => Machine(s1, [Thread([Get(Queue)], [Queue, Context]), Thread(SETS, [])], log[..1])
    case 5 => Machine(s2, [Thread([Get(Queue)], [Queue]), Thread(SETS, [])], log[..2])
    case 6 => Machine(s2, [Thread([Get(Queue)], [Queue]), Thread(SETS[1..], [])], log[..3])
    case 7 => Machine(s3, [Thread([Get(Queue)], [Queue]), Thread([], [])], log[..4])
    case 8 => Machine(s3[Queue := Default(4, CL_SUCCESS)], [Thread([], []), Thread([], [])], log)
  }

  function Scheduled(k: nat): nat {
    if k == 5 || k == 6 then 1 else 0
  }

  lemma FirstSteps(k: nat)
    requires k < 5
    ensures ThreadStep(ENV, During(k), Scheduled(k)) == During(k + 1)
  {
    var stack := [Queue, Context, Platform];
    match k
    case 0 =>
    case 1 => assert !Running(During(1).threads, Context) && [Queue] + [Context] == stack[..2] == [Queue, Context];
    case 2 => assert !Running(During(2).threads, Platform) && [Queue, Context] + [Platform] == stack;
    case 3 => assert stack[..2] == [Queue, Context];
    case 4 => assert [Queue, Context][..1] == [Queue];
  }

  lemma LastSteps(k: nat)
    requires 5 <= k < 8
    ensures ThreadStep(ENV, During(k), Scheduled(k)) == During(k + 1)
  {
    assert During(k + 1).log == During(k).log + [During(8).log[k - 3]];
    match k
    case 5 => assert SETS[0] == Set(Context, 7);
    case 6 =>
      assert SETS[1..] == [Set(Device, 9)] && SETS[1..][1..] == [];
      assert Step(ENV, During(6).state, Set(Device, 9)) == During(7).state;
      assert !Running(During(6).threads, Device);
    case 7 => assert [Queue][..0] == [];
  }

  function Schedule(k: nat): (r: seq<nat>)
    ensures |r| == k && forall i :: 0 <= i < k ==> r[i] == Scheduled(i)
  {
    seq(k, i requires 0 <= i < k => Scheduled(i))
  }

  /** The second thread finds a context it did not set, and then sets the device of the queue that is
      being built. */
  lemma {:induction false} SetsComeBetween(k: nat)
    requires k <= 8
    ensures Interleave(ENV, Launch([[Get(Queue)], SETS]), Schedule(k)) == During(k)
  {
    if k > 0 {
      SetsComeBetween(k - 1);
      assert Schedule(k)[..k - 1] == Schedule(k - 1);
      if k <= 5 { FirstSteps(k - 1); } else { LastSteps(k - 1); }
    }
  }

  lemma DeviceIsBuilt()
    ensures var s := Touch(ENV, map[], Queue);
            Context in s && Device in s && s[Device] == Default(3, CL_SUCCESS)
  {
    var s := Touch(ENV, map[], Context);
    assert s == map[Platform := Default(1, CL_SUCCESS), Context := Default(2, CL_SUCCESS)];
    assert Touch(ENV, s, Device)[Device] == Default(3, CL_SUCCESS);
  }

  lemma QueueFirst()
    ensures Report(ENV, [Get(Queue)] + SETS, 2) != PROVIDED
  {
    var calls := [Get(Queue)] + SETS;
    var s := Touch(ENV, map[], Queue);
    DeviceIsBuilt();
    assert [Get(Queue)][..0] == [];
    assert Run(ENV, map[], [Get(Queue)]) == s;
    assert calls[..2][..1] == [Get(Queue)] && calls[..2][1] == SETS[0];
    assert Run(ENV, map[], calls[..2]) == s;
  }

  lemma SetFirst(rest: seq<Call>)
    ensures Report(ENV, [SETS[0]] + rest, 0) != FOUND
  {
    assert ([SETS[0]] + rest)[..0] == [];
  }

  /** No sequential run of those three calls alone that keeps the second thread's two in order gives
      these reports: a `getDefault` of the queue is not one atomic step. */
  lemma NoOrderOfTheCallsAlone(k: nat)
    requires k <= 2
    ensures var calls := SETS[..k] + [Get(Queue)] + SETS[k..];
            || Report(ENV, calls, if k == 0 then 1 else 0) != FOUND
            || Report(ENV, calls, if k <= 1 then 2 else 1) != PROVIDED
  {
    var calls := SETS[..k] + [Get(Queue)] + SETS[k..];
    if k == 0 {
      assert calls == [Get(Queue)] + SETS;
      QueueFirst();
    } else {
      assert calls == [SETS[0]] + calls[1..];
      SetFirst(calls[1..]);
    }
  }
}
