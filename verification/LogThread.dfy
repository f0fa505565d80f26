/**
 The log thread as a state machine: producers enqueue messages or log them directly, the
 thread takes the whole queue at a time and logs it, and logging is started and stopped at
 any moment. Every step below is one atomic action of one party.
 */
module LogThread {
  import opened Wrappers

  type Message = nat

  /** Where a producer stands inside add. */
  datatype Producer = Idle | Enqueuing(m: Message) | LoggingDirectly(m: Message)

  /** Where the thread stands inside run; batch holds what is left of the batch it took. */
  datatype Runner = Off | Checking | Looking | Taking | Logging(batch: seq<Message>)

  /**
   enqueued, logged and direct are histories: messages put into the queue, logged by the
   thread, and logged by producers themselves.
   */
  datatype State = State(
    working: bool,
    queue: seq<Message>,
    producers: seq<Producer>,
    runner: Runner,
    enqueued: seq<Message>,
    logged: seq<Message>,
    direct: seq<Message>)

  datatype Action =
    | SetWorking
    | StartThread
    | ClearWorking
    | BeginAdd(p: nat, m: Message)
    | FinishAdd(p: nat)
    | CheckWorking
    | LookAtQueue
    | TakeBatch
    | LogOne

  ghost predicate Init(s: State) {
    s == State(false, [], s.producers, Off, [], [], [])
    && forall p :: 0 <= p < |s.producers| ==> s.producers[p] == Idle
  }

  /** One atomic step; console tells whether a console is attached. */
  ghost predicate Next(s: State, a: Action, s': State, console: bool) {
    match a
    // startLogging sets the flag before it starts the thread; starting a running thread does nothing.
    case SetWorking => s' == s.(working := true)
    case StartThread => s' == s.(runner := if s.runner == Off then Checking else s.runner)
    case ClearWorking => s' == s.(working := false)
    // add tests the flag outside the lock.
    case BeginAdd(p, m) =>
      && p < |s.producers| && s.producers[p] == Idle
      && s' == s.(producers := s.producers[p := if console && s.working then Enqueuing(m) else LoggingDirectly(m)])
    case FinishAdd(p) =>
      && p < |s.producers| && s.producers[p] != Idle
      && var done := s.producers[p := Idle];
         if s.producers[p].Enqueuing?
         then s' == s.(queue := s.queue + [s.producers[p].m], enqueued := s.enqueued + [s.producers[p].m],
                       producers := done)
         else s' == s.(direct := s.direct + [s.producers[p].m], producers := done)
    case CheckWorking =>
      s.runner == Checking && s' == s.(runner := if s.working then Looking else Off)
    // isEmpty is read without the lock; an empty queue sends the thread to sleep and back to the check.
    case LookAtQueue =>
      s.runner == Looking && s' == s.(runner := if s.queue == [] then Checking else Taking)
    case TakeBatch =>
      s.runner == Taking && s' == s.(runner := Logging(s.queue), queue := [])
    case LogOne =>
      && s.runner.Logging?
      && if s.runner.batch == [] then s' == s.(runner := Checking)
         else s' == s.(runner := Logging(s.runner.batch[1..]), logged := s.logged + [s.runner.batch[0]])
  }

  /** Messages the thread has taken and not logged yet. */
  function Pending(s: State): seq<Message> {
    if s.runner.Logging? then s.runner.batch else []
  }

  ghost predicate Inv(s: State) {
    && s.enqueued == s.logged + Pending(s) + s.queue
    && (s.runner == Taking ==> s.queue != [])
  }

  /** A run: the states before, between and after the actions. */
  ghost predicate IsRun(states: seq<State>, actions: seq<Action>, console: bool) {
    && |states| == |actions| + 1
    && Init(states[0])
    && forall i :: 0 <= i < |actions| ==> Next(states[i], actions[i], states[i + 1], console)
  }

  lemma StepKeepsInv(s: State, a: Action, s': State, console: bool)
    requires Inv(s) && Next(s, a, s', console)
    ensures Inv(s')
  {
    match a
    case FinishAdd(p) =>
      if s.producers[p].Enqueuing? {
        ConcatAssociates(s.logged + Pending(s), s.queue, [s.producers[p].m]);
      }
    case TakeBatch =>
      assert s.logged + [] + s.queue == s.logged + s.queue + [];
    case LogOne =>
      if s.runner.batch == [] {
      } else {
        assert s.runner.batch == [s.runner.batch[0]] + s.runner.batch[1..];
        ConcatAssociates(s.logged, [s.runner.batch[0]], s.runner.batch[1..]);
      }
    case _ =>
  }

  /**
   Nothing enqueued is lost, duplicated or reordered: in every state of every interleaving the
   messages enqueued are those the thread logged, then the rest of its batch, then the queue.
   */
  lemma {:induction false} NothingLostOrReordered(states: seq<State>, actions: seq<Action>, console: bool, n: nat)
    requires IsRun(states, actions, console) && n < |states|
    ensures states[n].enqueued == states[n].logged + Pending(states[n]) + states[n].queue
    ensures Inv(states[n])
  {
    if n > 0 {
      NothingLostOrReordered(states, actions, console, n - 1);
      StepKeepsInv(states[n - 1], actions[n - 1], states[n], console);
    }
  }

  /** The thread never takes an empty batch, although it looks at the queue without the lock. */
  lemma BatchesAreNotEmpty(states: seq<State>, actions: seq<Action>, console: bool, n: nat)
    requires IsRun(states, actions, console) && n < |actions| && actions[n] == TakeBatch
    ensures states[n + 1].runner.Logging? && states[n + 1].runner.batch != []
  {
    NothingLostOrReordered(states, actions, console, n);
  }

  lemma StepOnlyAdds(s: State, a: Action, s': State, console: bool)
    requires Next(s, a, s', console)
    ensures s.logged <= s'.logged && s.enqueued <= s'.enqueued
  {
  }

  /** Logging only ever adds to what was logged before, in the order of enqueueing. */
  lemma {:induction false} LoggedIsAPrefix(states: seq<State>, actions: seq<Action>, console: bool, n: nat, k: nat)
    requires IsRun(states, actions, console) && n <= k < |states|
    ensures states[n].logged <= states[k].logged <= states[k].enqueued
    ensures states[n].enqueued <= states[k].enqueued
  {
    NothingLostOrReordered(states, actions, console, k);
    ConcatAssociates(states[k].logged, Pending(states[k]), states[k].queue);
    if n < k {
      LoggedIsAPrefix(states, actions, console, n, k - 1);
      StepOnlyAdds(states[k - 1], actions[k - 1], states[k], console);
    }
  }

  // ------------------------------------------------------- what is left unlogged

  /** The step puts a message into the queue. */
  predicate Enqueues(s: State, a: Action) {
    a.FinishAdd? && a.p < |s.producers| && s.producers[a.p].Enqueuing?
  }

  /** The messages that the first n steps enqueued after the last batch among them was taken. */
  function EnqueuedSinceBatch(states: seq<State>, actions: seq<Action>, n: nat): seq<Message>
    requires n <= |actions| < |states|
  {
    if n == 0 || actions[n - 1] == TakeBatch then []
    else
      EnqueuedSinceBatch(states, actions, n - 1)
      + (if Enqueues(states[n - 1], actions[n - 1]) then [states[n - 1].producers[actions[n - 1].p].m] else [])
  }

  /** Whatever the first n steps enqueued, they took a batch after it. */
  ghost predicate BatchAfterEveryEnqueue(states: seq<State>, actions: seq<Action>, n: nat)
    requires n <= |actions| < |states|
  {
    forall i | 0 <= i < n && Enqueues(states[i], actions[i]) :: TakenBetween(actions, i, n)
  }

  ghost predicate TakenBetween(actions: seq<Action>, i: nat, n: nat)
    requires n <= |actions|
  {
    exists j :: i < j < n && actions[j] == TakeBatch
  }

  lemma {:induction false} SinceBatchIsEmptyIff(states: seq<State>, actions: seq<Action>, n: nat)
    requires n <= |actions| < |states|
    ensures EnqueuedSinceBatch(states, actions, n) == [] <==> BatchAfterEveryEnqueue(states, actions, n)
  {
    if n > 0 {
      SinceBatchIsEmptyIff(states, actions, n - 1);
      if actions[n - 1] == TakeBatch {
        forall i | 0 <= i < n && Enqueues(states[i], actions[i]) ensures TakenBetween(actions, i, n) {
          assert i < n - 1;
        }
      } else {
        forall i | 0 <= i < n - 1 ensures TakenBetween(actions, i, n) <==> TakenBetween(actions, i, n - 1) {
          if TakenBetween(actions, i, n) {
            var j :| i < j < n && actions[j] == TakeBatch;
            assert j != n - 1;
          }
        }
        assert !TakenBetween(actions, n - 1, n);
      }
    }
  }

  /** The queue holds what came in after the last batch was taken. */
  lemma {:induction false} QueueIsEnqueuedSinceBatch(states: seq<State>, actions: seq<Action>, console: bool, n: nat)
    requires IsRun(states, actions, console) && n < |states|
    ensures states[n].queue == EnqueuedSinceBatch(states, actions, n)
  {
    if n > 0 {
      QueueIsEnqueuedSinceBatch(states, actions, console, n - 1);
      assert Next(states[n - 1], actions[n - 1], states[n], console);
    }
  }

  /**
   Once the thread has ended, what is never logged is exactly what was enqueued after it took
   its last batch: everything is logged if and only if a batch was taken after every enqueue.
   */
  lemma UnloggedIsEnqueuedAfterLastBatch(states: seq<State>, actions: seq<Action>, console: bool, n: nat)
    requires IsRun(states, actions, console) && n < |states| && states[n].runner == Off
    ensures states[n].enqueued == states[n].logged + EnqueuedSinceBatch(states, actions, n)
    ensures states[n].logged == states[n].enqueued <==> BatchAfterEveryEnqueue(states, actions, n)
  {
    NothingLostOrReordered(states, actions, console, n);
    QueueIsEnqueuedSinceBatch(states, actions, console, n);
    SinceBatchIsEmptyIff(states, actions, n);
    hide IsRun, Inv, EnqueuedSinceBatch, BatchAfterEveryEnqueue;
    assert |states[n].enqueued| == |states[n].logged| + |states[n].queue|;
  }

  /**
   A message can stay behind without any race: it is enqueued, logging is stopped, and the
   thread ends without looking at the queue again.
   */
  lemma EndingDoesNotDrain(m: Message) returns (states: seq<State>, actions: seq<Action>)
    ensures IsRun(states, actions, true)
    ensures |states| == 7 && states[6].runner == Off && states[6].producers == [Idle]
    ensures states[6].enqueued == [m] && states[6].logged == []
    ensures actions == [SetWorking, StartThread, BeginAdd(0, m), FinishAdd(0), ClearWorking, CheckWorking]
  {
    var s0 := State(false, [], [Idle], Off, [], [], []);
    var s1 := s0.(working := true);
    var s2 := s1.(runner := Checking);
    var s3 := s2.(producers := [Enqueuing(m)]);
    var s4 := s3.(producers := [Idle], queue := [m], enqueued := [m]);
    var s5 := s4.(working := false);
    var s6 := s5.(runner := Off);
    states := [s0, s1, s2, s3, s4, s5, s6];
    actions := [SetWorking, StartThread, BeginAdd(0, m), FinishAdd(0), ClearWorking, CheckWorking];
  }

  /**
   Or with one: a producer finds logging on, logging is stopped, the thread ends, and only then
   the producer enqueues.
   */
  lemma StoppingLeavesMessageBehind(m: Message) returns (states: seq<State>, actions: seq<Action>)
    ensures IsRun(states, actions, true)
    ensures |states| == 7 && states[6].runner == Off
    ensures states[6].enqueued == [m] && states[6].logged == []
  {
    var s0 := State(false, [], [Idle], Off, [], [], []);
    var s1 := s0.(working := true);
    var s2 := s1.(runner := Checking);
    var s3 := s2.(producers := [Enqueuing(m)]);
    var s4 := s3.(working := false);
    var s5 := s4.(runner := Off);
    var s6 := s5.(producers := [Idle], queue := [m], enqueued := [m]);
    states := [s0, s1, s2, s3, s4, s5, s6];
    actions := [SetWorking, StartThread, BeginAdd(0, m), ClearWorking, CheckWorking, FinishAdd(0)];
  }

  // ----------------------------------------------------- accounting for every add

  /** Messages handed to add so far. */
  ghost function Added(actions: seq<Action>): multiset<Message> {
    if actions == [] then multiset{}
    else
      var a := actions[|actions| - 1];
      Added(actions[..|actions| - 1]) + (if a.BeginAdd? then multiset{a.m} else multiset{})
  }

  function Held(p: Producer): multiset<Message> {
    match p
    case Idle => multiset{}
    case Enqueuing(m) => multiset{m}
    case LoggingDirectly(m) => multiset{m}
  }

  /** Messages whose add has not finished. */
  function InFlight(producers: seq<Producer>): multiset<Message> {
    if producers == [] then multiset{}
    else InFlight(producers[..|producers| - 1]) + Held(producers[|producers| - 1])
  }

  lemma Swap(a: multiset<Message>, b: multiset<Message>, c: multiset<Message>)
    ensures a + b + c == a + c + b
  {
  }

  lemma InFlightLast(ps: seq<Producer>, last: Producer)
    ensures InFlight(ps + [last]) == InFlight(ps) + Held(last)
  {
    assert (ps + [last])[..|ps|] == ps;
  }

  lemma {:induction false} InFlightUpdate(ps: seq<Producer>, p: nat, x: Producer)
    requires p < |ps|
    ensures InFlight(ps[p := x]) + Held(ps[p]) == InFlight(ps) + Held(x)
  {
    hide InFlight, Held;
    var n := |ps| - 1;
    var first, last := ps[..n], ps[n];
    assert ps == first + [last];
    InFlightLast(first, last);
    if p < n {
      InFlightUpdate(first, p, x);
      assert ps[p := x] == first[p := x] + [last];
      InFlightLast(first[p := x], last);
      Swap(InFlight(first[p := x]), Held(last), Held(ps[p]));
      Swap(InFlight(first), Held(last), Held(x));
    } else {
      assert ps[p := x] == first + [x];
      InFlightLast(first, x);
      Swap(InFlight(first), Held(last), Held(x));
    }
  }

  lemma {:induction false} NoneInFlight(ps: seq<Producer>)
    requires forall p :: 0 <= p < |ps| ==> ps[p] == Idle
    ensures InFlight(ps) == multiset{}
  {
    if ps != [] {
      NoneInFlight(ps[..|ps| - 1]);
    }
  }

  /** The messages a state accounts for: enqueued, logged directly, or still inside add. */
  function Accounted(s: State): multiset<Message> {
    multiset(s.enqueued) + multiset(s.direct) + InFlight(s.producers)
  }

  lemma StepAccounts(s: State, a: Action, s': State, console: bool)
    requires Next(s, a, s', console)
    ensures Accounted(s') == Accounted(s) + (if a.BeginAdd? then multiset{a.m} else multiset{})
  {
    hide InFlight;
    match a
    case BeginAdd(p, m) =>
      InFlightUpdate(s.producers, p, s'.producers[p]);
      assert Held(s.producers[p]) == multiset{} && Held(s'.producers[p]) == multiset{m};
      assert InFlight(s'.producers) == InFlight(s'.producers) + multiset{} == InFlight(s.producers) + multiset{m};
      var e, d, f := multiset(s.enqueued), multiset(s.direct), InFlight(s.producers);
      assert e + d + (f + multiset{m}) == e + d + f + multiset{m};
    case FinishAdd(p) =>
      FinishAccounts(s, p, s', console);
    case _ =>
  }

  lemma FinishAccounts(s: State, p: nat, s': State, console: bool)
    requires Next(s, FinishAdd(p), s', console)
    ensures Accounted(s') == Accounted(s)
  {
    hide InFlight;
    InFlightUpdate(s.producers, p, Idle);
    var m := s.producers[p].m;
    assert InFlight(s'.producers) + multiset{m} == InFlight(s.producers);
    var e, d, f := multiset(s.enqueued), multiset(s.direct), InFlight(s'.producers);
    assert e + multiset{m} + d + f == e + d + (f + multiset{m});
    assert e + (d + multiset{m}) + f == e + d + (f + multiset{m});
  }

  /** Every message handed to add is accounted for exactly once, under every interleaving. */
  lemma {:induction false} EveryMessageAccounted(states: seq<State>, actions: seq<Action>, console: bool)
    requires IsRun(states, actions, console)
    ensures Accounted(states[|actions|]) == Added(actions)
  {
    if actions == [] {
      NoneInFlight(states[0].producers);
    } else {
      var n := |actions| - 1;
      EveryMessageAccounted(states[..n + 1], actions[..n], console);
      StepAccounts(states[n], actions[n], states[n + 1], console);
    }
  }

  // ------------------------------------------------------- who logs

  ghost predicate HoldsNone(ps: seq<Producer>, enqueuing: bool) {
    forall p :: 0 <= p < |ps| ==> !(if enqueuing then ps[p].Enqueuing? else ps[p].LoggingDirectly?)
  }

  /** Without a console, or as long as logging is stopped, every producer logs for itself and nothing is queued. */
  lemma {:induction false} NothingIsQueuedWhileStopped(
    states: seq<State>, actions: seq<Action>, console: bool, n: nat)
    requires IsRun(states, actions, console) && n < |states|
    requires forall i :: 0 <= i < n && actions[i].BeginAdd? ==> !console || !states[i].working
    ensures states[n].enqueued == [] && states[n].queue == [] && HoldsNone(states[n].producers, true)
  {
    if n > 0 {
      NothingIsQueuedWhileStopped(states, actions, console, n - 1);
      assert Next(states[n - 1], actions[n - 1], states[n], console);
    }
  }

  /** With a console, no producer logs for itself unless it finds logging stopped. */
  lemma {:induction false} WhileWorkingNothingIsDirect(states: seq<State>, actions: seq<Action>, n: nat)
    requires IsRun(states, actions, true) && n < |states|
    requires forall i :: 0 <= i < n && actions[i].BeginAdd? ==> states[i].working
    ensures states[n].direct == [] && HoldsNone(states[n].producers, false)
  {
    if n > 0 {
      WhileWorkingNothingIsDirect(states, actions, n - 1);
      assert Next(states[n - 1], actions[n - 1], states[n], true);
    }
  }
}
