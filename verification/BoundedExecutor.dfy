/** The bounded worker pool: callers that submit under a lock, a queue of fixed capacity, workers, and a
    shutdown that sends each worker one stop. A run is any interleaving of their atomic steps. */
module BoundedExecutor {
  import opened Numbers
  import opened Sums

  /** A queued item; a command is known by the index of its caller. */
  datatype WorkItem = Execute(caller: nat) | Stop

  datatype CallerPc =
    | Waiting     // about to take the submit lock
    | Checking    // about to look at the stopping flag
    | Sending     // about to send, once the queue has room
    | Awaiting    // about to receive the response
    | Answered
    | Refused

  /** A call of `execute`, with how often its command was run and how often it was answered. `answer` is what it was
      told last: the result of its command (`true`) or that the pool is stopping (`false`). */
  datatype Caller = Caller(pc: CallerPc, runs: nat, responses: nat, answer: Option<bool>)

  datatype Worker =
    | Receiving
    | Deciding(caller: nat)                      // about to look at the stopping flag
    | Running(caller: nat)
    | Responding(caller: nat, executed: bool)
    | Exited

  /** A call of `shutdown`; `Late` is one that found the pool already stopping. */
  datatype Closer = Before | Closing | SendingStops(left: nat) | Joining | Closed | Late

  datatype Holder = Nobody | ByCaller(i: nat) | ByCloser(i: nat)

  /** `sent` and `received` only remember which commands went into the queue and came out of it. */
  datatype Pool = Pool(capacity: nat, queue: seq<WorkItem>, submit: Holder, stopping: bool,
                       callers: seq<Caller>, workers: seq<Worker>, closers: seq<Closer>,
                       sent: seq<nat>, received: seq<nat>)

  datatype Event = CallerStep(i: nat) | WorkerStep(i: nat) | CloserStep(i: nat)

  function Start(capacity: nat, callers: nat, workers: nat, closers: nat): Pool {
    Pool(capacity, [], Nobody, false,
         seq(callers, i => Caller(Waiting, 0, 0, None)), seq(workers, i => Receiving), seq(closers, i => Before),
         [], [])
  }

  predicate AllExited(workers: seq<Worker>) {
    forall i :: 0 <= i < |workers| ==> workers[i].Exited?
  }

  predicate Enabled(s: Pool, e: Event) {
    match e
    case CallerStep(i) =>
      && i < |s.callers|
      && (match s.callers[i].pc
          case Waiting => s.submit.Nobody?
          case Checking => true
          case Sending => |s.queue| < s.capacity
          case Awaiting => 0 < s.callers[i].responses
          case Answered => false
          case Refused => false)
    case WorkerStep(i) =>
      && i < |s.workers| && !s.workers[i].Exited?
      && (s.workers[i].Receiving? ==> s.queue != [])
      && (!s.workers[i].Receiving? ==> s.workers[i].caller < |s.callers|)
    case CloserStep(i) =>
      && i < |s.closers|
      && (match s.closers[i]
          case Before => s.submit.Nobody?
          case Closing => true
          case SendingStops(left) => left == 0 || |s.queue| < s.capacity
          case Joining => AllExited(s.workers)
          case Closed => false
          case Late => false)
  }

  function StepCaller(s: Pool, i: nat): Pool
    requires Enabled(s, CallerStep(i))
  {
    var c := s.callers[i];
    match c.pc
    case Waiting => s.(submit := ByCaller(i), callers := s.callers[i := c.(pc := Checking)])
    case Checking =>
      if s.stopping then s.(submit := Nobody, callers := s.callers[i := c.(pc := Refused)])
      else s.(callers := s.callers[i := c.(pc := Sending)])
    case Sending =>
      s.(queue := s.queue + [Execute(i)], submit := Nobody, callers := s.callers[i := c.(pc := Awaiting)],
         sent := s.sent + [i])
    case Awaiting => s.(callers := s.callers[i := c.(pc := Answered)])
  }

  function StepWorker(s: Pool, i: nat): Pool
    requires Enabled(s, WorkerStep(i))
  {
    match s.workers[i]
    case Receiving =>
      var item := s.queue[0];
      s.(queue := s.queue[1..], workers := s.workers[i := if item.Stop? then Exited else Deciding(item.caller)],
         received := s.received + if item.Stop? then [] else [item.caller])
    case Deciding(p) => s.(workers := s.workers[i := if s.stopping then Responding(p, false) else Running(p)])
    case Running(p) =>
      s.(workers := s.workers[i := Responding(p, true)],
         callers := s.callers[p := s.callers[p].(runs := s.callers[p].runs + 1)])
    case Responding(p, executed) =>
      s.(workers := s.workers[i := Receiving],
         callers := s.callers[p := s.callers[p].(
           responses := s.callers[p].responses + 1, answer := Some(executed))])
  }

  function StepCloser(s: Pool, i: nat): Pool
    requires Enabled(s, CloserStep(i))
  {
    match s.closers[i]
    case Before => s.(submit := ByCloser(i), closers := s.closers[i := Closing])
    case Closing =>
      if s.stopping then s.(submit := Nobody, closers := s.closers[i := Late])
      else s.(submit := Nobody, stopping := true, closers := s.closers[i := SendingStops(|s.workers|)])
    case SendingStops(left) =>
      if left == 0 then s.(closers := s.closers[i := Joining])
      else s.(queue := s.queue + [Stop], closers := s.closers[i := SendingStops(left - 1)])
    case Joining => s.(closers := s.closers[i := Closed])
  }

  function Step(s: Pool, e: Event): Pool
    requires Enabled(s, e)
  {
    match e
    case CallerStep(i) => StepCaller(s, i)
    case WorkerStep(i) => StepWorker(s, i)
    case CloserStep(i) => StepCloser(s, i)
  }

  // Counting

  function IsStop(w: WorkItem): nat {
    if w.Stop? then 1 else 0
  }

  function HasExited(w: Worker): nat {
    if w.Exited? then 1 else 0
  }

  function ToSend(c: Closer): nat {
    if c.SendingStops? then c.left else 0
  }

  // The invariants

  /** The submit lock belongs to the one thread between taking and giving it back, and a caller that has seen
      the pool running still sees it running when it sends. */
  ghost predicate LockIsSound(s: Pool) {
    && (forall i :: 0 <= i < |s.callers| ==>
          && (s.callers[i].pc.Checking? || s.callers[i].pc.Sending? <==> s.submit == ByCaller(i))
          && (s.callers[i].pc.Sending? ==> !s.stopping))
    && (forall i :: 0 <= i < |s.closers| ==> (s.closers[i].Closing? <==> s.submit == ByCloser(i)))
    && (s.submit.ByCaller? ==> s.submit.i < |s.callers|) && (s.submit.ByCloser? ==> s.submit.i < |s.closers|)
  }

  ghost predicate StopsComeLast(queue: seq<WorkItem>) {
    forall i, j :: 0 <= i < j < |queue| && queue[i].Stop? ==> queue[j].Stop?
  }

  /** The queue is bounded; commands come before stops; and once a worker has left, only stops are left. */
  ghost predicate QueueIsSound(s: Pool) {
    && |s.queue| <= s.capacity && StopsComeLast(s.queue)
    && (forall i :: 0 <= i < |s.workers| && s.workers[i].Exited? ==>
          s.stopping && forall j :: 0 <= j < |s.queue| ==> s.queue[j].Stop?)
    && (!s.stopping ==> forall j :: 0 <= j < |s.queue| ==> s.queue[j].Execute?)
  }

  predicate Active(c: Closer) {
    c.SendingStops? || c.Joining? || c.Closed?
  }

  /** One shutdown does the work. */
  ghost predicate OneCloser(s: Pool) {
    && (forall i, j :: 0 <= i < j < |s.closers| ==> !(Active(s.closers[i]) && Active(s.closers[j])))
    && (forall i :: 0 <= i < |s.closers| && Active(s.closers[i]) ==> s.stopping)
    && (s.stopping ==> exists i :: 0 <= i < |s.closers| && Active(s.closers[i]))
    && (forall i :: 0 <= i < |s.closers| && s.closers[i].Closed? ==> AllExited(s.workers))
  }

  /** Every worker is owed exactly one stop: it is still to be sent, or queued, or was received. */
  ghost predicate StopsAreCounted(s: Pool) {
    Sum(s.queue, IsStop) + Sum(s.workers, HasExited) + Sum(s.closers, ToSend) == if s.stopping then |s.workers| else 0
  }

  function Queued(w: WorkItem, p: nat): nat {
    if w == Execute(p) then 1 else 0
  }

  function Held(w: Worker, p: nat): nat {
    if !w.Receiving? && !w.Exited? && w.caller == p then 1 else 0
  }

  function JustRun(w: Worker, p: nat): nat {
    if w.Responding? && w.caller == p && w.executed then 1 else 0
  }

  function Accepted(c: Caller): nat {
    if c.pc.Awaiting? || c.pc.Answered? then 1 else 0
  }

  /** An accepted command is in exactly one place: queued, with a worker, or answered; and it was run before
      it was answered, if at all. */
  ghost predicate IsConserved(s: Pool, p: nat) {
    p < |s.callers| ==>
      && Sum(s.queue, w => Queued(w, p)) + Sum(s.workers, w => Held(w, p)) + s.callers[p].responses
          == Accepted(s.callers[p])
      && s.callers[p].runs <= Sum(s.workers, w => JustRun(w, p)) + s.callers[p].responses
      && (s.callers[p].pc.Answered? ==> 0 < s.callers[p].responses)
  }

  ghost predicate CallersExist(s: Pool) {
    && (forall j :: 0 <= j < |s.queue| && s.queue[j].Execute? ==> s.queue[j].caller < |s.callers|)
    && (forall i :: 0 <= i < |s.workers| && !s.workers[i].Receiving? && !s.workers[i].Exited? ==>
        s.workers[i].caller < |s.callers|)
  }

  ghost predicate Inv(s: Pool) {
    LockIsSound(s) && QueueIsSound(s) && OneCloser(s) && StopsAreCounted(s) && CallersExist(s)
  }

  lemma LockStaysSound(s: Pool, e: Event)
    requires Enabled(s, e) && LockIsSound(s)
    ensures LockIsSound(Step(s, e))
  {
  }

  lemma CallersStillExist(s: Pool, e: Event)
    requires Enabled(s, e) && CallersExist(s)
    ensures CallersExist(Step(s, e))
  {
  }

  lemma QueueStaysSound(s: Pool, e: Event)
    requires Enabled(s, e) && LockIsSound(s) && QueueIsSound(s) && OneCloser(s)
    ensures QueueIsSound(Step(s, e))
  {
  }

  lemma StillOneCloser(s: Pool, e: Event)
    requires Enabled(s, e) && OneCloser(s)
    ensures OneCloser(Step(s, e))
  {
    var t := Step(s, e);
    if s.stopping {
      var i :| 0 <= i < |s.closers| && Active(s.closers[i]);
      assert Active(t.closers[i]);
    } else if t.stopping {
      assert Active(t.closers[e.i]);
    }
  }

  lemma WorkersCountStops(s: Pool, i: nat)
    requires Enabled(s, WorkerStep(i)) && StopsAreCounted(s)
    ensures StopsAreCounted(StepWorker(s, i))
  {
    SumUpdate(s.workers, HasExited, i, StepWorker(s, i).workers[i]);
    if s.workers[i].Receiving? {
      SumPop(s.queue, IsStop);
    }
  }

  lemma ClosersCountStops(s: Pool, i: nat)
    requires Enabled(s, CloserStep(i)) && StopsAreCounted(s)
    ensures StopsAreCounted(StepCloser(s, i))
  {
    SumPush(s.queue, IsStop, Stop);
    SumUpdate(s.closers, ToSend, i, StepCloser(s, i).closers[i]);
  }

  lemma StopsStayCounted(s: Pool, e: Event)
    requires Enabled(s, e) && StopsAreCounted(s)
    ensures StopsAreCounted(Step(s, e))
  {
    match e
    case CallerStep(i) => SumPush(s.queue, IsStop, Execute(i));
    case WorkerStep(i) => WorkersCountStops(s, i);
    case CloserStep(i) => ClosersCountStops(s, i);
  }

  lemma CallersConserve(s: Pool, i: nat, p: nat)
    requires Enabled(s, CallerStep(i)) && IsConserved(s, p)
    ensures IsConserved(StepCaller(s, i), p)
  {
  }

  /** A worker's step moves a command from the queue to the worker, or from the worker to its response. */
  lemma WorkersMoveCommands(s: Pool, i: nat, p: nat)
    requires Enabled(s, WorkerStep(i)) && p < |s.callers|
    ensures var t := StepWorker(s, i);
            Sum(t.queue, w => Queued(w, p)) + Sum(t.workers, w => Held(w, p)) + t.callers[p].responses
            == Sum(s.queue, w => Queued(w, p)) + Sum(s.workers, w => Held(w, p)) + s.callers[p].responses
  {
    SumUpdate(s.workers, w => Held(w, p), i, StepWorker(s, i).workers[i]);
    if s.workers[i].Receiving? {
      SumPop(s.queue, w => Queued(w, p));
    }
  }

  /** A run is still on record until the response takes over. */
  lemma WorkersRecordRuns(s: Pool, i: nat, p: nat)
    requires Enabled(s, WorkerStep(i)) && p < |s.callers|
    ensures var t := StepWorker(s, i);
            t.callers[p].runs + Sum(s.workers, w => JustRun(w, p)) + s.callers[p].responses
            <= s.callers[p].runs + Sum(t.workers, w => JustRun(w, p)) + t.callers[p].responses
  {
    SumUpdate(s.workers, w => JustRun(w, p), i, StepWorker(s, i).workers[i]);
  }

  lemma WorkersConserve(s: Pool, i: nat, p: nat)
    requires Enabled(s, WorkerStep(i)) && IsConserved(s, p)
    ensures IsConserved(StepWorker(s, i), p)
  {
    if p < |s.callers| {
      WorkersMoveCommands(s, i, p);
      WorkersRecordRuns(s, i, p);
    }
  }

  lemma StaysConserved(s: Pool, e: Event, p: nat)
    requires Enabled(s, e) && IsConserved(s, p)
    ensures IsConserved(Step(s, e), p)
  {
    match e
    case CallerStep(i) => CallersConserve(s, i, p);
    case WorkerStep(i) => WorkersConserve(s, i, p);
    case CloserStep(i) => SumPush(s.queue, w => Queued(w, p), Stop);
  }

  lemma StepKeepsInv(s: Pool, e: Event)
    requires Enabled(s, e) && Inv(s)
    ensures Inv(Step(s, e))
  {
    LockStaysSound(s, e);
    QueueStaysSound(s, e);
    StillOneCloser(s, e);
    StopsStayCounted(s, e);
    CallersStillExist(s, e);
  }

  lemma StartSatisfiesInv(capacity: nat, callers: nat, workers: nat, closers: nat)
    ensures Inv(Start(capacity, callers, workers, closers))
  {
    var s := Start(capacity, callers, workers, closers);
    SumIs(s.workers, HasExited, 0);
    SumIs(s.closers, ToSend, 0);
  }

  lemma StartIsConserved(capacity: nat, callers: nat, workers: nat, closers: nat, p: nat)
    ensures IsConserved(Start(capacity, callers, workers, closers), p)
  {
    var s := Start(capacity, callers, workers, closers);
    SumIs(s.workers, w => Held(w, p), 0);
  }

  // Runs

  datatype Setup = Setup(capacity: nat, callers: nat, workers: nat, closers: nat)

  function Run(c: Setup, events: seq<Event>): Option<Pool> {
    if events == [] then Some(Start(c.capacity, c.callers, c.workers, c.closers))
    else
      var before := Run(c, events[..|events| - 1]);
      var e := events[|events| - 1];
      if before.Some? && Enabled(before.value, e) then Some(Step(before.value, e)) else None
  }

  lemma {:induction false} RunsSatisfyInv(c: Setup, events: seq<Event>)
    requires Run(c, events).Some?
    ensures Inv(Run(c, events).value)
    ensures var s := Run(c, events).value;
            |s.workers| == c.workers && |s.callers| == c.callers && |s.closers| == c.closers && s.capacity == c.capacity
  {
    if events == [] {
      StartSatisfiesInv(c.capacity, c.callers, c.workers, c.closers);
    } else {
      var init := events[..|events| - 1];
      RunsSatisfyInv(c, init);
      StepKeepsInv(Run(c, init).value, events[|events| - 1]);
    }
  }

  lemma {:induction false} RunsConserve(c: Setup, events: seq<Event>, p: nat)
    requires Run(c, events).Some?
    ensures IsConserved(Run(c, events).value, p)
  {
    if events == [] {
      StartIsConserved(c.capacity, c.callers, c.workers, c.closers, p);
    } else {
      var init := events[..|events| - 1];
      RunsConserve(c, init, p);
      StaysConserved(Run(c, init).value, events[|events| - 1], p);
    }
  }

  lemma {:induction false} RunsAreHeld(workers: seq<Worker>, p: nat)
    ensures Sum(workers, w => JustRun(w, p)) <= Sum(workers, w => Held(w, p))
  {
    if workers != [] {
      RunsAreHeld(workers[..|workers| - 1], p);
    }
  }

  /** In every interleaving: the queue is bounded, commands come before stops, and every command is run at
      most once and answered at most once, and not at all unless it was accepted. */
  lemma EveryCommandAtMostOnce(c: Setup, events: seq<Event>, p: nat)
    requires Run(c, events).Some? && p < c.callers
    ensures var s := Run(c, events).value;
            && |s.queue| <= c.capacity && StopsComeLast(s.queue) && |s.callers| == c.callers
            && s.callers[p].responses <= Accepted(s.callers[p]) && s.callers[p].runs <= Accepted(s.callers[p])
            && (s.callers[p].pc.Answered? ==> s.callers[p].responses == 1)
  {
    RunsSatisfyInv(c, events);
    RunsConserve(c, events, p);
    RunsAreHeld(Run(c, events).value.workers, p);
  }

  /** While the pool is not stopping, nothing is refused and whatever is answered has been run. */
  ghost predicate NothingIsRefused(s: Pool, p: nat) {
    p < |s.callers| && !s.stopping ==>
      && !s.callers[p].pc.Refused?
      && (forall i :: 0 <= i < |s.workers| && s.workers[i].Responding? ==> s.workers[i].executed)
      && s.callers[p].runs == Sum(s.workers, w => JustRun(w, p)) + s.callers[p].responses
  }

  lemma StillNothingIsRefused(s: Pool, e: Event, p: nat)
    requires Enabled(s, e) && NothingIsRefused(s, p)
    ensures NothingIsRefused(Step(s, e), p)
  {
    if e.WorkerStep? {
      SumUpdate(s.workers, w => JustRun(w, p), e.i, StepWorker(s, e.i).workers[e.i]);
    }
  }

  lemma {:induction false} RunsRefuseNothing(c: Setup, events: seq<Event>, p: nat)
    requires Run(c, events).Some?
    ensures NothingIsRefused(Run(c, events).value, p)
  {
    if events == [] {
      SumIs(Start(c.capacity, c.callers, c.workers, c.closers).workers, w => JustRun(w, p), 0);
    } else {
      var init := events[..|events| - 1];
      RunsRefuseNothing(c, init, p);
      StillNothingIsRefused(Run(c, init).value, events[|events| - 1], p);
    }
  }

  /** Until a shutdown begins, every call that returns returns the result of its command, run exactly once. */
  lemma EveryCommandIsRun(c: Setup, events: seq<Event>, p: nat)
    requires Run(c, events).Some? && p < c.callers && !Run(c, events).value.stopping
    ensures var s := Run(c, events).value;
            && |s.callers| == c.callers && !s.callers[p].pc.Refused?
            && (s.callers[p].pc.Answered? ==> s.callers[p].runs == 1)
  {
    RunsSatisfyInv(c, events);
    RunsConserve(c, events, p);
    RunsAreHeld(Run(c, events).value.workers, p);
    RunsRefuseNothing(c, events, p);
  }

  // Answers

  function Told(c: Caller): nat {
    if c.answer == Some(true) then 1 else 0
  }

  /** Every run is on record: with the worker that ran the command, or in the answer its caller was given. */
  ghost predicate AnswersAreTrue(s: Pool, p: nat) {
    p < |s.callers| ==>
      && s.callers[p].runs == Sum(s.workers, w => JustRun(w, p)) + Told(s.callers[p])
      && s.callers[p].responses == if s.callers[p].answer.Some? then 1 else 0
  }

  lemma WorkersAnswerTruly(s: Pool, i: nat, p: nat)
    requires Enabled(s, WorkerStep(i)) && IsConserved(s, p) && AnswersAreTrue(s, p)
    ensures AnswersAreTrue(StepWorker(s, i), p)
  {
    if p < |s.callers| {
      SumUpdate(s.workers, w => JustRun(w, p), i, StepWorker(s, i).workers[i]);
      SumHas(s.workers, w => Held(w, p), i);
    }
  }

  lemma OthersAnswerTruly(s: Pool, e: Event, p: nat)
    requires Enabled(s, e) && !e.WorkerStep? && AnswersAreTrue(s, p)
    ensures AnswersAreTrue(Step(s, e), p)
  {
  }

  lemma {:induction false} RunsAnswerTruly(c: Setup, events: seq<Event>, p: nat)
    requires Run(c, events).Some?
    ensures AnswersAreTrue(Run(c, events).value, p)
  {
    if events == [] {
      SumIs(Start(c.capacity, c.callers, c.workers, c.closers).workers, w => JustRun(w, p), 0);
    } else {
      var init, e := events[..|events| - 1], events[|events| - 1];
      RunsAnswerTruly(c, init, p);
      RunsConserve(c, init, p);
      if e.WorkerStep? {
        WorkersAnswerTruly(Run(c, init).value, e.i, p);
      } else {
        OthersAnswerTruly(Run(c, init).value, e, p);
      }
    }
  }

  /** A call that has returned got the result of its command if and only if the command was run, exactly once, and
      the error if and only if it was never run. */
  lemma AnswersTellWhatHappened(c: Setup, events: seq<Event>, p: nat)
    requires Run(c, events).Some? && p < c.callers
    ensures var s := Run(c, events).value;
            && |s.callers| == c.callers
            && (s.callers[p].pc.Answered? ==>
                  && (s.callers[p].answer == Some(true) <==> s.callers[p].runs == 1)
                  && (s.callers[p].answer == Some(false) <==> s.callers[p].runs == 0)
                  && s.callers[p].answer.Some?)
            && (s.callers[p].pc.Refused? ==> s.callers[p].runs == 0)
  {
    RunsSatisfyInv(c, events);
    RunsConserve(c, events, p);
    RunsAnswerTruly(c, events, p);
    RunsAreHeld(Run(c, events).value.workers, p);
    var caller := Run(c, events).value.callers[p];
    if caller.answer.Some? {
      assert caller.answer.value || caller.answer == Some(false);
    }
  }

  /** The pool is stopping, and command `p` has not been run and is not about to be. */
  ghost predicate WillNotRun(s: Pool, p: nat) {
    && s.stopping && p < |s.callers| && s.callers[p].runs == 0
    && forall i :: 0 <= i < |s.workers| ==> s.workers[i] != Running(p)
  }

  lemma StepStillWillNotRun(s: Pool, e: Event, p: nat)
    requires Enabled(s, e) && WillNotRun(s, p)
    ensures WillNotRun(Step(s, e), p)
  {
  }

  lemma RunOneMore(c: Setup, events: seq<Event>, e: Event)
    ensures Run(c, events + [e])
            == var before := Run(c, events);
               if before.Some? && Enabled(before.value, e) then Some(Step(before.value, e)) else None
  {
  }

  /** Once the pool is stopping, a command that no worker has begun to run is never run, whatever happens next; so
      if its call returns, it returns the error. */
  lemma {:induction false} NothingStartsAfterTheStop(c: Setup, events: seq<Event>, more: seq<Event>, p: nat)
    requires Run(c, events + more).Some?
    ensures Run(c, events).Some?
    ensures WillNotRun(Run(c, events).value, p) ==>
              var t := Run(c, events + more).value;
              WillNotRun(t, p) && (t.callers[p].pc.Answered? ==> t.callers[p].answer == Some(false))
    decreases |more|
  {
    if more == [] {
      assert events + more == events;
    } else {
      var init, e := more[..|more| - 1], more[|more| - 1];
      assert events + more == (events + init) + [e];
      RunOneMore(c, events + init, e);
      NothingStartsAfterTheStop(c, events, init, p);
      if WillNotRun(Run(c, events).value, p) {
        StepStillWillNotRun(Run(c, events + init).value, e, p);
      }
    }
    RunsSatisfyInv(c, events + more);
    if p < c.callers {
      AnswersTellWhatHappened(c, events + more, p);
    }
  }

  // Order

  function CommandOf(w: WorkItem): seq<nat> {
    if w.Execute? then [w.caller] else []
  }

  function Commands(queue: seq<WorkItem>): seq<nat> {
    if queue == [] then [] else CommandOf(queue[0]) + Commands(queue[1..])
  }

  lemma Regroup(a: seq<nat>, b: seq<nat>, c: seq<nat>)
    ensures (a + b) + c == a + (b + c)
  {
  }

  lemma {:induction false} CommandsPush(queue: seq<WorkItem>, w: WorkItem)
    ensures Commands(queue + [w]) == Commands(queue) + CommandOf(w)
    decreases |queue|
  {
    var longer := queue + [w];
    if queue == [] {
      assert longer[0] == w && longer[1..] == [];
    } else {
      CommandsPush(queue[1..], w);
      assert longer[0] == queue[0] && longer[1..] == queue[1..] + [w];
      Regroup(CommandOf(queue[0]), Commands(queue[1..]), CommandOf(w));
    }
  }

  ghost predicate OrderIsKept(s: Pool) {
    s.sent == s.received + Commands(s.queue)
  }

  lemma StepKeepsOrder(s: Pool, e: Event)
    requires Enabled(s, e) && OrderIsKept(s)
    ensures OrderIsKept(Step(s, e))
  {
    match e
    case CallerStep(i) => CommandsPush(s.queue, Execute(i));
    case WorkerStep(i) =>
      if s.workers[i].Receiving? {
        Regroup(s.received, CommandOf(s.queue[0]), Commands(s.queue[1..]));
      }
    case CloserStep(i) => CommandsPush(s.queue, Stop);
  }

  /** Commands are received in the order in which they were accepted. */
  lemma {:induction false} CommandsComeInOrder(c: Setup, events: seq<Event>)
    requires Run(c, events).Some?
    ensures var s := Run(c, events).value;
            s.received <= s.sent && s.sent == s.received + Commands(s.queue)
  {
    if events != [] {
      var init, e := events[..|events| - 1], events[|events| - 1];
      CommandsComeInOrder(c, init);
      StepKeepsOrder(Run(c, init).value, e);
    }
  }

  lemma {:induction false} ExitedAreCounted(workers: seq<Worker>)
    ensures Sum(workers, HasExited) <= |workers|
    ensures AllExited(workers) <==> Sum(workers, HasExited) == |workers|
  {
    if workers != [] {
      ExitedAreCounted(workers[..|workers| - 1]);
    }
  }

  lemma NothingIsHeld(workers: seq<Worker>, p: nat)
    requires forall i :: 0 <= i < |workers| ==> workers[i].Receiving? || workers[i].Exited?
    ensures Sum(workers, w => Held(w, p)) == 0
  {
  }

  /** When everything is sent and all have left, nothing is left over. */
  lemma NothingIsQueued(s: Pool)
    requires Inv(s) && AllExited(s.workers) && s.stopping && 0 < |s.workers|
    ensures s.queue == []
  {
    ExitedAreCounted(s.workers);
    assert s.workers[0].Exited?;
    if s.queue != [] {
      SumPop(s.queue, IsStop);
    }
  }

  /** A shutdown that has returned leaves every worker gone, each with the one stop it was sent, nothing in
      the queue, and every accepted command answered exactly once. */
  lemma ShutdownEndsClean(c: Setup, events: seq<Event>, k: nat, p: nat)
    requires Run(c, events).Some? && 0 < c.workers && k < c.closers && p < c.callers
    ensures var s := Run(c, events).value;
            && |s.closers| == c.closers && |s.callers| == c.callers
            && (s.closers[k].Closed? ==>
                  && AllExited(s.workers) && s.queue == [] && Sum(s.workers, HasExited) == c.workers
                  && s.callers[p].responses == Accepted(s.callers[p]))
  {
    var s := Run(c, events).value;
    RunsSatisfyInv(c, events);
    RunsConserve(c, events, p);
    if s.closers[k].Closed? {
      assert Active(s.closers[k]);
      NothingIsQueued(s);
      ExitedAreCounted(s.workers);
      NothingIsHeld(s.workers, p);
    }
  }

  // No schedule is stuck, and every schedule ends

  ghost predicate Done(s: Pool) {
    && (forall i :: 0 <= i < |s.callers| ==> s.callers[i].pc.Answered? || s.callers[i].pc.Refused?)
    && (forall k :: 0 <= k < |s.closers| ==> s.closers[k].Closed? || s.closers[k].Late?)
  }

  predicate Idle(w: Worker) {
    w.Receiving? || w.Exited?
  }

  /** As long as something is queued, some worker is there to receive it. */
  lemma SomeoneReceives(s: Pool) returns (i: nat)
    requires Inv(s) && 0 < |s.workers| && s.queue != []
    requires forall j :: 0 <= j < |s.workers| ==> Idle(s.workers[j])
    ensures i < |s.workers| && s.workers[i].Receiving?
  {
    if AllExited(s.workers) {
      assert s.workers[0].Exited?;
      NothingIsQueued(s);
    }
    i :| 0 <= i < |s.workers| && !s.workers[i].Exited?;
  }

  lemma {:induction false} NothingToSend(closers: seq<Closer>)
    requires forall i :: 0 <= i < |closers| ==> !closers[i].SendingStops?
    ensures Sum(closers, ToSend) == 0
  {
    SumIs(closers, ToSend, 0);
  }

  /** A shutdown that waits for the workers is not kept waiting by idle ones. */
  lemma JoiningCanEnd(s: Pool, k: nat)
    requires Inv(s) && k < |s.closers| && s.closers[k].Joining? && s.queue == []
    ensures AllExited(s.workers)
  {
    assert Active(s.closers[k]);
    forall i | 0 <= i < |s.closers| ensures !s.closers[i].SendingStops? {
      if s.closers[i].SendingStops? {
        assert Active(s.closers[i]);
      }
    }
    NothingToSend(s.closers);
    ExitedAreCounted(s.workers);
  }

  /** The step someone can take when all workers are idle and nothing is queued. */
  lemma NextWhenQuiet(s: Pool) returns (e: Event)
    requires Inv(s) && (forall p :: IsConserved(s, p)) && 0 < s.capacity && !Done(s)
    requires s.queue == [] && forall j :: 0 <= j < |s.workers| ==> Idle(s.workers[j])
    ensures Enabled(s, e)
  {
    if s.submit.ByCaller? {
      return CallerStep(s.submit.i);
    }
    if s.submit.ByCloser? {
      return CloserStep(s.submit.i);
    }
    if i :| 0 <= i < |s.callers| && !(s.callers[i].pc.Answered? || s.callers[i].pc.Refused?) {
      assert IsConserved(s, i);
      NothingIsHeld(s.workers, i);
      return CallerStep(i);
    }
    var k :| 0 <= k < |s.closers| && !(s.closers[k].Closed? || s.closers[k].Late?);
    if s.closers[k].Joining? {
      JoiningCanEnd(s, k);
    }
    return CloserStep(k);
  }

  /** No deadlock: until every call has returned, some thread can move. */
  lemma SomeThreadCanMove(s: Pool) returns (e: Event)
    requires Inv(s) && (forall p :: IsConserved(s, p)) && 0 < s.capacity && 0 < |s.workers| && !Done(s)
    ensures Enabled(s, e)
  {
    if i :| 0 <= i < |s.workers| && !Idle(s.workers[i]) {
      return WorkerStep(i);
    }
    if s.queue != [] {
      var i := SomeoneReceives(s);
      return WorkerStep(i);
    }
    e := NextWhenQuiet(s);
  }

  function CallerCost(c: Caller): nat {
    match c.pc
    case Waiting => 8
    case Checking => 7
    case Sending => 6
    case Awaiting => 1
    case Answered => 0
    case Refused => 0
  }

  function ItemCost(w: WorkItem): nat {
    if w.Execute? then 4 else 1
  }

  function WorkerCost(w: Worker): nat {
    match w
    case Receiving => 0
    case Deciding(_) => 3
    case Running(_) => 2
    case Responding(_, _) => 1
    case Exited => 0
  }

  function CloserCost(c: Closer, workers: nat): nat {
    match c
    case Before => 2 * workers + 4
    case Closing => 2 * workers + 3
    case SendingStops(left) => 2 * left + 2
    case Joining => 1
    case Closed => 0
    case Late => 0
  }

  /** A bound on the events still to come. */
  ghost function Remaining(s: Pool): nat {
    Sum(s.callers, CallerCost) + Sum(s.queue, ItemCost) + Sum(s.workers, WorkerCost)
    + Sum(s.closers, c => CloserCost(c, |s.workers|))
  }

  lemma CallersPay(s: Pool, i: nat)
    requires Enabled(s, CallerStep(i))
    ensures Remaining(StepCaller(s, i)) < Remaining(s)
  {
    SumUpdate(s.callers, CallerCost, i, StepCaller(s, i).callers[i]);
    SumPush(s.queue, ItemCost, Execute(i));
  }

  lemma WorkersPay(s: Pool, i: nat)
    requires Enabled(s, WorkerStep(i))
    ensures Remaining(StepWorker(s, i)) < Remaining(s)
  {
    var t := StepWorker(s, i);
    SumUpdate(s.workers, WorkerCost, i, t.workers[i]);
    if s.workers[i].Receiving? {
      SumPop(s.queue, ItemCost);
    } else {
      var p := s.workers[i].caller;
      SumUpdate(s.callers, CallerCost, p, t.callers[p]);
    }
  }

  lemma ClosersPay(s: Pool, i: nat)
    requires Enabled(s, CloserStep(i))
    ensures Remaining(StepCloser(s, i)) < Remaining(s)
  {
    SumUpdate(s.closers, c => CloserCost(c, |s.workers|), i, StepCloser(s, i).closers[i]);
    SumPush(s.queue, ItemCost, Stop);
  }

  /** Every schedule is finite. */
  lemma {:induction false} EveryScheduleEnds(c: Setup, events: seq<Event>)
    requires Run(c, events).Some?
    ensures |events| + Remaining(Run(c, events).value) <= 8 * c.callers + (2 * c.workers + 4) * c.closers
  {
    if events == [] {
      var s := Start(c.capacity, c.callers, c.workers, c.closers);
      SumIs(s.callers, CallerCost, 8);
      SumIs(s.workers, WorkerCost, 0);
      SumIs(s.closers, x => CloserCost(x, |s.workers|), 2 * c.workers + 4);
    } else {
      var init, e := events[..|events| - 1], events[|events| - 1];
      EveryScheduleEnds(c, init);
      match e
      case CallerStep(i) => CallersPay(Run(c, init).value, i);
      case WorkerStep(i) => WorkersPay(Run(c, init).value, i);
      case CloserStep(i) => ClosersPay(Run(c, init).value, i);
    }
  }

  /** So a schedule that cannot go on has ended well: every call of `execute` and of `shutdown` has returned. */
  lemma StuckMeansDone(c: Setup, events: seq<Event>)
    requires Run(c, events).Some? && 0 < c.capacity && 0 < c.workers
    requires forall e: Event :: !Enabled(Run(c, events).value, e)
    ensures Done(Run(c, events).value)
  {
    RunsSatisfyInv(c, events);
    forall p: nat ensures IsConserved(Run(c, events).value, p) {
      RunsConserve(c, events, p);
    }
    if !Done(Run(c, events).value) {
      var e := SomeThreadCanMove(Run(c, events).value);
    }
  }
}
