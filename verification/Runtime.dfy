/** Threads blocking on socket futures, the wakers that unblock them, and the background
    network task, as an interleaved step relation. */
module Runtime {
  import opened Options
  import opened WakerSlot

  // ---------- state ----------

  /** What the kernel guarantees about a wakeup that arrives after a thread cleared its
      flag and before it is blocked: it is latched for the block call, or it cannot
      arrive there because flag swap and block call are one atomic step. */
  datatype Kernel = Kernel(latches: bool, atomicWindow: bool)

  datatype Mode = Blocking | Polling

  /** How the thread's call ended. */
  datatype End = NotYet | Value | TimedOut

  /** Network delays up to this many milliseconds are waited out without blocking. */
  const SHORT_DELAY: nat := 100

  /** The moment from which a call may time out. */
  function Deadline(timeout: Option<nat>, start: nat): Option<nat> {
    if timeout.Some? then Some(start + timeout.value) else None
  }

  predicate Passed(deadline: Option<nat>, now: nat) { deadline.Some? && now >= deadline.value }

  /** Where a thread is in `block_on` or `poll_on`. */
  datatype Pc =
    | Returned
    | AtPoll
    | InPoll
    | AtTimeout
    | AtDelay
    | AtSwap(timed: bool)
    | AtBlock(timed: bool)
    | Blocked(timed: bool)
    | AtClear
    | AtRun
    | InTask(task: nat)

  datatype Thread = Thread(
    pc: Pc,
    mode: Mode,
    limit: Option<nat>, // deadline of the call
    end: End,
    unparked: bool,     // the thread's notification flag
    token: bool,        // a wakeup latched by the kernel
    inFlight: nat,      // wakers that set the flag and still have to call the kernel
    taken: nat,         // wakers taken out of a socket that have not set the flag yet
    registered: bool,   // the thread's waker is stored in its socket
    ready: bool,        // polling the future now would return
    woken: bool)        // a flag swap by a waker happened since the last poll began

  /** A spawned task: waiting, in the run queue, or being run. */
  datatype TaskState =
    | Idle
    | Queued
    | Running(rewoken: bool, polled: bool)

  datatype State = State(
    threads: map<nat, Thread>,
    tasks: map<nat, TaskState>,
    queue: seq<nat>,
    slot: Option<Waker>,
    dirty: bool,        // sockets were touched since the last network poll
    now: nat)           // the clock, in milliseconds

  /** Steps that concern one thread and its wakers only. A socket takes the stored waker out
      before it becomes ready for a future that `block_on` runs; a future that `poll_on`
      runs may become ready without notice. `SocketWakers` derives both from the sockets. */
  datatype ThreadAction =
    | Call(mode: Mode, timeout: Option<nat>, start: nat)
    | BeginPoll
    | CheckTimeout(read: nat)
    | CheckDelay(delay: Option<nat>)
    | SwapFlag
    | BlockCall
    | Expire
    | ClearFlag
    | WakerSwap(fromSocket: bool)
    | SysWakeup
    | TakeWaker
    | BecomeReady
    | BecomeUnready

  datatype Action =
    | Local(t: nat, act: ThreadAction)
    | EndPoll(t: nat)
    | PopTask(t: nat)
    | PollTask(t: nat)
    | FinishTask(t: nat)
    | Spawn(task: nat)
    | Tick(elapsed: nat)

  function Fresh(mode: Mode): Thread {
    Thread(Returned, mode, None, NotYet, false, false, 0, 0, false, false, false)
  }

  ghost predicate Init(s: State) {
    && (forall t :: t in s.threads ==> s.threads[t] == Fresh(s.threads[t].mode))
    && s.tasks == map[] && s.queue == [] && s.slot == None && !s.dirty
  }

  // ---------- steps ----------

  function WithThread(s: State, t: nat, th: Thread): State { s.(threads := s.threads[t := th]) }

  /** Waking a task: push it unless it is queued; a running one is queued when it ends. */
  function WakeTask(s: State, w: Option<Waker>): State {
    if w == None || w.value.task !in s.tasks then s
    else
      var x := w.value.task;
      match s.tasks[x]
      case Idle => s.(tasks := s.tasks[x := Queued], queue := s.queue + [x])
      case Queued => s
      case Running(_, polled) => s.(tasks := s.tasks[x := Running(true, polled)])
  }

  /** What every access to a socket ends with: take the network waker and wake it. */
  function NicWake(s: State): State {
    WakeTask(s.(slot := None, dirty := true), s.slot)
  }

  predicate LocalEnabled(k: Kernel, th: Thread, act: ThreadAction) {
    match act
    case Call(_, _, _) => th.pc == Returned
    case BeginPoll => th.pc == AtPoll
    case CheckTimeout(_) => th.pc == AtTimeout
    case CheckDelay(_) => th.pc == AtDelay
    case SwapFlag => th.pc.AtSwap?
    case BlockCall => th.pc.AtBlock?
    case Expire => th.pc == Blocked(true)
    case ClearFlag => th.pc == AtClear
    case WakerSwap(fromSocket) => (fromSocket ==> th.taken > 0) && !(k.atomicWindow && th.pc.AtBlock?)
    case SysWakeup => th.inFlight > 0 && !(k.atomicWindow && th.pc.AtBlock?)
    case TakeWaker => th.registered
    case BecomeReady => !th.ready && (th.registered ==> th.mode == Polling)
    case BecomeUnready => th.ready
  }

  function LocalNext(k: Kernel, th: Thread, act: ThreadAction): Thread
    requires LocalEnabled(k, th, act)
  {
    match act
    case Call(mode, timeout, start) =>
      th.(pc := AtPoll, mode := mode, limit := Deadline(timeout, start), end := NotYet, registered := false)
    case BeginPoll => th.(pc := InPoll, woken := false)
    case CheckTimeout(read) =>
      if Passed(th.limit, read) then th.(pc := Returned, end := TimedOut)
      else th.(pc := if th.mode == Polling then AtRun else AtDelay)
    case CheckDelay(delay) =>
      th.(pc := if delay.None? || delay.value > SHORT_DELAY then AtSwap(delay.Some?) else AtRun)
    case SwapFlag =>
      th.(unparked := false, pc := if th.unparked then AtPoll else AtBlock(th.pc.timed))
    case BlockCall =>
      th.(token := false, pc := if th.token then AtClear else Blocked(th.pc.timed))
    case Expire => th.(pc := AtClear)
    case ClearFlag => th.(pc := AtRun, unparked := false)
    case WakerSwap(fromSocket) =>
      th.(taken := if fromSocket then th.taken - 1 else th.taken,
          woken := true,
          unparked := true,
          inFlight := if th.unparked then th.inFlight else th.inFlight + 1)
    case SysWakeup =>
      if th.pc.Blocked? then th.(inFlight := th.inFlight - 1, pc := AtClear)
      else th.(inFlight := th.inFlight - 1, token := th.token || k.latches)
    case TakeWaker => th.(registered := false, taken := th.taken + 1)
    case BecomeReady => th.(ready := true)
    case BecomeUnready => th.(ready := false)
  }

  predicate Enabled(k: Kernel, s: State, a: Action) {
    match a
    case Local(t, act) => t in s.threads && LocalEnabled(k, s.threads[t], act) && ReadsClock(act, s.now)
    case EndPoll(t) => t in s.threads && s.threads[t].pc == InPoll
    case PopTask(t) => t in s.threads && s.threads[t].pc == AtRun
    case PollTask(t) => t in s.threads && s.threads[t].pc.InTask? && IsRunning(s, s.threads[t].pc.task, false)
    case FinishTask(t) => t in s.threads && s.threads[t].pc.InTask? && IsRunning(s, s.threads[t].pc.task, true)
    case Spawn(x) => x !in s.tasks
    case Tick(_) => true
  }

  /** The clock is read where a call starts and where it checks its deadline. */
  predicate ReadsClock(act: ThreadAction, now: nat) {
    (act.Call? ==> act.start == now) && (act.CheckTimeout? ==> act.read == now)
  }

  predicate IsRunning(s: State, x: nat, polled: bool) {
    x in s.tasks && s.tasks[x].Running? && s.tasks[x].polled == polled
  }

  function Next(k: Kernel, s: State, a: Action): State
    requires Enabled(k, s, a)
  {
    match a
    case Local(t, act) => WithThread(s, t, LocalNext(k, s.threads[t], act))
    case EndPoll(t) => NicWake(WithThread(s, t, Polled(s.threads[t])))
    case PopTask(t) =>
      if s.queue == [] then WithThread(s, t, s.threads[t].(pc := AtPoll))
      else
        var x := s.queue[0];
        WithThread(s, t, s.threads[t].(pc := InTask(x))).(queue := s.queue[1..], tasks := s.tasks[x := Running(false, false)])
    case PollTask(t) =>
      var x := s.threads[t].pc.task;
      var (slot, displaced) := Registered(s.slot, Waker(x));
      WakeTask(s.(slot := slot, dirty := false, tasks := s.tasks[x := s.tasks[x].(polled := true)]), displaced)
    case FinishTask(t) =>
      var x := s.threads[t].pc.task;
      var s' := WithThread(s, t, s.threads[t].(pc := AtRun));
      if s.tasks[x].rewoken then s'.(tasks := s.tasks[x := Queued], queue := s.queue + [x])
      else s'.(tasks := s.tasks[x := Idle])
    case Spawn(x) => s.(tasks := s.tasks[x := Queued], queue := s.queue + [x])
    case Tick(elapsed) => s.(now := s.now + elapsed)
  }

  /** Polling a socket future: return when it is ready, else store the waker. */
  function Polled(th: Thread): Thread {
    if th.ready then th.(pc := Returned, end := Value) else th.(pc := AtTimeout, registered := true)
  }

  // ---------- runs ----------

  predicate Valid(k: Kernel, s: State, run: seq<Action>)
    decreases |run|
  {
    run == [] || (Enabled(k, s, run[0]) && Valid(k, Next(k, s, run[0]), run[1..]))
  }

  function After(k: Kernel, s: State, run: seq<Action>): State
    requires Valid(k, s, run)
    decreases |run|
  {
    if run == [] then s else After(k, Next(k, s, run[0]), run[1..])
  }

  // ---------- wakeups ----------

  /** From a poll to the flag swap a wake leaves the flag set; from the flag swap on, a
      set flag has a kernel call behind it that is pending or latched. */
  predicate FlagInvariant(k: Kernel, th: Thread) {
    match th.pc
    case InPoll => th.woken ==> th.unparked
    case AtTimeout => th.woken ==> th.unparked
    case AtDelay => th.woken ==> th.unparked
    case AtSwap(_) => th.woken ==> th.unparked
    case AtBlock(_) => (th.woken ==> th.unparked) && (th.unparked ==> th.inFlight > 0 || th.token)
    case Blocked(_) => (th.woken ==> th.unparked) && (th.unparked ==> th.inFlight > 0)
    case _ => true
  }

  /** Between polls a socket that turned ready has passed its waker on. */
  predicate WaitInvariant(th: Thread) {
    th.mode == Blocking && th.pc !in {Returned, AtPoll, InPoll} ==>
      (th.registered && !th.ready) || th.taken > 0 || th.woken
  }

  /** `poll_on` never goes to sleep. */
  predicate ModeInvariant(th: Thread) {
    th.mode == Polling ==> th.pc.Returned? || th.pc.AtPoll? || th.pc.InPoll? || th.pc.AtTimeout? || th.pc.AtRun? || th.pc.InTask?
  }

  ghost predicate ThreadsOk(k: Kernel, s: State) {
    forall t :: t in s.threads ==>
      FlagInvariant(k, s.threads[t]) && WaitInvariant(s.threads[t]) && ModeInvariant(s.threads[t])
  }

  /** No wakeup is lost: a thread that was woken since its last poll began is not left
      blocked, unless the waker's own kernel call is still to come. */
  ghost predicate NoneLost(s: State) {
    forall t :: t in s.threads && s.threads[t].pc.Blocked? && s.threads[t].woken ==> s.threads[t].inFlight > 0
  }

  lemma FlagStep(k: Kernel, th: Thread, act: ThreadAction)
    requires k.latches || k.atomicWindow
    requires FlagInvariant(k, th) && LocalEnabled(k, th, act)
    ensures FlagInvariant(k, LocalNext(k, th, act))
  {
    hide Passed, Deadline;
  }

  lemma WaitStep(k: Kernel, th: Thread, act: ThreadAction)
    requires WaitInvariant(th) && LocalEnabled(k, th, act)
    ensures WaitInvariant(LocalNext(k, th, act))
  {
    hide Passed, Deadline;
  }

  lemma ModeStep(k: Kernel, th: Thread, act: ThreadAction)
    requires ModeInvariant(th) && LocalEnabled(k, th, act)
    ensures ModeInvariant(LocalNext(k, th, act))
  {
    hide Passed, Deadline;
  }

  lemma LocalStep(k: Kernel, th: Thread, act: ThreadAction)
    requires k.latches || k.atomicWindow
    requires FlagInvariant(k, th) && WaitInvariant(th) && ModeInvariant(th) && LocalEnabled(k, th, act)
    ensures var th' := LocalNext(k, th, act); FlagInvariant(k, th') && WaitInvariant(th') && ModeInvariant(th')
  {
    hide FlagInvariant, WaitInvariant, ModeInvariant, LocalNext, LocalEnabled;
    FlagStep(k, th, act);
    WaitStep(k, th, act);
    ModeStep(k, th, act);
  }

  lemma WakeTaskKeepsThreads(s: State, w: Option<Waker>)
    ensures WakeTask(s, w).threads == s.threads
  {
  }

  lemma SharedStep(k: Kernel, th: Thread)
    requires FlagInvariant(k, th) && WaitInvariant(th) && ModeInvariant(th)
    ensures th.pc == InPoll ==> FlagInvariant(k, Polled(th)) && WaitInvariant(Polled(th)) && ModeInvariant(Polled(th))
    ensures th.pc == AtRun ==>
              var th' := th.(pc := AtPoll); FlagInvariant(k, th') && WaitInvariant(th') && ModeInvariant(th')
    ensures th.pc == AtRun ==> forall x ::
              var th' := th.(pc := InTask(x)); FlagInvariant(k, th') && WaitInvariant(th') && ModeInvariant(th')
    ensures th.pc.InTask? ==>
              var th' := th.(pc := AtRun); FlagInvariant(k, th') && WaitInvariant(th') && ModeInvariant(th')
  {
  }

  lemma ThreadStep(k: Kernel, s: State, a: Action)
    requires k.latches || k.atomicWindow
    requires ThreadsOk(k, s) && Enabled(k, s, a)
    ensures ThreadsOk(k, Next(k, s, a))
  {
    hide LocalNext, LocalEnabled, WakeTask, FlagInvariant, WaitInvariant, ModeInvariant, Polled;
    match a
    case Local(t, act) => LocalStep(k, s.threads[t], act);
    case EndPoll(t) =>
      SharedStep(k, s.threads[t]);
      WakeTaskKeepsThreads(WithThread(s, t, Polled(s.threads[t])).(slot := None, dirty := true), s.slot);
    case PopTask(t) => SharedStep(k, s.threads[t]);
    case PollTask(t) =>
      var x := s.threads[t].pc.task;
      var (slot, displaced) := Registered(s.slot, Waker(x));
      WakeTaskKeepsThreads(s.(slot := slot, dirty := false, tasks := s.tasks[x := s.tasks[x].(polled := true)]), displaced);
    case FinishTask(t) => SharedStep(k, s.threads[t]);
    case Spawn(_) =>
    case Tick(_) =>
  }

  lemma {:induction false} ThreadsAlwaysOk(k: Kernel, s: State, run: seq<Action>)
    requires k.latches || k.atomicWindow
    requires ThreadsOk(k, s) && Valid(k, s, run)
    ensures ThreadsOk(k, After(k, s, run))
    decreases |run|
  {
    hide Enabled, Next, ThreadsOk;
    if run != [] {
      ThreadStep(k, s, run[0]);
      ThreadsAlwaysOk(k, Next(k, s, run[0]), run[1..]);
    }
  }

  /** The kernel contract is exactly what it takes. */
  ghost predicate LosesNoWakeup(k: Kernel) {
    forall s, run :: Init(s) && Valid(k, s, run) ==> NoneLost(After(k, s, run))
  }

  lemma NoLostWakeup(k: Kernel)
    ensures LosesNoWakeup(k) <==> k.latches || k.atomicWindow
  {
    if k.latches || k.atomicWindow {
      forall s, run | Init(s) && Valid(k, s, run)
        ensures NoneLost(After(k, s, run))
      {
        ThreadsAlwaysOk(k, s, run);
      }
    } else {
      LostWithoutContract(k);
    }
  }

  /** The last `9 - i` steps of the losing schedule. */
  function LosingRun(i: nat): seq<Action>
    decreases 9 - i
  {
    if i >= 9 then [] else [LosingStep(i)] + LosingRun(i + 1)
  }

  function LosingStep(i: nat): Action {
    if i == 0 then Local(0, Call(Blocking, None, 0))
    else if i == 1 then Local(0, BeginPoll)
    else if i == 2 then EndPoll(0)
    else if i == 3 then Local(0, CheckTimeout(0))
    else if i == 4 then Local(0, CheckDelay(None))
    else if i == 5 then Local(0, SwapFlag)
    else if i == 6 then Local(0, WakerSwap(false))
    else if i == 7 then Local(0, SysWakeup)
    else Local(0, BlockCall)
  }

  function LosingState(i: nat): State {
    var dirty := i > 2;
    var th :=
      if i == 0 then Fresh(Blocking)
      else if i == 1 then Fresh(Blocking).(pc := AtPoll)
      else if i == 2 then Fresh(Blocking).(pc := InPoll)
      else if i == 3 then Fresh(Blocking).(pc := AtTimeout, registered := true)
      else if i == 4 then Fresh(Blocking).(pc := AtDelay, registered := true)
      else if i == 5 then Fresh(Blocking).(pc := AtSwap(false), registered := true)
      else if i == 6 then Fresh(Blocking).(pc := AtBlock(false), registered := true)
      else if i == 7 then Fresh(Blocking).(pc := AtBlock(false), registered := true, woken := true, unparked := true, inFlight := 1)
      else if i == 8 then Fresh(Blocking).(pc := AtBlock(false), registered := true, woken := true, unparked := true)
      else Fresh(Blocking).(pc := Blocked(false), registered := true, woken := true, unparked := true);
    State(map[0 := th], map[], [], None, dirty, 0)
  }

  lemma LosingStepTaken(k: Kernel, i: nat)
    requires !k.latches && !k.atomicWindow && i < 9
    ensures Enabled(k, LosingState(i), LosingStep(i))
    ensures Next(k, LosingState(i), LosingStep(i)) == LosingState(i + 1)
  {
    var s, s' := Next(k, LosingState(i), LosingStep(i)), LosingState(i + 1);
    assert s.threads == s'.threads;
  }

  lemma {:induction false} LosingRunEnds(k: Kernel, i: nat)
    requires !k.latches && !k.atomicWindow && i <= 9
    ensures Valid(k, LosingState(i), LosingRun(i)) && After(k, LosingState(i), LosingRun(i)) == LosingState(9)
    decreases 9 - i
  {
    if i < 9 {
      hide Enabled, Next, LosingState, LosingStep;
      LosingStepTaken(k, i);
      LosingRunEnds(k, i + 1);
      assert LosingRun(i)[1..] == LosingRun(i + 1);
    }
  }

  /** Without the contract: the kernel call lands between the flag swap and the block
      call and is forgotten; the thread then blocks with its flag set. */
  lemma LostWithoutContract(k: Kernel)
    requires !k.latches && !k.atomicWindow
    ensures Init(LosingState(0)) && Valid(k, LosingState(0), LosingRun(0))
    ensures var s := After(k, LosingState(0), LosingRun(0));
            !NoneLost(s) && 0 in s.threads && Stuck(s.threads[0])
  {
    hide LosingRun, Enabled, Next, LosingStep;
    LosingRunEnds(k, 0);
    assert LosingState(9).threads[0].pc.Blocked? && LosingState(9).threads[0].woken;
  }

  /** Blocked without time limit, flag set, no kernel call on its way. */
  predicate Stuck(th: Thread) { th.pc == Blocked(false) && th.unparked && th.inFlight == 0 }

  lemma StuckStep(k: Kernel, s: State, a: Action, t: nat)
    requires Enabled(k, s, a) && t in s.threads && Stuck(s.threads[t])
    ensures t in Next(k, s, a).threads && Stuck(Next(k, s, a).threads[t])
  {
    if a.EndPoll? {
      WakeTaskKeepsThreads(WithThread(s, a.t, Polled(s.threads[a.t])).(slot := None, dirty := true), s.slot);
    }
  }

  /** A thread stuck that way stays blocked forever: every later wake finds the flag set
      and skips the kernel call. */
  lemma {:induction false} StuckForever(k: Kernel, s: State, run: seq<Action>, t: nat)
    requires Valid(k, s, run) && t in s.threads && Stuck(s.threads[t])
    ensures t in After(k, s, run).threads && Stuck(After(k, s, run).threads[t])
    decreases |run|
  {
    hide Enabled, Next, Stuck;
    if run != [] {
      StuckStep(k, s, run[0], t);
      StuckForever(k, Next(k, s, run[0]), run[1..], t);
    }
  }

  /** A socket that is ready does not wait for a sleeping thread in vain: its waker has
      been taken out and is about to set the flag, or did so and the kernel call follows. */
  lemma ReadyReachesThread(k: Kernel, s: State, run: seq<Action>, t: nat)
    requires k.latches || k.atomicWindow
    requires Init(s) && Valid(k, s, run)
    requires t in After(k, s, run).threads
    ensures var th := After(k, s, run).threads[t];
            th.pc.Blocked? && th.ready ==> th.taken > 0 || th.inFlight > 0
  {
    ThreadsAlwaysOk(k, s, run);
  }

  /** A thread in `poll_on` is never asleep, so it needs no waker to notice its socket. */
  lemma PollingNeverBlocks(k: Kernel, s: State, run: seq<Action>, t: nat)
    requires k.latches || k.atomicWindow
    requires Init(s) && Valid(k, s, run) && t in After(k, s, run).threads
    ensures var th := After(k, s, run).threads[t]; th.mode == Polling ==> !th.pc.Blocked? && !th.pc.AtBlock?
  {
    ThreadsAlwaysOk(k, s, run);
  }

  /** The kernel call of a pending wake unblocks the thread at once. */
  lemma WakeupUnblocks(k: Kernel, s: State, run: seq<Action>, t: nat)
    requires k.latches || k.atomicWindow
    requires Init(s) && Valid(k, s, run)
    requires var s' := After(k, s, run); t in s'.threads && s'.threads[t].pc.Blocked? && s'.threads[t].woken
    ensures var s' := After(k, s, run);
            && Enabled(k, s', Local(t, SysWakeup))
            && Next(k, s', Local(t, SysWakeup)).threads[t].pc == AtClear
  {
    ThreadsAlwaysOk(k, s, run);
  }

  // ---------- the network task ----------

  function Count(q: seq<nat>, x: nat): nat {
    if q == [] then 0 else (if q[0] == x then 1 else 0) + Count(q[1..], x)
  }

  /** The task is to poll the network after this moment: it is queued, or its run still has
      its poll to make or ends by queueing it again. */
  predicate PollAhead(ts: TaskState) {
    ts.Queued? || (ts.Running? && (!ts.polled || ts.rewoken))
  }

  /** A task that has no poll ahead of it can be reached through the waker slot. */
  ghost predicate Reachable(s: State, pending: Option<Waker>) {
    forall x :: x in s.tasks ==>
      PollAhead(s.tasks[x]) || s.slot == Some(Waker(x)) || pending == Some(Waker(x))
  }

  /** The run queue holds each queued task once and nothing else. */
  ghost predicate QueueOk(s: State) {
    && (forall x :: x in s.tasks ==> Count(s.queue, x) == (if s.tasks[x].Queued? then 1 else 0))
    && (forall x :: x in s.queue ==> x in s.tasks)
  }

  predicate Runs(s: State, t: nat, x: nat) { t in s.threads && s.threads[t].pc == InTask(x) }

  /** Every running task has a thread that runs it. */
  ghost predicate RunnersFound(s: State) {
    forall x :: x in s.tasks && s.tasks[x].Running? ==> exists t :: Runs(s, t, x)
  }

  /** A thread inside a task runs a running task, and no two threads run the same one. */
  ghost predicate RunnersOk(s: State) {
    && (forall t :: t in s.threads && s.threads[t].pc.InTask? ==>
          s.threads[t].pc.task in s.tasks && s.tasks[s.threads[t].pc.task].Running?)
    && (forall t, u :: t in s.threads && u in s.threads && t != u && s.threads[t].pc.InTask? && s.threads[u].pc.InTask?
          ==> s.threads[t].pc.task != s.threads[u].pc.task)
  }

  /** While sockets are dirty nobody has registered for the next wake. */
  ghost predicate TasksOk(s: State, pending: Option<Waker>) {
    Reachable(s, pending) && QueueOk(s) && RunnersOk(s) && (s.dirty ==> s.slot == None)
  }

  lemma {:induction false} CountAppend(q: seq<nat>, y: nat, x: nat)
    ensures Count(q + [y], x) == Count(q, x) + (if y == x then 1 else 0)
  {
    if q == [] {
      assert q + [y] == [y] && [y][1..] == [];
    } else {
      assert (q + [y])[1..] == q[1..] + [y];
      CountAppend(q[1..], y, x);
    }
  }

  lemma {:induction false} CountZero(q: seq<nat>, x: nat)
    ensures Count(q, x) == 0 <==> x !in q
  {
    if q != [] {
      CountZero(q[1..], x);
      assert x in q <==> x == q[0] || x in q[1..];
    }
  }

  lemma PushOk(s: State, x: nat)
    requires QueueOk(s) && (x in s.tasks ==> !s.tasks[x].Queued?)
    ensures QueueOk(s.(tasks := s.tasks[x := Queued], queue := s.queue + [x]))
  {
    var s' := s.(tasks := s.tasks[x := Queued], queue := s.queue + [x]);
    CountZero(s.queue, x);
    forall y | y in s'.tasks
      ensures Count(s'.queue, y) == (if s'.tasks[y].Queued? then 1 else 0)
    {
      CountAppend(s.queue, x, y);
    }
  }

  lemma WakeTaskOk(s: State, w: Option<Waker>)
    requires TasksOk(s, w)
    ensures TasksOk(WakeTask(s, w), None)
  {
    hide Count;
    if w.Some? && w.value.task in s.tasks && s.tasks[w.value.task].Idle? {
      PushOk(s, w.value.task);
    }
  }

  lemma LocalKeepsTask(k: Kernel, th: Thread, act: ThreadAction)
    requires LocalEnabled(k, th, act)
    ensures LocalNext(k, th, act).pc.InTask? <==> th.pc.InTask?
    ensures th.pc.InTask? ==> LocalNext(k, th, act).pc == th.pc
  {
    hide Passed, Deadline;
  }

  lemma PopOk(k: Kernel, s: State, t: nat)
    requires TasksOk(s, None) && Enabled(k, s, PopTask(t))
    ensures TasksOk(Next(k, s, PopTask(t)), None)
  {
    if s.queue != [] {
      var x := s.queue[0];
      var s' := Next(k, s, PopTask(t));
      assert x in s.tasks;
      assert Count(s.queue, x) >= 1;
      assert s.tasks[x].Queued?;
      CountZero(s.queue[1..], x);
      forall y | y in s'.tasks
        ensures Count(s'.queue, y) == (if s'.tasks[y].Queued? then 1 else 0)
      {
        assert Count(s.queue, y) == (if x == y then 1 else 0) + Count(s.queue[1..], y);
      }
    }
  }

  lemma PollTaskOk(k: Kernel, s: State, t: nat)
    requires TasksOk(s, None) && Enabled(k, s, PollTask(t))
    ensures TasksOk(Next(k, s, PollTask(t)), None)
  {
    hide Count;
    var x := s.threads[t].pc.task;
    var (slot, displaced) := Registered(s.slot, Waker(x));
    RegisterLosesNone(s.slot, Waker(x));
    var s' := s.(slot := slot, dirty := false, tasks := s.tasks[x := s.tasks[x].(polled := true)]);
    assert QueueOk(s');
    WakeTaskOk(s', displaced);
  }

  lemma FinishRunners(k: Kernel, s: State, t: nat)
    requires RunnersOk(s) && Enabled(k, s, FinishTask(t))
    ensures RunnersOk(Next(k, s, FinishTask(t)))
  {
  }

  lemma FinishOk(k: Kernel, s: State, t: nat)
    requires TasksOk(s, None) && Enabled(k, s, FinishTask(t))
    ensures TasksOk(Next(k, s, FinishTask(t)), None)
  {
    FinishRunners(k, s, t);
    hide Count, RunnersOk;
    var x := s.threads[t].pc.task;
    var s1 := WithThread(s, t, s.threads[t].(pc := AtRun));
    assert QueueOk(s1);
    if s.tasks[x].rewoken {
      PushOk(s1, x);
    }
  }

  lemma EndPollOk(k: Kernel, s: State, t: nat)
    requires TasksOk(s, None) && Enabled(k, s, EndPoll(t))
    ensures TasksOk(Next(k, s, EndPoll(t)), None)
    ensures Next(k, s, EndPoll(t)).slot == None
  {
    hide Count;
    var s1 := WithThread(s, t, Polled(s.threads[t])).(slot := None, dirty := true);
    assert QueueOk(s1);
    WakeTaskOk(s1, s.slot);
  }

  lemma TaskStep(k: Kernel, s: State, a: Action)
    requires TasksOk(s, None) && Enabled(k, s, a)
    ensures TasksOk(Next(k, s, a), None)
  {
    hide LocalNext, LocalEnabled, WakeTask, Count;
    match a
    case Local(t, act) =>
      LocalKeepsTask(k, s.threads[t], act);
      assert QueueOk(Next(k, s, a));
    case EndPoll(t) => EndPollOk(k, s, t);
    case PopTask(t) => PopOk(k, s, t);
    case PollTask(t) => PollTaskOk(k, s, t);
    case FinishTask(t) => FinishOk(k, s, t);
    case Spawn(x) => PushOk(s, x);
    case Tick(_) =>
  }

  lemma {:induction false} TasksAlwaysOk(k: Kernel, s: State, run: seq<Action>)
    requires TasksOk(s, None) && Valid(k, s, run)
    ensures TasksOk(After(k, s, run), None)
    decreases |run|
  {
    hide Enabled, Next, TasksOk;
    if run != [] {
      TaskStep(k, s, run[0]);
      TasksAlwaysOk(k, Next(k, s, run[0]), run[1..]);
    }
  }

  /** A step keeps every runner that is not the one finishing its task, and makes no task run
      without one. */
  lemma RunnerStep(k: Kernel, s: State, a: Action)
    requires RunnersFound(s) && Enabled(k, s, a)
    ensures RunnersFound(Next(k, s, a))
  {
    hide LocalNext, LocalEnabled;
    var s' := Next(k, s, a);
    forall x | x in s'.tasks && s'.tasks[x].Running?
      ensures exists t :: Runs(s', t, x)
    {
      if x in s.tasks && s.tasks[x].Running? {
        var t :| Runs(s, t, x);
        if a.Local? && a.t == t {
          LocalKeepsTask(k, s.threads[t], a.act);
        }
        assert Runs(s', t, x);
      } else {
        assert Runs(s', a.t, x);
      }
    }
  }

  lemma {:induction false} RunnersAlwaysFound(k: Kernel, s: State, run: seq<Action>)
    requires RunnersFound(s) && Valid(k, s, run)
    ensures RunnersFound(After(k, s, run))
    decreases |run|
  {
    hide Enabled, Next, RunnersFound;
    if run != [] {
      RunnerStep(k, s, run[0]);
      RunnersAlwaysFound(k, Next(k, s, run[0]), run[1..]);
    }
  }

  /** Exactly one thread runs the task, and its next step in the task is enabled. */
  ghost predicate HasRunner(k: Kernel, s: State, x: nat)
    requires x in s.tasks && s.tasks[x].Running?
  {
    exists t :: Runs(s, t, x) && OnlyRunner(s, t, x)
             && Enabled(k, s, if s.tasks[x].polled then FinishTask(t) else PollTask(t))
  }

  ghost predicate OnlyRunner(s: State, t: nat, x: nat) {
    forall u :: Runs(s, u, x) ==> u == t
  }

  /** A poll of the network lies ahead, in the queue or with a thread that is at work on it. */
  ghost predicate Scheduled(k: Kernel, s: State, x: nat)
    requires x in s.tasks
  {
    && PollAhead(s.tasks[x])
    && (s.tasks[x].Queued? ==> Count(s.queue, x) == 1)
    && (s.tasks[x].Running? ==> HasRunner(k, s, x))
  }

  lemma RunnerOf(k: Kernel, s: State, x: nat)
    requires RunnersOk(s) && RunnersFound(s) && x in s.tasks && s.tasks[x].Running?
    ensures HasRunner(k, s, x)
  {
    var t :| Runs(s, t, x);
    assert OnlyRunner(s, t, x);
  }

  /** In every reachable state each spawned network task is in the run queue, once; or being
      run by exactly one thread whose next step in it is enabled; or idle with its waker in
      the slot. */
  lemma NeverStranded(k: Kernel, s: State, run: seq<Action>, x: nat)
    requires Init(s) && Valid(k, s, run) && x in After(k, s, run).tasks
    ensures var s' := After(k, s, run);
            match s'.tasks[x]
            case Queued => Count(s'.queue, x) == 1
            case Running(rewoken, polled) =>
              && HasRunner(k, s', x) && Count(s'.queue, x) == 0
              && (!polled || rewoken || s'.slot == Some(Waker(x)))
            case Idle => Count(s'.queue, x) == 0 && s'.slot == Some(Waker(x))
  {
    hide Enabled, Next, HasRunner;
    TasksAlwaysOk(k, s, run);
    RunnersAlwaysFound(k, s, run);
    if After(k, s, run).tasks[x].Running? {
      RunnerOf(k, After(k, s, run), x);
    }
  }

  /** After any access to a socket, and for as long as no network poll has run since,
      every network task is scheduled: work left in a socket is picked up. */
  lemma SocketWorkIsPolled(k: Kernel, s: State, run: seq<Action>, x: nat)
    requires Init(s) && Valid(k, s, run) && x in After(k, s, run).tasks
    ensures After(k, s, run).dirty ==> Scheduled(k, After(k, s, run), x)
  {
    hide Enabled, Next, HasRunner;
    TasksAlwaysOk(k, s, run);
    NeverStranded(k, s, run, x);
  }

  /** Every socket access leaves every network task scheduled. */
  lemma AccessSchedulesTask(k: Kernel, s: State, run: seq<Action>, t: nat)
    requires Init(s) && Valid(k, s, run) && Enabled(k, After(k, s, run), EndPoll(t))
    ensures var s' := Next(k, After(k, s, run), EndPoll(t));
            s'.dirty && forall x :: x in s'.tasks ==> Scheduled(k, s', x)
  {
    hide Count, HasRunner;
    var s1 := After(k, s, run);
    TasksAlwaysOk(k, s, run);
    RunnersAlwaysFound(k, s, run);
    EndPollOk(k, s1, t);
    RunnerStep(k, s1, EndPoll(t));
    WakeTaskKeepsSlot(WithThread(s1, t, Polled(s1.threads[t])).(slot := None, dirty := true), s1.slot);
    var s' := Next(k, s1, EndPoll(t));
    forall x | x in s'.tasks
      ensures Scheduled(k, s', x)
    {
      if s'.tasks[x].Running? {
        RunnerOf(k, s', x);
      }
    }
  }

  lemma WakeTaskKeepsSlot(s: State, w: Option<Waker>)
    ensures WakeTask(s, w).slot == s.slot && WakeTask(s, w).dirty == s.dirty
  {
  }
}
