/** How calls of `block_on` and `poll_on` end. What happened to a call is read off the run by an
    observer that does not look at the thread's own bookkeeping. */
module Calls {
  import opened Options
  import opened Runtime
  import WakerSlot

  /** What an observer of one thread notes: whether it ever called, when and with which timeout, and
      since the last poll began whether the poll answered, the clock at the time check, the
      network delay that was found, and the flag that was found at the flag swap. */
  datatype History = History(
    called: bool,
    start: nat,
    timeout: Option<nat>,
    answered: Option<bool>,
    check: Option<nat>,
    delay: Option<Option<nat>>,
    flag: Option<bool>)

  const UNCALLED: History := History(false, 0, None, None, None, None, None)

  /** The time that the caller allowed is over. */
  predicate Due(h: History, now: nat) { h.timeout.Some? && now >= h.start + h.timeout.value }

  /** What the observer notes of the thread's own step, given the flag before it. */
  function Note(h: History, act: ThreadAction, flag: bool): History {
    match act
    case Call(_, timeout, start) => History(true, start, timeout, None, None, None, None)
    case BeginPoll => h.(answered := None, check := None, delay := None, flag := None)
    case SwapFlag => h.(flag := Some(flag))
    case CheckTimeout(read) => h.(check := Some(read))
    case CheckDelay(delay) => h.(delay := Some(delay))
    case _ => h
  }

  function Observe(h: History, k: Kernel, s: State, a: Action, t: nat): History
    requires Enabled(k, s, a)
  {
    match a
    case EndPoll(u) => if u == t then h.(answered := Some(s.threads[t].ready)) else h
    case Local(u, act) => if u == t then Note(h, act, s.threads[t].unparked) else h
    case _ => h
  }

  function Observed(h: History, k: Kernel, s: State, run: seq<Action>, t: nat): History
    requires Valid(k, s, run)
    decreases |run|
  {
    if run == [] then h else Observed(Observe(h, k, s, run[0], t), k, Next(k, s, run[0]), run[1..], t)
  }

  /** The time check of this round let the call go on. */
  predicate InTime(h: History) {
    h.answered == Some(false) && h.check.Some? && !Due(h, h.check.value)
  }

  /** A network delay to block for: unknown, or more than 100 milliseconds. */
  predicate IsLong(delay: Option<nat>) { delay.None? || delay.value > 100 }

  predicate SleepsFor(h: History, timed: bool) {
    h.delay.Some? && IsLong(h.delay.value) && timed == h.delay.value.Some?
  }

  /** This round has not reached the flag swap, or found the flag clear there. */
  predicate FoundClear(h: History) { h.flag != Some(true) }

  /** Before the queue is run, `block_on` has looked at the delay, and has swapped the flag unless the
      delay is short; `poll_on` does neither. */
  predicate Waited(th: Thread, h: History) {
    if th.mode == Polling then h.delay == None && h.flag == None
    else h.delay.Some? && (h.flag == Some(false) <==> IsLong(h.delay.value))
  }

  predicate CallOk(th: Thread, h: History) {
    && th.limit == (if h.timeout.Some? then Some(h.start + h.timeout.value) else None)
    && (th.pc != Returned ==> h.called && th.end == NotYet)
    && match th.pc
       case Returned =>
         && (th.end == NotYet ==> h == UNCALLED)
         && (th.end == Value ==> h.answered == Some(true) && h.check == None && h.flag == None)
         && (th.end == TimedOut ==> h.answered == Some(false) && h.check.Some? && Due(h, h.check.value) && h.flag == None)
       case AtPoll => h.answered != Some(true) && (h.check.Some? ==> InTime(h)) && (h.check.None? ==> h.flag == None)
       case InPoll => h.answered == None && h.check == None && h.delay == None && h.flag == None
       case AtTimeout => h.answered == Some(false) && h.check == None && h.delay == None && h.flag == None
       case AtDelay => InTime(h) && th.mode == Blocking && h.delay == None && h.flag == None
       case AtSwap(timed) => InTime(h) && th.mode == Blocking && SleepsFor(h, timed) && h.flag == None
       case AtBlock(timed) => InTime(h) && SleepsFor(h, timed) && th.mode == Blocking && h.flag == Some(false)
       case Blocked(timed) => InTime(h) && SleepsFor(h, timed) && th.mode == Blocking && h.flag == Some(false)
       case AtClear => InTime(h) && th.mode == Blocking && h.flag == Some(false) && h.delay.Some? && IsLong(h.delay.value)
       case AtRun => InTime(h) && FoundClear(h) && Waited(th, h)
       case InTask(_) => InTime(h) && FoundClear(h) && Waited(th, h)
  }

  /** The observer read the clock no later than now. */
  predicate CheckedBefore(h: History, now: nat) { h.check.Some? ==> h.check.value <= now }

  lemma CallStartOk(k: Kernel, th: Thread, mode: Mode, timeout: Option<nat>, start: nat, h: History)
    requires LocalEnabled(k, th, Call(mode, timeout, start)) && CallOk(th, h)
    ensures CallOk(LocalNext(k, th, Call(mode, timeout, start)), Note(h, Call(mode, timeout, start), th.unparked))
  {
  }

  lemma BeginPollOk(k: Kernel, th: Thread, h: History)
    requires LocalEnabled(k, th, BeginPoll) && CallOk(th, h)
    ensures CallOk(LocalNext(k, th, BeginPoll), Note(h, BeginPoll, th.unparked))
  {
  }

  lemma CheckTimeoutOk(k: Kernel, th: Thread, read: nat, h: History)
    requires LocalEnabled(k, th, CheckTimeout(read)) && CallOk(th, h)
    ensures CallOk(LocalNext(k, th, CheckTimeout(read)), Note(h, CheckTimeout(read), th.unparked))
  {
  }

  lemma CheckDelayOk(k: Kernel, th: Thread, delay: Option<nat>, h: History)
    requires LocalEnabled(k, th, CheckDelay(delay)) && CallOk(th, h)
    ensures CallOk(LocalNext(k, th, CheckDelay(delay)), Note(h, CheckDelay(delay), th.unparked))
  {
  }

  lemma SwapFlagOk(k: Kernel, th: Thread, h: History)
    requires LocalEnabled(k, th, SwapFlag) && CallOk(th, h)
    ensures CallOk(LocalNext(k, th, SwapFlag), Note(h, SwapFlag, th.unparked))
  {
  }

  lemma BlockCallOk(k: Kernel, th: Thread, h: History)
    requires LocalEnabled(k, th, BlockCall) && CallOk(th, h)
    ensures CallOk(LocalNext(k, th, BlockCall), Note(h, BlockCall, th.unparked))
  {
  }

  lemma ExpireOk(k: Kernel, th: Thread, h: History)
    requires LocalEnabled(k, th, Expire) && CallOk(th, h)
    ensures CallOk(LocalNext(k, th, Expire), Note(h, Expire, th.unparked))
  {
  }

  lemma ClearFlagOk(k: Kernel, th: Thread, h: History)
    requires LocalEnabled(k, th, ClearFlag) && CallOk(th, h)
    ensures CallOk(LocalNext(k, th, ClearFlag), Note(h, ClearFlag, th.unparked))
  {
  }

  lemma SysWakeupOk(k: Kernel, th: Thread, h: History)
    requires LocalEnabled(k, th, SysWakeup) && CallOk(th, h)
    ensures CallOk(LocalNext(k, th, SysWakeup), Note(h, SysWakeup, th.unparked))
  {
  }

  predicate KeepsPc(act: ThreadAction) { act.WakerSwap? || act.TakeWaker? || act.BecomeReady? || act.BecomeUnready? }

  lemma KeptOk(k: Kernel, th: Thread, act: ThreadAction, h: History)
    requires KeepsPc(act) && LocalEnabled(k, th, act) && CallOk(th, h)
    ensures CallOk(LocalNext(k, th, act), Note(h, act, th.unparked))
  {
    hide Due, InTime, SleepsFor, IsLong;
  }

  lemma LocalCallOk(k: Kernel, th: Thread, act: ThreadAction, h: History, now: nat)
    requires LocalEnabled(k, th, act) && ReadsClock(act, now) && CallOk(th, h)
    ensures CallOk(LocalNext(k, th, act), Note(h, act, th.unparked))
    ensures CheckedBefore(h, now) ==> CheckedBefore(Note(h, act, th.unparked), now)
  {
    hide CallOk, LocalNext, LocalEnabled;
    match act
    case Call(mode, timeout, start) => CallStartOk(k, th, mode, timeout, start, h);
    case BeginPoll => BeginPollOk(k, th, h);
    case CheckTimeout(read) => CheckTimeoutOk(k, th, read, h);
    case CheckDelay(delay) => CheckDelayOk(k, th, delay, h);
    case SwapFlag => SwapFlagOk(k, th, h);
    case BlockCall => BlockCallOk(k, th, h);
    case Expire => ExpireOk(k, th, h);
    case ClearFlag => ClearFlagOk(k, th, h);
    case SysWakeup => SysWakeupOk(k, th, h);
    case WakerSwap(_) => KeptOk(k, th, act, h);
    case TakeWaker => KeptOk(k, th, act, h);
    case BecomeReady => KeptOk(k, th, act, h);
    case BecomeUnready => KeptOk(k, th, act, h);
  }

  lemma PolledCallOk(th: Thread, h: History)
    requires CallOk(th, h)
    ensures th.pc == InPoll ==> CallOk(Polled(th), h.(answered := Some(th.ready)))
    ensures th.pc == AtRun ==> CallOk(th.(pc := AtPoll), h)
    ensures th.pc == AtRun ==> forall x :: CallOk(th.(pc := InTask(x)), h)
    ensures th.pc.InTask? ==> CallOk(th.(pc := AtRun), h)
  {
  }

  lemma CallStep(k: Kernel, s: State, a: Action, t: nat, h: History)
    requires Enabled(k, s, a) && t in s.threads && CallOk(s.threads[t], h) && CheckedBefore(h, s.now)
    ensures t in Next(k, s, a).threads && CallOk(Next(k, s, a).threads[t], Observe(h, k, s, a, t))
    ensures CheckedBefore(Observe(h, k, s, a, t), Next(k, s, a).now)
  {
    hide CallOk, LocalNext, LocalEnabled, Polled, WakeTask;
    PolledCallOk(s.threads[t], h);
    match a
    case Local(u, act) =>
      if u == t {
        LocalCallOk(k, s.threads[t], act, h, s.now);
      }
    case EndPoll(u) =>
      var s1 := WithThread(s, u, Polled(s.threads[u])).(slot := None, dirty := true);
      WakeTaskKeepsThreads(s1, s.slot);
      WakeTaskKeepsClock(s1, s.slot);
    case PopTask(_) =>
    case PollTask(u) =>
      var x := s.threads[u].pc.task;
      var (slot, displaced) := WakerSlot.Registered(s.slot, WakerSlot.Waker(x));
      var s1 := s.(slot := slot, dirty := false, tasks := s.tasks[x := s.tasks[x].(polled := true)]);
      WakeTaskKeepsThreads(s1, displaced);
      WakeTaskKeepsClock(s1, displaced);
    case FinishTask(_) =>
    case Spawn(_) =>
    case Tick(_) =>
  }

  lemma WakeTaskKeepsClock(s: State, w: Option<WakerSlot.Waker>)
    ensures WakeTask(s, w).now == s.now
  {
  }

  lemma {:induction false} CallsOk(k: Kernel, s: State, run: seq<Action>, t: nat, h: History)
    requires Valid(k, s, run) && t in s.threads && CallOk(s.threads[t], h) && CheckedBefore(h, s.now)
    ensures t in After(k, s, run).threads && CallOk(After(k, s, run).threads[t], Observed(h, k, s, run, t))
    ensures CheckedBefore(Observed(h, k, s, run, t), After(k, s, run).now)
    decreases |run|
  {
    hide Enabled, Next, CallOk, CheckedBefore, Observe;
    if run != [] {
      CallStep(k, s, run[0], t, h);
      CallsOk(k, Next(k, s, run[0]), run[1..], t, Observe(h, k, s, run[0], t));
    }
  }

  // ---------- over all runs ----------

  /** A call has ended with a value exactly when its last poll answered, and has timed out exactly
      when its last time check found the deadline passed, which it then has; no call ends
      otherwise, and it ends the thread's loop. */
  lemma CallsEnd(k: Kernel, s: State, run: seq<Action>, t: nat)
    requires Init(s) && Valid(k, s, run) && t in s.threads
    ensures t in After(k, s, run).threads
    ensures var s', h := After(k, s, run), Observed(UNCALLED, k, s, run, t);
            var th := s'.threads[t];
            && (th.end == Value <==> h.answered == Some(true))
            && (th.end == TimedOut <==> h.check.Some? && Due(h, h.check.value))
            && (th.end == TimedOut ==> Due(h, s'.now))
            && (th.pc == Returned <==> !h.called || th.end != NotYet)
  {
    hide Enabled, Next, Observe;
    CallsOk(k, s, run, t, UNCALLED);
  }

  /** No thread goes on past its time check when the check found the deadline passed. */
  lemma NoneGoesOnLate(k: Kernel, s: State, run: seq<Action>, t: nat)
    requires Init(s) && Valid(k, s, run) && t in s.threads
    ensures t in After(k, s, run).threads
    ensures var th, h := After(k, s, run).threads[t], Observed(UNCALLED, k, s, run, t);
            th.pc !in {Returned, AtPoll, InPoll, AtTimeout} ==>
              h.called && h.check.Some? && !Due(h, h.check.value)
  {
    hide Enabled, Next, Observe;
    CallsOk(k, s, run, t, UNCALLED);
  }

  /** A thread is at the flag swap, at the block call or asleep only for a network delay that is
      unknown or above 100 milliseconds, and its sleep can expire exactly when the delay is known. */
  lemma SleepsAreLimited(k: Kernel, s: State, run: seq<Action>, t: nat)
    requires Init(s) && Valid(k, s, run) && t in s.threads
    ensures t in After(k, s, run).threads
    ensures var s', h := After(k, s, run), Observed(UNCALLED, k, s, run, t);
            var pc := s'.threads[t].pc;
            && (pc.AtSwap? || pc.AtBlock? || pc.Blocked? ==>
                  h.delay == Some(None) || (h.delay.Some? && h.delay.value.Some? && h.delay.value.value > 100))
            && (pc.Blocked? ==> (Enabled(k, s', Local(t, Expire)) <==> h.delay.Some? && h.delay.value.Some?))
  {
    hide Next, Observe;
    CallsOk(k, s, run, t, UNCALLED);
  }

  /** A thread that finds its flag set goes straight back to its poll; it sleeps only after finding the
      flag clear; and before it runs the queue `block_on` has looked at the flag exactly when the
      delay was long, `poll_on` never. */
  lemma FlagDecides(k: Kernel, s: State, run: seq<Action>, t: nat)
    requires Init(s) && Valid(k, s, run) && t in s.threads
    ensures t in After(k, s, run).threads
    ensures var th, h := After(k, s, run).threads[t], Observed(UNCALLED, k, s, run, t);
            && (h.flag == Some(true) ==> th.pc == AtPoll)
            && (th.pc.AtBlock? || th.pc.Blocked? || th.pc.AtClear? ==> h.flag == Some(false))
            && (th.pc.AtRun? || th.pc.InTask? ==>
                  if th.mode == Polling then h.delay == None
                  else h.delay.Some? && (h.flag == Some(false) <==> h.delay.value.None? || h.delay.value.value > 100))
  {
    hide Next, Observe, Enabled;
    CallsOk(k, s, run, t, UNCALLED);
  }

  // ---------- every wake is used once ----------

  /** Counts of steps that concern one thread: wakes that found its flag clear, flag swaps and clears
      that found it set, kernel calls made for it, its wakers that sockets took out and that
      have set the flag, and wakeups that the kernel latched and that a block call used up. */
  datatype Tally = Tally(sets: nat, resets: nat, kernelCalls: nat, taken: nat, used: nat, latched: nat, spent: nat)

  function Added(x: Tally, y: Tally): Tally {
    Tally(x.sets + y.sets, x.resets + y.resets, x.kernelCalls + y.kernelCalls, x.taken + y.taken, x.used + y.used,
          x.latched + y.latched, x.spent + y.spent)
  }

  const NOTHING: Tally := Tally(0, 0, 0, 0, 0, 0, 0)

  function StepTally(k: Kernel, th: Thread, act: ThreadAction): Tally {
    match act
    case WakerSwap(fromSocket) => NOTHING.(sets := Bit(!th.unparked), used := Bit(fromSocket))
    case SwapFlag => NOTHING.(resets := Bit(th.unparked))
    case ClearFlag => NOTHING.(resets := Bit(th.unparked))
    case SysWakeup => NOTHING.(kernelCalls := 1, latched := Bit(k.latches && !th.pc.Blocked? && !th.token))
    case BlockCall => NOTHING.(spent := Bit(th.token))
    case TakeWaker => NOTHING.(taken := 1)
    case _ => NOTHING
  }

  function Bit(b: bool): nat { if b then 1 else 0 }

  function Tallied(k: Kernel, s: State, run: seq<Action>, t: nat): Tally
    requires Valid(k, s, run)
    decreases |run|
  {
    if run == [] then NOTHING
    else Added(ActionTally(k, s, run[0], t), Tallied(k, Next(k, s, run[0]), run[1..], t))
  }

  function ActionTally(k: Kernel, s: State, a: Action, t: nat): Tally
    requires Enabled(k, s, a)
  {
    if a.Local? && a.t == t then StepTally(k, s.threads[t], a.act) else NOTHING
  }

  predicate Balanced(th: Thread, th': Thread, y: Tally) {
    && Bit(th'.unparked) + y.resets == Bit(th.unparked) + y.sets
    && th'.inFlight + y.kernelCalls == th.inFlight + y.sets
    && th'.taken + y.used == th.taken + y.taken
    && Bit(th'.token) + y.spent == Bit(th.token) + y.latched
  }

  lemma WakesBalanced(k: Kernel, th: Thread, act: ThreadAction)
    requires act.WakerSwap? || act.SysWakeup? || act.TakeWaker?
    requires LocalEnabled(k, th, act)
    ensures Balanced(th, LocalNext(k, th, act), StepTally(k, th, act))
  {
  }

  lemma FlagsBalanced(k: Kernel, th: Thread, act: ThreadAction)
    requires act.SwapFlag? || act.ClearFlag? || act.BlockCall? || act.Expire? || act.BecomeReady? || act.BecomeUnready?
    requires LocalEnabled(k, th, act)
    ensures Balanced(th, LocalNext(k, th, act), StepTally(k, th, act))
  {
  }

  lemma OthersBalanced(k: Kernel, th: Thread, act: ThreadAction)
    requires act.Call? || act.BeginPoll? || act.CheckTimeout? || act.CheckDelay?
    requires LocalEnabled(k, th, act)
    ensures Balanced(th, LocalNext(k, th, act), StepTally(k, th, act))
  {
    hide Passed, Deadline;
  }

  lemma LocalBalanced(k: Kernel, th: Thread, act: ThreadAction)
    requires LocalEnabled(k, th, act)
    ensures Balanced(th, LocalNext(k, th, act), StepTally(k, th, act))
  {
    hide LocalNext, LocalEnabled, StepTally, Balanced;
    if act.WakerSwap? || act.SysWakeup? || act.TakeWaker? {
      WakesBalanced(k, th, act);
    } else if act.Call? || act.BeginPoll? || act.CheckTimeout? || act.CheckDelay? {
      OthersBalanced(k, th, act);
    } else {
      FlagsBalanced(k, th, act);
    }
  }

  lemma StepBalanced(k: Kernel, s: State, a: Action, t: nat)
    requires Enabled(k, s, a) && t in s.threads
    ensures t in Next(k, s, a).threads && Balanced(s.threads[t], Next(k, s, a).threads[t], ActionTally(k, s, a, t))
  {
    hide LocalNext, LocalEnabled, WakeTask, StepTally;
    match a
    case Local(u, act) =>
      if u == t {
        LocalBalanced(k, s.threads[t], act);
      }
    case EndPoll(u) => WakeTaskKeepsThreads(WithThread(s, u, Polled(s.threads[u])).(slot := None, dirty := true), s.slot);
    case PopTask(_) =>
    case PollTask(u) => PollKeepsThreads(k, s, u);
    case FinishTask(_) =>
    case Spawn(_) =>
    case Tick(_) =>
  }

  lemma {:induction false} RunBalanced(k: Kernel, s: State, run: seq<Action>, t: nat)
    requires Valid(k, s, run) && t in s.threads
    ensures t in After(k, s, run).threads && Balanced(s.threads[t], After(k, s, run).threads[t], Tallied(k, s, run, t))
    decreases |run|
  {
    hide Enabled, Next, ActionTally;
    if run != [] {
      StepBalanced(k, s, run[0], t);
      RunBalanced(k, Next(k, s, run[0]), run[1..], t);
    }
  }

  /** Every wake that sets the flag is taken back by one flag swap or clear, unless it still stands; the
      kernel is called once for each such wake, and for no other; every waker that a socket
      takes out sets the flag once; every latched wakeup ends one block call. */
  lemma WakesAreUsedOnce(k: Kernel, s: State, run: seq<Action>, t: nat)
    requires Init(s) && Valid(k, s, run) && t in s.threads
    ensures t in After(k, s, run).threads
    ensures var th, y := After(k, s, run).threads[t], Tallied(k, s, run, t);
            && y.sets == y.resets + (if th.unparked then 1 else 0)
            && y.sets == y.kernelCalls + th.inFlight
            && y.taken == y.used + th.taken
            && y.latched == y.spent + (if th.token then 1 else 0)
  {
    hide Enabled, Next;
    RunBalanced(k, s, run, t);
  }

  // ---------- the loop goes round ----------

  /** The thread's own next step, with the network delay it would find. */
  function OwnStep(s: State, t: nat, delay: Option<nat>): Action
    requires t in s.threads
  {
    match s.threads[t].pc
    case Returned => Local(t, Call(s.threads[t].mode, None, s.now))
    case AtPoll => Local(t, BeginPoll)
    case InPoll => EndPoll(t)
    case AtTimeout => Local(t, CheckTimeout(s.now))
    case AtDelay => Local(t, CheckDelay(delay))
    case AtSwap(_) => Local(t, SwapFlag)
    case AtBlock(_) => Local(t, BlockCall)
    case Blocked(timed) => Local(t, if timed then Expire else SysWakeup)
    case AtClear => Local(t, ClearFlag)
    case AtRun => PopTask(t)
    case InTask(x) => if x in s.tasks && s.tasks[x].Running? && s.tasks[x].polled then FinishTask(t) else PollTask(t)
  }

  /** Steps left, at most, before a thread is back at its poll. */
  function PcLeft(pc: Pc): nat {
    match pc
    case Returned => 0
    case AtPoll => 0
    case InPoll => 8
    case AtTimeout => 7
    case AtDelay => 6
    case AtSwap(_) => 5
    case AtBlock(_) => 4
    case Blocked(_) => 3
    case AtClear => 2
    case AtRun => 1
    case InTask(_) => 0
  }

  function StepsLeft(s: State, t: nat): nat
    requires t in s.threads
  {
    PcLeft(s.threads[t].pc)
  }

  /** Asleep without a time limit and without a wakeup on its way. */
  predicate Asleep(th: Thread) { th.pc == Blocked(false) && th.inFlight == 0 }

  lemma TimeoutNearer(k: Kernel, th: Thread, read: nat, delay: Option<nat>)
    ensures th.pc == AtTimeout ==> LocalEnabled(k, th, CheckTimeout(read)) && PcLeft(LocalNext(k, th, CheckTimeout(read)).pc) < 7
    ensures th.pc == AtDelay ==> LocalEnabled(k, th, CheckDelay(delay)) && PcLeft(LocalNext(k, th, CheckDelay(delay)).pc) < 6
  {
    hide Passed;
  }

  lemma SwapNearer(k: Kernel, th: Thread)
    ensures th.pc.AtSwap? ==> LocalEnabled(k, th, SwapFlag) && PcLeft(LocalNext(k, th, SwapFlag).pc) < 5
    ensures th.pc.AtBlock? ==> LocalEnabled(k, th, BlockCall) && PcLeft(LocalNext(k, th, BlockCall).pc) < 4
    ensures th.pc == AtClear ==> LocalEnabled(k, th, ClearFlag) && PcLeft(LocalNext(k, th, ClearFlag).pc) < 2
  {
  }

  lemma SleepNearer(k: Kernel, th: Thread)
    requires !Asleep(th)
    ensures th.pc == Blocked(true) ==> LocalEnabled(k, th, Expire) && PcLeft(LocalNext(k, th, Expire).pc) < 3
    ensures th.pc == Blocked(false) ==> LocalEnabled(k, th, SysWakeup) && PcLeft(LocalNext(k, th, SysWakeup).pc) < 3
  {
  }

  lemma LocalStepNearer(k: Kernel, s: State, t: nat, delay: Option<nat>)
    requires t in s.threads && !Asleep(s.threads[t]) && OwnStep(s, t, delay).Local?
    ensures var act := OwnStep(s, t, delay).act;
            && OwnStep(s, t, delay).t == t && LocalEnabled(k, s.threads[t], act) && ReadsClock(act, s.now)
            && (StepsLeft(s, t) > 0 ==>
                  StepsLeft(WithThread(s, t, LocalNext(k, s.threads[t], act)), t) < StepsLeft(s, t))
  {
    var th := s.threads[t];
    TimeoutNearer(k, th, s.now, delay);
    SwapNearer(k, th);
    SleepNearer(k, th);
    StartEnabled(k, th, s.now);
    hide LocalNext, LocalEnabled, Asleep;
  }

  lemma StartEnabled(k: Kernel, th: Thread, start: nat)
    ensures th.pc == Returned ==> LocalEnabled(k, th, Call(th.mode, None, start))
    ensures th.pc == AtPoll ==> LocalEnabled(k, th, BeginPoll)
  {
  }

  lemma OwnStepNearer(k: Kernel, s: State, t: nat, delay: Option<nat>)
    requires TasksOk(s, None) && t in s.threads && !Asleep(s.threads[t])
    ensures Enabled(k, s, OwnStep(s, t, delay)) && t in Next(k, s, OwnStep(s, t, delay)).threads
    ensures StepsLeft(s, t) > 0 ==>
              var s2 := Next(k, s, OwnStep(s, t, delay));
              StepsLeft(s2, t) < StepsLeft(s, t) || (s2.threads[t].pc.InTask? && s.queue != [])
  {
    hide TasksOk, LocalNext, LocalEnabled, WakeTask, Asleep;
    match s.threads[t].pc
    case InTask(x) =>
      InsideRunning(s, t);
      if OwnStep(s, t, delay).PollTask? {
        PollKeepsThreads(k, s, t);
      }
    case InPoll =>
      WakeTaskKeepsThreads(WithThread(s, t, Polled(s.threads[t])).(slot := None, dirty := true), s.slot);
    case AtRun =>
    case _ => LocalStepNearer(k, s, t, delay);
  }

  /** Between two polls a call always goes forward: its next step is enabled and takes it nearer to
      its next poll, unless it has ended, is asleep, or takes a task from the queue. */
  lemma LoopGoesRound(k: Kernel, s: State, run: seq<Action>, t: nat, delay: Option<nat>)
    requires Init(s) && Valid(k, s, run) && t in s.threads && t in After(k, s, run).threads
    requires !Asleep(After(k, s, run).threads[t])
    ensures var s' := After(k, s, run);
            && Enabled(k, s', OwnStep(s', t, delay))
            && t in Next(k, s', OwnStep(s', t, delay)).threads
            && (StepsLeft(s', t) > 0 ==>
                  var s2 := Next(k, s', OwnStep(s', t, delay));
                  StepsLeft(s2, t) < StepsLeft(s', t) || (s2.threads[t].pc.InTask? && s'.queue != []))
  {
    TasksStart(s);
    TasksAlwaysOk(k, s, run);
    hide TasksOk, Next, Enabled, OwnStep, StepsLeft, Asleep;
    OwnStepNearer(k, After(k, s, run), t, delay);
  }

  lemma TasksStart(s: State)
    requires Init(s)
    ensures TasksOk(s, None)
  {
  }

  lemma InsideRunning(s: State, t: nat)
    requires TasksOk(s, None) && t in s.threads && s.threads[t].pc.InTask?
    ensures s.threads[t].pc.task in s.tasks && s.tasks[s.threads[t].pc.task].Running?
  {
  }

  lemma PollKeepsThreads(k: Kernel, s: State, t: nat)
    requires Enabled(k, s, PollTask(t))
    ensures Next(k, s, PollTask(t)).threads == s.threads
  {
    var x := s.threads[t].pc.task;
    var (slot, displaced) := WakerSlot.Registered(s.slot, WakerSlot.Waker(x));
    WakeTaskKeepsThreads(s.(slot := slot, dirty := false, tasks := s.tasks[x := s.tasks[x].(polled := true)]), displaced);
  }
}
