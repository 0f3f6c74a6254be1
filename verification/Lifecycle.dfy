/**
 Starting and stopping a hash chain. The manager holds its lock from the On message of a start
 attempt to its end, and from the beginning of a stop to its Off message; the heartbeat task runs
 between and during these steps. Halting a chain asks its tasks to stop one by one and panics, with
 the lock released and no Off sent, when a task does not confirm; making or initialising a chain may
 panic with the same effect, and a start while a chain is installed panics right after its On.
 */
module Lifecycle {
  import opened Wrappers
  import opened Monitor

  /** The tasks of one hash chain that are registered for halting. */
  datatype TaskKind = PowerHeartbeat | PowerTermination | WorkTx | WorkRx | TemperatureMonitor

  datatype Task = Task(session: nat, kind: TaskKind)

  /** What the manager's lock is held for, if it is held. */
  datatype Phase = Idle | Initializing | Halting(queue: seq<Task>)

  /** How a live task answers the halt notification. */
  datatype Answer = Confirmed | DroppedHandle | TimedOut

  datatype Life = Life(
    phase: Phase,
    installed: Option<nat>,      // the running chain, by its start count
    startCount: nat,
    registered: seq<Task>,       // tasks registered with the newest chain's halt sender
    alive: set<Task>,
    sent: seq<Message>)          // messages to the monitor

  const FRESH := Life(Idle, None, 0, [], {}, [])

  datatype Step =
    | StartAttempt               // lock, send On, make a new chain
    | PowerUp                    // chain init spawns the voltage heartbeat
    | InitFails                  // chain init fails: halt what was spawned
    | InitPanics                 // making or initialising the chain panics
    | InitSucceeds               // spawn the workers and install the chain
    | Heartbeat(task: Task, temperature: real)
    | TaskEnds(task: Task)       // a task exits by itself
    | StopAttempt                // lock, take the chain out, halt it
    | HaltNext(answer: Answer)   // the next task in the queue is asked to halt
    | HaltDone                   // the queue is empty: send Off

  function Workers(n: nat): seq<Task> {
    [Task(n, WorkTx), Task(n, WorkRx), Task(n, TemperatureMonitor)]
  }

  function PowerTasks(n: nat): seq<Task> {
    [Task(n, PowerHeartbeat), Task(n, PowerTermination)]
  }

  function ToSet(ts: seq<Task>): set<Task> {
    set t | t in ts
  }

  predicate Enabled(s: Life, step: Step) {
    match step
    case StartAttempt => s.phase.Idle?
    case PowerUp => s.phase.Initializing? && s.registered == []
    case InitFails => s.phase.Initializing?
    case InitPanics => s.phase.Initializing?
    case InitSucceeds => s.phase.Initializing? && s.registered != []
    case Heartbeat(t, _) => t in s.alive && t.kind.TemperatureMonitor?
    case TaskEnds(t) => t in s.alive
    case StopAttempt => s.phase.Idle? && s.installed.Some?
    case HaltNext(_) => s.phase.Halting? && s.phase.queue != []
    case HaltDone => s.phase.Halting? && s.phase.queue == []
  }

  function Next(s: Life, step: Step): Life
    requires Enabled(s, step)
  {
    match step
    case StartAttempt =>
      if s.installed.Some? then s.(sent := s.sent + [On])
      else s.(phase := Initializing, startCount := s.startCount + 1, registered := [], sent := s.sent + [On])
    case PowerUp =>
      s.(registered := PowerTasks(s.startCount), alive := s.alive + ToSet(PowerTasks(s.startCount)))
    case InitFails => s.(phase := Halting(s.registered))
    case InitPanics => s.(phase := Idle)
    case InitSucceeds =>
      s.(phase := Idle, installed := Some(s.startCount), registered := s.registered + Workers(s.startCount),
         alive := s.alive + ToSet(Workers(s.startCount)))
    case Heartbeat(_, temperature) => s.(sent := s.sent + [Running(temperature)])
    case TaskEnds(t) => s.(alive := s.alive - {t})
    case StopAttempt => s.(phase := Halting(s.registered), installed := None)
    case HaltNext(answer) =>
      var t, rest := s.phase.queue[0], s.phase.queue[1..];
      if t !in s.alive then s.(phase := Halting(rest))
      else if answer.Confirmed? then s.(phase := Halting(rest), alive := s.alive - {t})
      else s.(phase := Idle, alive := if answer.DroppedHandle? then s.alive - {t} else s.alive)
    case HaltDone => s.(phase := Idle, registered := [], sent := s.sent + [Off])
  }

  /** The life after the steps; steps that are not possible where they stand are skipped. */
  function After(steps: seq<Step>): Life
    decreases |steps|
  {
    if steps == [] then FRESH
    else
      var s, step := After(steps[..|steps| - 1]), steps[|steps| - 1];
      if Enabled(s, step) then Next(s, step) else s
  }

  lemma {:induction false} AfterSnoc(steps: seq<Step>, step: Step)
    ensures After(steps + [step]) ==
            if Enabled(After(steps), step) then Next(After(steps), step) else After(steps)
  {
    assert (steps + [step])[..|steps|] == steps;
  }

  // ----- The messages -----

  /** The monitor has been told On but not yet Off. */
  predicate SessionOpen(s: Life) {
    s.sent != [] && !s.sent[|s.sent| - 1].Off?
  }

  /** No chain is installed and nobody will send the Off. */
  predicate Stranded(s: Life) {
    s.phase.Idle? && s.installed.None? && SessionOpen(s)
  }

  /** The step ends a session without its Off: a live task does not confirm its halt, or initialisation panics. */
  predicate LosesOff(s: Life, step: Step)
    requires Enabled(s, step)
  {
    match step
    case HaltNext(answer) => s.phase.queue[0] in s.alive && !answer.Confirmed?
    case InitPanics => true
    case _ => false
  }

  predicate LostOff(steps: seq<Step>, i: nat)
    requires i < |steps|
  {
    Enabled(After(steps[..i]), steps[i]) && LosesOff(After(steps[..i]), steps[i])
  }

  /** Some session of the run ended without its Off. */
  ghost predicate SomeLostOff(steps: seq<Step>) {
    exists i :: 0 <= i < |steps| && LostOff(steps, i)
  }

  /** A start while a chain is installed, or after a session that ended without its Off. */
  ghost predicate BadStart(steps: seq<Step>, j: nat)
    requires j < |steps|
  {
    && steps[j].StartAttempt? && Enabled(After(steps[..j]), steps[j])
    && (After(steps[..j]).installed.Some? || SomeLostOff(steps[..j]))
  }

  ghost predicate SomeBadStart(steps: seq<Step>) {
    exists j :: 0 <= j < |steps| && BadStart(steps, j)
  }

  /** The live heartbeat tasks are among the given ones. */
  ghost predicate BeatsAmong(s: Life, ts: seq<Task>) {
    forall t :: t in s.alive && t.kind.TemperatureMonitor? ==> t in ts
  }

  /** What holds as long as the messages follow the pattern. */
  ghost predicate Inv(s: Life) {
    && Pattern(s.sent)
    && match s.phase
       case Idle =>
         (s.installed.Some? ==> SessionOpen(s) && BeatsAmong(s, s.registered)) &&
         (!SessionOpen(s) ==> BeatsAmong(s, []))
       case Initializing => SessionOpen(s) && s.installed.None? && BeatsAmong(s, [])
       case Halting(queue) => SessionOpen(s) && s.installed.None? && BeatsAmong(s, queue)
  }

  /** The start finds the monitor in a session. */
  predicate StartsOpen(s: Life, step: Step) {
    step.StartAttempt? && (s.installed.Some? || Stranded(s))
  }

  lemma {:induction false} NextKeepsInv(s: Life, step: Step)
    requires Inv(s) && Enabled(s, step) && !StartsOpen(s, step)
    ensures Inv(Next(s, step))
  {
    hide Pattern;
    match step
    case StartAttempt => PatternSnoc(s.sent, On);
    case Heartbeat(_, temperature) => PatternSnoc(s.sent, Running(temperature));
    case HaltDone => PatternSnoc(s.sent, Off);
    case _ =>
  }

  /** A session without an end stays so, and comes about only by losing its Off. */
  lemma {:induction false} StrandedStep(s: Life, step: Step)
    requires Inv(s) && Enabled(s, step) && !StartsOpen(s, step)
    ensures Stranded(Next(s, step)) <==> Stranded(s) || LosesOff(s, step)
  {
    hide Pattern;
  }

  /** Once the messages left the pattern, they stay outside it. */
  lemma {:induction false} NextKeepsBroken(s: Life, step: Step)
    requires Enabled(s, step) && (!Pattern(s.sent) || (Inv(s) && StartsOpen(s, step)))
    ensures !Pattern(Next(s, step).sent)
  {
    hide Pattern;
    match step
    case StartAttempt => PatternSnoc(s.sent, On);
    case Heartbeat(_, temperature) => PatternSnoc(s.sent, Running(temperature));
    case HaltDone => PatternSnoc(s.sent, Off);
    case _ =>
  }

  lemma {:induction false} LostOffSnoc(steps: seq<Step>)
    requires steps != []
    ensures SomeLostOff(steps) <==> SomeLostOff(steps[..|steps| - 1]) || LostOff(steps, |steps| - 1)
  {
    hide After;
    var before := steps[..|steps| - 1];
    forall i | 0 <= i < |before| ensures LostOff(before, i) == LostOff(steps, i) {
      assert before[..i] == steps[..i];
    }
    if SomeLostOff(before) {
      var i :| 0 <= i < |before| && LostOff(before, i);
      assert LostOff(steps, i);
    }
    if SomeLostOff(steps) && !LostOff(steps, |steps| - 1) {
      var i :| 0 <= i < |steps| && LostOff(steps, i);
      assert LostOff(before, i);
    }
  }

  lemma {:induction false} BadStartSnoc(steps: seq<Step>)
    requires steps != []
    ensures SomeBadStart(steps) <==> SomeBadStart(steps[..|steps| - 1]) || BadStart(steps, |steps| - 1)
  {
    hide After, SomeLostOff;
    var before := steps[..|steps| - 1];
    forall i | 0 <= i < |before| ensures BadStart(before, i) == BadStart(steps, i) {
      assert before[..i] == steps[..i];
    }
    if SomeBadStart(before) {
      var i :| 0 <= i < |before| && BadStart(before, i);
      assert BadStart(steps, i);
    }
    if SomeBadStart(steps) && !BadStart(steps, |steps| - 1) {
      var i :| 0 <= i < |steps| && BadStart(steps, i);
      assert BadStart(before, i);
    }
  }

  /**
   In every run of start attempts, failed and panicking initialisations, heartbeats, task exits,
   halts and stops, a manager's messages are a prefix of (On Running* Off)* exactly when no start is
   attempted while a chain is installed, after a halt that was not confirmed or after an
   initialisation that panicked. In particular no Running follows an Off: every task confirmed or
   ended first.
   */
  lemma {:induction false} MessagesFollowPattern(steps: seq<Step>)
    ensures Pattern(After(steps).sent) <==> !SomeBadStart(steps)
    ensures !SomeBadStart(steps) ==> Inv(After(steps)) && (Stranded(After(steps)) <==> SomeLostOff(steps))
  {
    hide Inv, Pattern, Stranded, SomeLostOff, SomeBadStart, LosesOff;
    if steps == [] {
      InvAtFirst();
    } else {
      var before, step := steps[..|steps| - 1], steps[|steps| - 1];
      MessagesFollowPattern(before);
      BadStartSnoc(steps);
      LostOffSnoc(steps);
      var s := After(before);
      if Enabled(s, step) {
        if SomeBadStart(steps) {
          NextKeepsBroken(s, step);
        } else {
          NextKeepsInv(s, step);
          StrandedStep(s, step);
          InvMeansPattern(Next(s, step));
        }
      }
    }
  }

  lemma {:induction false} InvAtFirst()
    ensures Inv(FRESH) && Pattern([]) && !Stranded(FRESH) && !SomeLostOff([]) && !SomeBadStart([])
  {
  }

  lemma {:induction false} InvMeansPattern(s: Life)
    requires Inv(s)
    ensures Pattern(s.sent)
  {
  }

  /** A halt that times out, followed by a start, does break the pattern. */
  lemma {:induction false} StrandedRunExists() returns (steps: seq<Step>)
    ensures !Pattern(After(steps).sent)
    ensures forall i :: 0 <= i < |steps| && steps[i].StartAttempt? ==> After(steps[..i]).installed.None?
  {
    hide Pattern;
    steps := [StartAttempt, PowerUp, InitFails, HaltNext(TimedOut), StartAttempt];
    var a := Task(1, PowerHeartbeat);
    assert steps[..4][..3] == steps[..3] && steps[..3][..2] == steps[..2] && steps[..2][..1] == steps[..1]
           && steps[..1][..0] == [];
    assert After(steps[..1]) == Life(Initializing, None, 1, [], {}, [On]);
    assert After(steps[..2]).registered == PowerTasks(1) && a in After(steps[..2]).alive;
    assert After(steps[..3]).phase == Halting(PowerTasks(1));
    assert LostOff(steps[..4], 3);
    assert After(steps[..4]).phase.Idle?;
    assert BadStart(steps, 4);
    MessagesFollowPattern(steps);
  }

  /**
   The monitor, fed a manager's messages in order and at any times, breaks the chain only for a late
   tick as long as there is no such start.
   */
  lemma {:induction false} MonitorAccepts(steps: seq<Step>, events: seq<Event>)
    requires Messages(events) == After(steps).sent && !SomeBadStart(steps)
    ensures StateAfter(events).Broken? <==> SomeLateTick(events)
  {
    MessagesFollowPattern(steps);
    BrokenExactly(events);
  }

  // ----- The manager object -----

  /** How many times a failed start is retried. */
  const ENUM_RETRY_COUNT: nat := 10

  /** How making and initialising a chain ends; only a powered-up chain has tasks to halt. */
  datatype InitResult = PowerFails | EnumerationFails | InitPanicked(powered: bool) | InitOk

  datatype StartResult = Started | StartFailed | StartPanicked

  class Manager {
    var phase: Phase
    var hashChain: Option<nat>
    var startCount: nat
    var registered: seq<Task>
    var alive: set<Task>
    var monitorTx: seq<Message>
    /** The steps taken so far. */
    ghost var history: seq<Step>

    ghost function View(): Life
      reads this
    {
      Life(phase, hashChain, startCount, registered, alive, monitorTx)
    }

    /** The object is what its steps have made of a new one. */
    ghost predicate Valid()
      reads this
    {
      View() == After(history)
    }

    constructor ()
      ensures Valid() && View() == FRESH && history == []
    {
      phase, hashChain, startCount, registered, alive, monitorTx := Idle, None, 0, [], {}, [];
      history := [];
    }

    /** Returns false when the assertion that no chain is installed fails. */
    method BeginStart() returns (ok: bool)
      requires Valid() && Enabled(View(), StartAttempt)
      modifies this
      ensures Valid() && history == old(history) + [StartAttempt] && View() == Next(old(View()), StartAttempt)
      ensures ok <==> old(hashChain).None?
    {
      AfterSnoc(history, StartAttempt);
      history := history + [StartAttempt];
      monitorTx := monitorTx + [On];
      if hashChain.Some? {
        return false;
      }
      phase := Initializing;
      startCount := startCount + 1;
      registered := [];
      return true;
    }

    method Spawn(tasks: seq<Task>)
      modifies this`registered, this`alive
      ensures registered == old(registered) + tasks && alive == old(alive) + ToSet(tasks)
    {
      for i := 0 to |tasks|
        invariant registered == old(registered) + tasks[..i]
        invariant alive == old(alive) + ToSet(tasks[..i])
      {
        registered := registered + [tasks[i]];
        alive := alive + {tasks[i]};
        assert tasks[..i + 1] == tasks[..i] + [tasks[i]];
      }
      assert tasks[..|tasks|] == tasks;
    }

    method PowerUp()
      requires Valid() && Enabled(View(), Step.PowerUp)
      modifies this
      ensures Valid() && history == old(history) + [Step.PowerUp] && View() == Next(old(View()), Step.PowerUp)
    {
      AfterSnoc(history, Step.PowerUp);
      history := history + [Step.PowerUp];
      Spawn(PowerTasks(startCount));
    }

    method InitSucceeds()
      requires Valid() && Enabled(View(), Step.InitSucceeds)
      modifies this
      ensures Valid() && history == old(history) + [Step.InitSucceeds]
      ensures View() == Next(old(View()), Step.InitSucceeds)
    {
      AfterSnoc(history, Step.InitSucceeds);
      history := history + [Step.InitSucceeds];
      Spawn(Workers(startCount));
      hashChain := Some(startCount);
      phase := Idle;
    }

    method Beat(t: Task, temperature: real)
      requires Valid() && Enabled(View(), Heartbeat(t, temperature))
      modifies this
      ensures Valid() && history == old(history) + [Heartbeat(t, temperature)]
      ensures View() == Next(old(View()), Heartbeat(t, temperature))
    {
      AfterSnoc(history, Heartbeat(t, temperature));
      history := history + [Heartbeat(t, temperature)];
      monitorTx := monitorTx + [Running(temperature)];
    }

    /** Asks the next task to halt; `ok` is false when this panics. */
    method HaltNextTask(answer: Answer) returns (ok: bool)
      requires Valid() && Enabled(View(), HaltNext(answer))
      modifies this
      ensures Valid() && history == old(history) + [HaltNext(answer)] && View() == Next(old(View()), HaltNext(answer))
      ensures ok <==> phase.Halting?
    {
      AfterSnoc(history, HaltNext(answer));
      history := history + [HaltNext(answer)];
      var t := phase.queue[0];
      if t !in alive {
        phase := Halting(phase.queue[1..]);
        return true;
      }
      match answer
      case Confirmed =>
        alive := alive - {t};
        phase := Halting(phase.queue[1..]);
        return true;
      case DroppedHandle =>
        alive := alive - {t};
        phase := Idle;
        return false;
      case TimedOut =>
        phase := Idle;
        return false;
    }

    /**
     Sender::send_halt_internal without other tasks in between: the tasks are halted in order; on
     success none of them is alive, and the first one that does not confirm ends the halt.
     */
    method SendHalt(answer: Task -> Answer) returns (ok: bool)
      requires Valid() && phase.Halting?
      modifies this
      ensures Valid() && old(history) <= history
      ensures monitorTx == old(monitorTx) && hashChain == old(hashChain) && startCount == old(startCount)
      ensures registered == old(registered) && alive <= old(alive)
      ensures ok ==> phase == Halting([]) && alive == old(alive) - ToSet(old(phase.queue))
      ensures !ok ==> phase.Idle?
      ensures ok <==> forall t :: t in old(phase.queue) && t in old(alive) ==> answer(t).Confirmed?
    {
      hide After;
      ghost var queue := phase.queue;
      ghost var done := 0;
      ok := true;
      while ok && phase.queue != []
        invariant Valid() && old(history) <= history
        invariant ok ==> phase.Halting? && done <= |queue| && phase.queue == queue[done..]
        invariant ok ==> alive == old(alive) - ToSet(queue[..done])
        invariant ok ==> forall i :: 0 <= i < done && queue[i] in old(alive) ==> answer(queue[i]).Confirmed?
        invariant !ok ==> phase.Idle? && exists t :: t in queue && t in old(alive) && !answer(t).Confirmed?
        invariant monitorTx == old(monitorTx) && hashChain == old(hashChain) && startCount == old(startCount)
        invariant registered == old(registered) && alive <= old(alive)
        decreases if ok then |phase.queue| + 1 else 0
      {
        var t := phase.queue[0];
        assert t == queue[done] && t in queue;
        assert queue[..done + 1] == queue[..done] + [t];
        ok := HaltNextTask(answer(t));
        done := done + 1;
      }
      assert ok ==> queue[..done] == queue;
    }

    method FinishHalt()
      requires Valid() && Enabled(View(), HaltDone)
      modifies this
      ensures Valid() && history == old(history) + [HaltDone] && View() == Next(old(View()), HaltDone)
    {
      AfterSnoc(history, HaltDone);
      history := history + [HaltDone];
      registered := [];
      monitorTx := monitorTx + [Off];
      phase := Idle;
    }

    /** Halts what `phase` holds the lock for and reports Off, unless the halt panics. */
    method HaltAndReport(answer: Task -> Answer) returns (ok: bool)
      requires Valid() && phase.Halting?
      modifies this
      ensures Valid() && old(history) <= history
      ensures phase.Idle? && hashChain == old(hashChain) && startCount == old(startCount) && alive <= old(alive)
      ensures monitorTx == if ok then old(monitorTx) + [Off] else old(monitorTx)
      ensures ok ==> alive == old(alive) - ToSet(old(phase.queue))
      ensures ok <==> forall t :: t in old(phase.queue) && t in old(alive) ==> answer(t).Confirmed?
    {
      hide After;
      ok := SendHalt(answer);
      if ok {
        FinishHalt();
      }
    }

    /** Begins to halt what initialisation has spawned, or gives up without halting it. */
    method EndInit(step: Step)
      requires step.InitFails? || step.InitPanics?
      requires Valid() && Enabled(View(), step)
      modifies this
      ensures Valid() && history == old(history) + [step] && View() == Next(old(View()), step)
    {
      AfterSnoc(history, step);
      history := history + [step];
      phase := if step.InitFails? then Halting(registered) else Idle;
    }

    /**
     One attempt. A start that fails has halted every task it spawned, and does so exactly when they all
     confirm; otherwise it panics without an Off.
     */
    method AttemptStartChain(init: InitResult, answer: Task -> Answer) returns (r: StartResult)
      requires Valid() && Enabled(View(), StartAttempt)
      modifies this
      ensures Valid() && old(history) + [StartAttempt] <= history
      ensures phase.Idle?
      ensures old(hashChain).Some? ==> r.StartPanicked? && View() == Next(old(View()), StartAttempt)
      ensures old(hashChain).None? ==> startCount == old(startCount) + 1
      ensures old(hashChain).None? ==> hashChain == if r.Started? then Some(startCount) else None
      ensures old(hashChain).None? ==> (r.Started? <==> init.InitOk?)
      ensures monitorTx == old(monitorTx) + (if r.StartFailed? then [On, Off] else [On])
      ensures r.StartFailed? ==> alive <= old(alive)
      ensures r.Started? ==> registered == [Task(startCount, PowerHeartbeat), Task(startCount, PowerTermination),
                                            Task(startCount, WorkTx), Task(startCount, WorkRx),
                                            Task(startCount, TemperatureMonitor)]
      ensures r.Started? ==> alive == old(alive) + ToSet(registered)
      ensures old(hashChain).None? ==>
                (r.StartFailed? <==>
                   || init.PowerFails?
                   || (init.EnumerationFails? && answer(Task(startCount, PowerHeartbeat)).Confirmed?
                                              && answer(Task(startCount, PowerTermination)).Confirmed?))
    {
      hide After;
      var free := BeginStart();
      if !free {
        return StartPanicked;
      }
      if init.EnumerationFails? || init.InitOk? || (init.InitPanicked? && init.powered) {
        PowerUp();
      }
      if init.InitOk? {
        InitSucceeds();
        return Started;
      }
      EndInit(if init.InitPanicked? then InitPanics else InitFails);
      if init.InitPanicked? {
        return StartPanicked;
      }
      var ok := HaltAndReport(answer);
      r := if ok then StartFailed else StartPanicked;
    }

    /** Takes the chain out; what it registered is to be halted. */
    method TakeChain()
      requires Valid() && Enabled(View(), StopAttempt)
      modifies this
      ensures Valid() && history == old(history) + [StopAttempt] && View() == Next(old(View()), StopAttempt)
    {
      AfterSnoc(history, StopAttempt);
      history := history + [StopAttempt];
      hashChain := None;
      phase := Halting(registered);
    }

    /** Takes the chain out and halts it; returns false when this panics. */
    method StopChain(itsOkIfItsMissing: bool, answer: Task -> Answer) returns (ok: bool)
      requires Valid() && phase.Idle?
      modifies this
      ensures Valid() && old(history) <= history
      ensures phase.Idle? && hashChain.None? && startCount == old(startCount)
      ensures old(hashChain).None? ==> View() == old(View()) && ok == itsOkIfItsMissing
      ensures old(hashChain).Some? ==> monitorTx == if ok then old(monitorTx) + [Off] else old(monitorTx)
      ensures old(hashChain).Some? && ok ==> alive == old(alive) - ToSet(old(registered))
      ensures old(hashChain).Some? ==>
                (ok <==> forall t :: t in old(registered) && t in old(alive) ==> answer(t).Confirmed?)
    {
      hide After;
      if hashChain.None? {
        return itsOkIfItsMissing;
      }
      TakeChain();
      ok := HaltAndReport(answer);
    }

    /** A task ends by itself. */
    method EndTask(t: Task)
      requires Valid() && Enabled(View(), TaskEnds(t))
      modifies this
      ensures Valid() && history == old(history) + [TaskEnds(t)] && View() == Next(old(View()), TaskEnds(t))
    {
      AfterSnoc(history, TaskEnds(t));
      history := history + [TaskEnds(t)];
      alive := alive - {t};
    }

    /** Tasks that still run while nobody holds the lock: they may send heartbeats and end. */
    method Others(steps: seq<Step>)
      requires Valid()
      modifies this
      ensures Valid() && old(history) <= history
      ensures View() == old(View()).(alive := alive, sent := monitorTx) && alive <= old(alive)
      ensures Commands(monitorTx) == Commands(old(monitorTx))
    {
      hide After, Commands;
      for i := 0 to |steps|
        invariant Valid() && old(history) <= history
        invariant View() == old(View()).(alive := alive, sent := monitorTx) && alive <= old(alive)
        invariant Commands(monitorTx) == Commands(old(monitorTx))
      {
        match steps[i]
        case Heartbeat(t, temperature) =>
          if t in alive && t.kind.TemperatureMonitor? {
            CommandsSnoc(monitorTx, Running(temperature));
            Beat(t, temperature);
          }
        case TaskEnds(t) =>
          if t in alive {
            EndTask(t);
          }
        case _ =>
      }
    }

    /**
     StoppedChain::start: at most eleven attempts, the last six of them satisfied with fewer chips.
     Attempt number `k` initialises as `init(k, accept)` says, and `between(k)` happens in the delay
     after it.
     */
    method Start(init: (nat, bool) -> InitResult, answer: Task -> Answer, between: nat -> seq<Step>)
      returns (r: StartResult, accepted: seq<bool>)
      requires Valid() && Enabled(View(), StartAttempt)
      modifies this
      ensures Valid() && old(history) + [StartAttempt] <= history
      ensures old(hashChain).Some? ==> r.StartPanicked? && |accepted| == 1 && View() == Next(old(View()), StartAttempt)
      ensures 1 <= |accepted| <= 11
      ensures forall k :: 0 <= k < |accepted| ==> accepted[k] == (k >= 5)
      ensures Commands(monitorTx) ==
              Commands(old(monitorTx)) + Retries(|accepted| - 1) + (if r.StartFailed? then [On, Off] else [On])
      ensures old(hashChain).None? ==> startCount == old(startCount) + |accepted|
      ensures old(hashChain).None? ==> (r.Started? <==> init(|accepted| - 1, accepted[|accepted| - 1]).InitOk?)
      ensures forall k :: 0 <= k < |accepted| - 1 ==>
                init(k, accepted[k]).PowerFails? || init(k, accepted[k]).EnumerationFails?
      ensures r.StartFailed? ==> |accepted| == 11
      ensures old(hashChain).None? ==> (r.Started? <==> hashChain.Some?)
    {
      hide Commands, After;
      var triesLeft: nat := ENUM_RETRY_COUNT;
      accepted := [];
      while true
        invariant Valid() && Enabled(View(), StartAttempt) && old(history) <= history
        invariant if accepted == [] then history == old(history) else old(history) + [StartAttempt] <= history
        invariant old(hashChain).Some? ==> accepted == [] && View() == old(View())
        invariant old(hashChain).None? ==> hashChain.None? && startCount == old(startCount) + |accepted|
        invariant triesLeft + |accepted| == ENUM_RETRY_COUNT
        invariant forall k :: 0 <= k < |accepted| ==>
                    && accepted[k] == (k >= ENUM_RETRY_COUNT / 2)
                    && (init(k, accepted[k]).PowerFails? || init(k, accepted[k]).EnumerationFails?)
        invariant Commands(monitorTx) == Commands(old(monitorTx)) + Retries(|accepted|)
        decreases triesLeft
      {
        var accept := triesLeft <= ENUM_RETRY_COUNT / 2;
        CommandsOfAttempt(monitorTx);
        ghost var before := history;
        r := AttemptStartChain(init(|accepted|, accept), answer);
        if accepted != [] { Extended(old(history) + [StartAttempt], before, history); }
        accepted := accepted + [accept];
        if r.Started? || r.StartPanicked? || triesLeft == 0 {
          return;
        }
        triesLeft := triesLeft - 1;
        before := history;
        Others(between(|accepted| - 1));
        Extended(old(history) + [StartAttempt], before, history);
      }
    }
  }

  /** Whatever its methods were called for, a manager's messages follow the pattern exactly without bad starts. */
  lemma {:induction false} ManagerFollowsPattern(m: Manager)
    requires m.Valid()
    ensures Pattern(m.monitorTx) <==> !SomeBadStart(m.history)
  {
    MessagesFollowPattern(m.history);
  }

  lemma {:induction false} Extended(a: seq<Step>, b: seq<Step>, c: seq<Step>)
    requires a <= b <= c
    ensures a <= c
  {
  }

  /** The messages that start or end a session. */
  function Commands(ms: seq<Message>): seq<Message> {
    if ms == [] then []
    else Commands(ms[..|ms| - 1]) + if ms[|ms| - 1].Running? then [] else [ms[|ms| - 1]]
  }

  lemma {:induction false} CommandsSnoc(ms: seq<Message>, m: Message)
    ensures Commands(ms + [m]) == Commands(ms) + if m.Running? then [] else [m]
  {
    assert (ms + [m])[..|ms|] == ms;
  }

  lemma {:induction false} CommandsOfAttempt(ms: seq<Message>)
    ensures Commands(ms + [On]) == Commands(ms) + [On]
    ensures Commands(ms + [On, Off]) == Commands(ms) + [On, Off]
  {
    hide Commands;
    assert ms + [On, Off] == ms + [On] + [Off] && Commands(ms) + [On, Off] == Commands(ms) + [On] + [Off];
    CommandsSnoc(ms, On);
    CommandsSnoc(ms + [On], Off);
  }

  /** The messages of `k` failed attempts. */
  function Retries(k: nat): seq<Message> {
    if k == 0 then [] else Retries(k - 1) + [On, Off]
  }
}
