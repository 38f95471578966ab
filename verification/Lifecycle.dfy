/** The start/stop protocol of the native lifecycle monitors
    (src/Virt_ComputerSystemIndication.c): one mutex, one slot per platform, and
    threads that read, wait, leave and reset their slot.

    The state machine interleaves single steps.  ActivateFilter keeps the mutex
    from its first to its last step, but a thread it has created may already run
    its unlocked prelude, so its steps are modelled one by one.  Thread handles
    and argument blocks are numbered; 0 is the NULL handle, and a number is
    never given out twice. */
module Lifecycle {
  import opened Prelude

  const PLATFORMS: nat := 3

  /** csi_thread_data_t: the fields the native provider uses. */
  datatype Slot = Slot(id: nat, activeFilters: int, args: Option<nat>)

  /** Where a monitor thread is.  Connecting, LoopHead, InPass and Exiting hold the mutex. */
  datatype Pc =
    | Start       // created, thread->args not read yet
    | WantLock    // prefix found, before the first pthread_mutex_lock
    | Connecting
    | LoopHead    // about to test active_filters
    | InPass
    | Waiting     // in pthread_cond_timedwait
    | ExitWait    // mutex released, before the second pthread_mutex_lock
    | Exiting
    | Done

  datatype Mon = Mon(platform: nat, pc: Pc, args: Option<nat>)

  /** How far an ActivateFilter call that holds the mutex has come. */
  datatype Stage =
    | Counted                  // active_filters += 1 done
    | Allocated(a: nat)        // ind_args allocated
    | Armed(a: nat)            // thread->args set
    | Spawned(a: nat, tid: nat) // thread runs, thread->id not assigned yet

  datatype Holder = Free | Thread(tid: nat) | Activator(platform: nat, stage: Stage)

  datatype State = State(
    holder: Holder,
    slots: seq<Slot>,
    monitors: map<nat, Mon>,
    alive: set<nat>,
    nextTid: nat,
    nextArgs: nat,
    enabled: bool)

  datatype Step =
    | BeginActivate(p: nat)
    | FindRunning          // thread->id > 0: nothing more to do
    | AllocFails
    | AllocArgs
    | ContextFails
    | SetArgs
    | SpawnFails
    | Spawn
    | FinishSpawn          // thread->id = ..., unlock
    | Deactivate(p: nat)
    | SetEnabled(on: bool)
    | ReadArgs(tid: nat, prefixFound: bool)
    | Lock(tid: nat)
    | ConnectFails(tid: nat)
    | Connect(tid: nat)
    | LeaveLoop(tid: nat)
    | StartPass(tid: nat)
    | Wait(tid: nat)
    | Wake(tid: nat)
    | LockForExit(tid: nat)
    | ExitSection(tid: nat)

  const INIT := State(Free, [Slot(0, 0, None), Slot(0, 0, None), Slot(0, 0, None)], map[], {}, 1, 0, false)

  predicate At(s: State, tid: nat, pc: Pc) {
    tid in s.monitors && s.monitors[tid].pc == pc && s.monitors[tid].platform < |s.slots|
  }

  predicate InStage(s: State) {
    s.holder.Activator? && s.holder.platform < |s.slots|
  }

  predicate Enabled(s: State, step: Step) {
    match step
    case BeginActivate(p) => s.holder.Free? && p < |s.slots|
    case FindRunning => InStage(s) && s.holder.stage.Counted? && s.slots[s.holder.platform].id > 0
    case AllocFails | AllocArgs => InStage(s) && s.holder.stage.Counted? && s.slots[s.holder.platform].id == 0
    case ContextFails | SetArgs => InStage(s) && s.holder.stage.Allocated?
    case SpawnFails | Spawn => InStage(s) && s.holder.stage.Armed?
    case FinishSpawn => InStage(s) && s.holder.stage.Spawned?
    case Deactivate(p) => s.holder.Free? && p < |s.slots|
    case SetEnabled(_) => s.holder.Free?
    case ReadArgs(tid, _) => At(s, tid, Start)
    case Lock(tid) => s.holder.Free? && At(s, tid, WantLock)
    case ConnectFails(tid) => At(s, tid, Connecting)
    case Connect(tid) => At(s, tid, Connecting)
    case LeaveLoop(tid) => At(s, tid, LoopHead) && s.slots[s.monitors[tid].platform].activeFilters <= 0
    case StartPass(tid) => At(s, tid, LoopHead) && s.slots[s.monitors[tid].platform].activeFilters > 0
    case Wait(tid) => At(s, tid, InPass)
    case Wake(tid) => s.holder.Free? && At(s, tid, Waiting)
    case LockForExit(tid) => s.holder.Free? && At(s, tid, ExitWait)
    case ExitSection(tid) => At(s, tid, Exiting)
  }

  function AddFilters(s: State, p: nat, n: int): State
    requires p < |s.slots|
  {
    s.(slots := s.slots[p := s.slots[p].(activeFilters := s.slots[p].activeFilters + n)])
  }

  function Move(s: State, tid: nat, pc: Pc): State
    requires tid in s.monitors
  {
    s.(monitors := s.monitors[tid := s.monitors[tid].(pc := pc)])
  }

  function Do(s: State, step: Step): State
    requires Enabled(s, step)
  {
    match step
    case BeginActivate(p) => AddFilters(s, p, 1).(holder := Activator(p, Counted))
    case FindRunning => s.(holder := Free)
    case AllocFails => AddFilters(s, s.holder.platform, -1).(holder := Free)
    case AllocArgs =>
      s.(holder := s.holder.(stage := Allocated(s.nextArgs)), alive := s.alive + {s.nextArgs},
                   nextArgs := s.nextArgs + 1)
    case ContextFails =>
      AddFilters(s, s.holder.platform, -1).(holder := Free, alive := s.alive - {s.holder.stage.a})
    case SetArgs =>
      var (p, a) := (s.holder.platform, s.holder.stage.a);
      s.(holder := Activator(p, Armed(a)), slots := s.slots[p := s.slots[p].(args := Some(a))])
    case SpawnFails =>
      // thread->id = NULL; the freed block stays referenced by thread->args
      var (p, a) := (s.holder.platform, s.holder.stage.a);
      var s1 := AddFilters(s, p, -1);
      s1.(holder := Free, alive := s.alive - {a}, slots := s1.slots[p := s1.slots[p].(id := 0)])
    case Spawn =>
      var (p, a) := (s.holder.platform, s.holder.stage.a);
      s.(holder := Activator(p, Spawned(a, s.nextTid)),
         monitors := s.monitors[s.nextTid := Mon(p, Start, None)],
         nextTid := s.nextTid + 1)
    case FinishSpawn =>
      var (p, tid) := (s.holder.platform, s.holder.stage.tid);
      s.(holder := Free, slots := s.slots[p := s.slots[p].(id := tid)])
    case Deactivate(p) => AddFilters(s, p, -1)
    case SetEnabled(on) => s.(enabled := on)
    case ReadArgs(tid, prefixFound) =>
      var m := s.monitors[tid];
      var args := s.slots[m.platform].args;
      s.(monitors := s.monitors[tid := Mon(m.platform, if args.Some? && prefixFound then WantLock else ExitWait, args)])
    case Lock(tid) => Move(s, tid, Connecting).(holder := Thread(tid))
    case ConnectFails(tid) => Move(s, tid, ExitWait).(holder := Free)
    case Connect(tid) => Move(s, tid, LoopHead)
    case LeaveLoop(tid) => Move(s, tid, ExitWait).(holder := Free)
    case StartPass(tid) => Move(s, tid, InPass)
    case Wait(tid) => Move(s, tid, Waiting).(holder := Free)
    case Wake(tid) => Move(s, tid, LoopHead).(holder := Thread(tid))
    case LockForExit(tid) => Move(s, tid, Exiting).(holder := Thread(tid))
    case ExitSection(tid) =>
      var p := s.monitors[tid].platform;
      var args := s.slots[p].args;
      Move(s, tid, Done).(holder := Free,
                          slots := s.slots[p := Slot(0, 0, None)],
                          alive := if args.Some? then s.alive - {args.value} else s.alive)
  }

  // ----- invariant

  predicate Live(s: State, tid: nat) {
    tid in s.monitors && s.monitors[tid].pc != Done
  }

  predicate Holds(pc: Pc) {
    pc.Connecting? || pc.LoopHead? || pc.InPass? || pc.Exiting?
  }

  /** The activation that has created `tid` has not stored its handle yet. */
  predicate BeingStored(s: State, tid: nat) {
    s.holder.Activator? && s.holder.stage.Spawned? && s.holder.stage.tid == tid
  }

  ghost predicate Shape(s: State) {
    && |s.slots| == PLATFORMS
    && 0 < s.nextTid
    && (forall t :: t in s.monitors ==> 0 < t < s.nextTid && s.monitors[t].platform < PLATFORMS)
    && (forall a :: a in s.alive ==> a < s.nextArgs)
    && (forall p :: 0 <= p < PLATFORMS && s.slots[p].args.Some? ==> s.slots[p].args.value < s.nextArgs)
    && (s.holder.Activator? ==> s.holder.platform < PLATFORMS)
  }

  /** The mutex is held by exactly the thread whose program counter says so. */
  ghost predicate MutexExact(s: State) {
    forall t: nat {:trigger s.monitors[t]} :: t in s.monitors ==> (Holds(s.monitors[t].pc) <==> s.holder == Thread(t))
  }

  ghost predicate OnePerPlatform(s: State) {
    forall t: nat, u: nat :: Live(s, t) && Live(s, u) && s.monitors[t].platform == s.monitors[u].platform ==> t == u
  }

  ghost predicate IdsExact(s: State)
    requires Shape(s)
  {
    && (forall t: nat {:trigger Live(s, t)} :: Live(s, t) ==>
          s.slots[s.monitors[t].platform].id == if BeingStored(s, t) then 0 else t)
    && (forall p :: 0 <= p < PLATFORMS && s.slots[p].id != 0 ==>
          Live(s, s.slots[p].id) && s.monitors[s.slots[p].id].platform == p)
  }

  /** A live monitor's argument block is the slot's, is allocated, and is the one it read. */
  ghost predicate ArgsHeld(s: State)
    requires Shape(s)
  {
    forall t: nat {:trigger Live(s, t)} :: Live(s, t) ==>
      var args := s.slots[s.monitors[t].platform].args;
      && args.Some? && args.value in s.alive
      && (s.monitors[t].pc == Start || s.monitors[t].args == args)
  }

  ghost predicate ArgsUnshared(s: State)
    requires Shape(s)
  {
    forall p, q :: 0 <= p < q < PLATFORMS && s.slots[p].args.Some? ==> s.slots[p].args != s.slots[q].args
  }

  /** What the stages of an activation know. */
  ghost predicate StageExact(s: State)
    requires Shape(s)
  {
    s.holder.Activator? ==>
      var p := s.holder.platform;
      match s.holder.stage
      case Counted => true
      case Allocated(a) =>
        && s.slots[p].id == 0 && a in s.alive
        && forall q :: 0 <= q < PLATFORMS ==> s.slots[q].args != Some(a)
      case Armed(a) => s.slots[p].id == 0 && a in s.alive && s.slots[p].args == Some(a)
      case Spawned(a, tid) => s.slots[p].id == 0 && Live(s, tid) && s.monitors[tid].platform == p
  }

  ghost predicate Inv(s: State) {
    && Shape(s) && MutexExact(s) && OnePerPlatform(s) && IdsExact(s)
    && ArgsHeld(s) && ArgsUnshared(s) && StageExact(s)
  }

  lemma KeepsSizes(s: State, step: Step)
    requires Shape(s) && StageExact(s) && Enabled(s, step)
    ensures var s' := Do(s, step);
            && |s'.slots| == PLATFORMS && s.nextTid <= s'.nextTid
            && (s'.holder.Activator? ==> s'.holder.platform < PLATFORMS)
  {
  }

  lemma KeepsMonitors(s: State, step: Step)
    requires Shape(s) && StageExact(s) && Enabled(s, step)
    ensures var s' := Do(s, step);
            forall t :: t in s'.monitors ==> 0 < t < s'.nextTid && s'.monitors[t].platform < PLATFORMS
  {
  }

  lemma KeepsBlocks(s: State, step: Step)
    requires Shape(s) && StageExact(s) && Enabled(s, step)
    ensures var s' := Do(s, step);
            && (forall a :: a in s'.alive ==> a < s'.nextArgs)
            && forall p :: 0 <= p < |s'.slots| && s'.slots[p].args.Some? ==> s'.slots[p].args.value < s'.nextArgs
  {
  }

  lemma KeepsShape(s: State, step: Step)
    requires Shape(s) && StageExact(s) && Enabled(s, step)
    ensures Shape(Do(s, step))
  {
    KeepsSizes(s, step);
    KeepsMonitors(s, step);
    KeepsBlocks(s, step);
  }

  /** Only a spawn adds a live thread, and it finds its platform idle. */
  lemma LiveBefore(s: State, step: Step, t: nat)
    requires Inv(s) && Enabled(s, step) && Live(Do(s, step), t)
    ensures if step.Spawn? && t == s.nextTid then !Live(s, t)
            else Live(s, t) && s.monitors[t].platform == Do(s, step).monitors[t].platform
  {
  }

  /** With a zero handle and no handle being stored, nothing runs on the platform. */
  lemma IdleWhenIdZero(s: State, p: nat, t: nat)
    requires Inv(s) && p < PLATFORMS && s.slots[p].id == 0 && Live(s, t)
    requires !(s.holder.Activator? && s.holder.stage.Spawned?)
    ensures s.monitors[t].platform != p
  {
  }

  lemma KeepsMutexExact(s: State, step: Step)
    requires Inv(s) && Enabled(s, step)
    ensures MutexExact(Do(s, step))
  {
  }

  lemma KeepsOnePerPlatform(s: State, step: Step)
    requires Inv(s) && Enabled(s, step)
    ensures OnePerPlatform(Do(s, step))
  {
    var s' := Do(s, step);
    forall t: nat, u: nat | Live(s', t) && Live(s', u) && s'.monitors[t].platform == s'.monitors[u].platform
      ensures t == u
    {
      LiveBefore(s, step, t);
      LiveBefore(s, step, u);
      if step.Spawn? {
        if Live(s, t) { IdleWhenIdZero(s, s.holder.platform, t); }
        if Live(s, u) { IdleWhenIdZero(s, s.holder.platform, u); }
      }
    }
  }

  lemma KeepsIdOf(s: State, step: Step, t: nat)
    requires Inv(s) && Enabled(s, step) && Live(Do(s, step), t)
    ensures var s' := Do(s, step);
            s'.monitors[t].platform < |s'.slots| &&
            s'.slots[s'.monitors[t].platform].id == if BeingStored(s', t) then 0 else t
  {
    LiveBefore(s, step, t);
    if step.SpawnFails? { IdleWhenIdZero(s, s.holder.platform, t); }
  }

  /** A handle in a slot was there before, or is stored by this step. */
  lemma HandleComesFrom(s: State, step: Step, p: nat)
    requires Inv(s) && Enabled(s, step) && p < PLATFORMS
    ensures var s' := Do(s, step);
            && |s'.slots| == PLATFORMS
            && (s'.slots[p].id != 0 ==>
                  || (step.FinishSpawn? && s.holder.platform == p && s'.slots[p].id == s.holder.stage.tid)
                  || (s'.slots[p].id == s.slots[p].id && step != ExitSection(s.slots[p].id)))
  {
    KeepsShape(s, step);
    if s.slots[p].id != 0 { assert Live(s, s.slots[p].id); }
  }

  /** Only its exit section ends a thread. */
  lemma LiveUntilExit(s: State, step: Step, t: nat)
    requires Shape(s) && Enabled(s, step) && Live(s, t) && step != ExitSection(t)
    ensures Live(Do(s, step), t) && Do(s, step).monitors[t].platform == s.monitors[t].platform
  {
    assert step.Spawn? ==> t != s.nextTid;
  }

  lemma KeepsOwnerOf(s: State, step: Step, p: nat)
    requires Inv(s) && Enabled(s, step) && p < PLATFORMS
    ensures |Do(s, step).slots| == PLATFORMS
    ensures var s' := Do(s, step);
            s'.slots[p].id != 0 ==> Live(s', s'.slots[p].id) && s'.monitors[s'.slots[p].id].platform == p
  {
    HandleComesFrom(s, step, p);
    var t := Do(s, step).slots[p].id;
    if t != 0 {
      assert Live(s, t) && s.monitors[t].platform == p && step != ExitSection(t);
      LiveUntilExit(s, step, t);
    }
  }

  lemma KeepsIdsExact(s: State, step: Step)
    requires Inv(s) && Enabled(s, step)
    ensures Shape(Do(s, step)) && IdsExact(Do(s, step))
  {
    KeepsShape(s, step);
    var s' := Do(s, step);
    forall t: nat | Live(s', t)
      ensures s'.slots[s'.monitors[t].platform].id == if BeingStored(s', t) then 0 else t
    {
      KeepsIdOf(s, step, t);
    }
    forall p | 0 <= p < PLATFORMS && s'.slots[p].id != 0
      ensures Live(s', s'.slots[p].id) && s'.monitors[s'.slots[p].id].platform == p
    {
      KeepsOwnerOf(s, step, p);
    }
  }

  lemma KeepsArgsOf(s: State, step: Step, t: nat)
    requires Inv(s) && Enabled(s, step) && Live(Do(s, step), t)
    ensures var s' := Do(s, step);
            && s'.monitors[t].platform < |s'.slots|
            && var args := s'.slots[s'.monitors[t].platform].args;
            && args.Some? && args.value in s'.alive
            && (s'.monitors[t].pc == Start || s'.monitors[t].args == args)
  {
    LiveBefore(s, step, t);
    match step
    case SetArgs => IdleWhenIdZero(s, s.holder.platform, t);
    case SpawnFails =>
      IdleWhenIdZero(s, s.holder.platform, t);
    case ExitSection(tid) => assert Live(s, tid);
    case _ =>
  }

  lemma KeepsArgsHeld(s: State, step: Step)
    requires Inv(s) && Enabled(s, step)
    ensures Shape(Do(s, step)) && ArgsHeld(Do(s, step))
  {
    KeepsShape(s, step);
    forall t: nat | Live(Do(s, step), t) {
      KeepsArgsOf(s, step, t);
    }
  }

  lemma KeepsArgsUnshared(s: State, step: Step)
    requires Shape(s) && ArgsUnshared(s) && StageExact(s) && Enabled(s, step)
    ensures Shape(Do(s, step)) && ArgsUnshared(Do(s, step))
  {
    KeepsShape(s, step);
  }

  lemma KeepsStageExact(s: State, step: Step)
    requires Shape(s) && MutexExact(s) && StageExact(s) && Enabled(s, step)
    ensures Shape(Do(s, step)) && StageExact(Do(s, step))
  {
    KeepsShape(s, step);
  }

  lemma StepKeepsInv(s: State, step: Step)
    requires Inv(s) && Enabled(s, step)
    ensures Inv(Do(s, step))
  {
    KeepsShape(s, step);
    KeepsMutexExact(s, step);
    KeepsOnePerPlatform(s, step);
    KeepsIdsExact(s, step);
    KeepsArgsHeld(s, step);
    KeepsArgsUnshared(s, step);
    KeepsStageExact(s, step);
  }

  // ----- whole runs

  /** States reached from the initial one by enabled steps, in any interleaving. */
  ghost predicate IsRun(states: seq<State>, steps: seq<Step>) {
    && |states| == |steps| + 1
    && states[0] == INIT
    && forall i :: 0 <= i < |steps| ==> Enabled(states[i], steps[i]) && states[i + 1] == Do(states[i], steps[i])
  }

  lemma InitHoldsInv()
    ensures Inv(INIT)
  {
  }

  lemma {:induction false} RunKeepsInv(states: seq<State>, steps: seq<Step>, i: nat)
    requires IsRun(states, steps) && i < |states|
    ensures Inv(states[i])
  {
    if i == 0 {
      InitHoldsInv();
    } else {
      RunKeepsInv(states, steps, i - 1);
      StepKeepsInv(states[i - 1], steps[i - 1]);
    }
  }

  // ----- what has happened, read off the steps alone

  /** The platform of the latest activation. */
  function Caller(past: seq<Step>): nat {
    if past == [] then 0
    else if past[|past| - 1].BeginActivate? then past[|past| - 1].p
    else Caller(past[..|past| - 1])
  }

  /** How many threads have been created; they are numbered from 1. */
  function Spawns(past: seq<Step>): nat {
    if past == [] then 0 else Spawns(past[..|past| - 1]) + if past[|past| - 1].Spawn? then 1 else 0
  }

  /** The platform that thread `t` was created for. */
  function Home(past: seq<Step>, t: nat): nat {
    if past == [] then 0
    else
      var (rest, step) := (past[..|past| - 1], past[|past| - 1]);
      if step.Spawn? && Spawns(past) == t then Caller(rest) else Home(rest, t)
  }

  /** Successful activations of a platform, which found a thread or started one,
      minus its deactivations, since a thread of it last ran its exit section. */
  function Net(past: seq<Step>, p: nat): int {
    if past == [] then 0
    else
      var (rest, step) := (past[..|past| - 1], past[|past| - 1]);
      match step
      case FindRunning => Net(rest, p) + if Caller(rest) == p then 1 else 0
      case FinishSpawn => Net(rest, p) + if Caller(rest) == p then 1 else 0
      case Deactivate(q) => Net(rest, p) - if q == p then 1 else 0
      case ExitSection(t) => if Home(rest, t) == p then 0 else Net(rest, p)
      case _ => Net(rest, p)
  }

  /** Whether indications were last switched on. */
  function SwitchedOn(past: seq<Step>): bool {
    past != [] &&
    var step := past[|past| - 1];
    if step.SetEnabled? then step.on else SwitchedOn(past[..|past| - 1])
  }

  /** The state knows who is who. */
  ghost predicate Remembers(past: seq<Step>, s: State) {
    && s.nextTid == Spawns(past) + 1
    && s.enabled == SwitchedOn(past)
    && (s.holder.Activator? ==> s.holder.platform == Caller(past))
    && forall t: nat {:trigger s.monitors[t]} :: t in s.monitors ==> s.monitors[t].platform == Home(past, t)
  }

  lemma RemembersNext(past: seq<Step>, s: State, step: Step)
    requires Shape(s) && Enabled(s, step) && Remembers(past, s)
    ensures Remembers(past + [step], Do(s, step))
  {
    assert (past + [step])[..|past|] == past;
    var s' := Do(s, step);
    forall t: nat | t in s'.monitors ensures s'.monitors[t].platform == Home(past + [step], t) {
      if !step.Spawn? || t != s.nextTid {
        PlatformKept(s, step, t);
      }
    }
  }

  /** A counter is what was counted, and one more while an activation is under way. */
  ghost predicate Counts(past: seq<Step>, s: State, p: nat) {
    && p < |s.slots|
    && s.slots[p].activeFilters == Net(past, p) + if s.holder.Activator? && s.holder.platform == p then 1 else 0
  }

  lemma CountsActivation(past: seq<Step>, s: State, step: Step, p: nat)
    requires Inv(s) && Enabled(s, step) && Remembers(past, s) && Counts(past, s, p)
    requires s.holder.Activator? || step.BeginActivate?
    requires !step.ReadArgs?
    ensures Counts(past + [step], Do(s, step), p)
  {
    assert (past + [step])[..|past|] == past;
  }

  lemma CountsElse(past: seq<Step>, s: State, step: Step, p: nat)
    requires Inv(s) && Enabled(s, step) && Remembers(past, s) && Counts(past, s, p)
    requires (!s.holder.Activator? && !step.BeginActivate?) || step.ReadArgs?
    ensures Counts(past + [step], Do(s, step), p)
  {
    assert (past + [step])[..|past|] == past;
  }

  lemma CountsInRun(states: seq<State>, steps: seq<Step>, k: nat, p: nat)
    requires IsRun(states, steps) && k < |steps| && k + 1 < |states|
    requires Remembers(steps[..k], states[k]) && Counts(steps[..k], states[k], p)
    ensures Remembers(steps[..k + 1], states[k + 1]) && Counts(steps[..k + 1], states[k + 1], p)
  {
    var s, step, past := states[k], steps[k], steps[..k];
    RunStep(states, steps, k);
    assert steps[..k + 1] == past + [step];
    RemembersNext(past, s, step);
    if (s.holder.Activator? || step.BeginActivate?) && !step.ReadArgs? {
      CountsActivation(past, s, step, p);
    } else {
      CountsElse(past, s, step, p);
    }
  }

  lemma {:induction false} RunCounts(states: seq<State>, steps: seq<Step>, i: nat, p: nat)
    requires IsRun(states, steps) && i < |states| && p < PLATFORMS
    ensures Remembers(steps[..i], states[i]) && Counts(steps[..i], states[i], p)
  {
    if i > 0 {
      RunCounts(states, steps, i - 1, p);
      CountsInRun(states, steps, i - 1, p);
    }
  }

  /** In every reachable state each platform has at most one live monitor; while
      the mutex is free its handle is that monitor's, non-zero; its argument
      block is allocated; and active_filters is exactly the number of successful
      activations among the steps taken, minus the deactivations, since the
      platform's last reset. */
  lemma SafeAtAllTimes(states: seq<State>, steps: seq<Step>, i: nat, t: nat, p: nat)
    requires IsRun(states, steps) && i < |states| && p < PLATFORMS
    ensures var s := states[i];
            && |s.slots| == PLATFORMS
            && (forall u: nat ::
                  Live(s, t) && Live(s, u) && s.monitors[t].platform == s.monitors[u].platform ==> t == u)
            && (Live(s, t) ==>
                  && s.monitors[t].platform == Home(steps[..i], t) < PLATFORMS
                  && var slot := s.slots[s.monitors[t].platform];
                  && slot.args.Some? && slot.args.value in s.alive
                  && (s.holder.Free? ==> slot.id == t != 0))
            && (s.holder.Free? ==> s.slots[p].activeFilters == Net(steps[..i], p))
            && (s.holder.Free? && s.slots[p].id != 0 ==> Live(s, s.slots[p].id))
            && s.enabled == SwitchedOn(steps[..i])
  {
    RunKeepsInv(states, steps, i);
    RunCounts(states, steps, i, p);
  }

  // ----- nobody gets stuck

  /** A step that monitor `t` takes when it can. */
  function NextOf(s: State, t: nat): Step
    requires t in s.monitors && s.monitors[t].platform < |s.slots|
  {
    match s.monitors[t].pc
    case Start => ReadArgs(t, true)
    case WantLock => Lock(t)
    case Connecting => Connect(t)
    case LoopHead => if s.slots[s.monitors[t].platform].activeFilters <= 0 then LeaveLoop(t) else StartPass(t)
    case InPass => Wait(t)
    case Waiting => Wake(t)
    case ExitWait => LockForExit(t)
    case Exiting => ExitSection(t)
    case Done => Wake(t)
  }

  /** The step that the activation holding the mutex takes when nothing fails. */
  function NextOfCall(s: State): Step
    requires InStage(s)
  {
    match s.holder.stage
    case Counted => if s.slots[s.holder.platform].id > 0 then FindRunning else AllocArgs
    case Allocated(_) => SetArgs
    case Armed(_) => Spawn
    case Spawned(_, _) => FinishSpawn
  }

  /** In every reachable state whoever holds the mutex can go on, and when nobody does
      every live monitor can: there is no deadlock, and a monitor that reads its counter
      leaves or makes a pass, whatever it reads. */
  lemma NeverStuck(states: seq<State>, steps: seq<Step>, i: nat, t: nat)
    requires IsRun(states, steps) && i < |states|
    ensures var s := states[i];
            && (s.holder.Activator? ==> InStage(s) && Enabled(s, NextOfCall(s)))
            && (Live(s, t) ==>
                  && s.monitors[t].platform < |s.slots| && By(NextOf(s, t), t)
                  && (s.holder == Thread(t) || s.holder.Free? || s.monitors[t].pc.Start? ==> Enabled(s, NextOf(s, t))))
            && (s.holder.Thread? ==> Live(s, s.holder.tid))
  {
    RunKeepsInv(states, steps, i);
    HolderLives(states, steps, i);
  }

  predicate HolderIsLive(s: State) {
    s.holder.Thread? ==> Live(s, s.holder.tid)
  }

  lemma HolderNext(s: State, step: Step)
    requires Inv(s) && Enabled(s, step) && HolderIsLive(s)
    ensures HolderIsLive(Do(s, step))
  {
    if s.holder.Thread? {
      PlatformKept(s, step, s.holder.tid);
    }
  }

  lemma HolderInRun(states: seq<State>, steps: seq<Step>, k: nat)
    requires IsRun(states, steps) && k < |steps| && k + 1 < |states| && HolderIsLive(states[k])
    ensures HolderIsLive(states[k + 1])
  {
    RunStep(states, steps, k);
    HolderNext(states[k], steps[k]);
  }

  lemma {:induction false} HolderLives(states: seq<State>, steps: seq<Step>, i: nat)
    requires IsRun(states, steps) && i < |states|
    ensures HolderIsLive(states[i])
  {
    if i > 0 {
      HolderLives(states, steps, i - 1);
      HolderInRun(states, steps, i - 1);
    }
  }

  // ----- argument blocks are freed

  /** A live monitor's slot refers to the block. */
  ghost predicate Owned(s: State, a: nat) {
    exists t: nat :: Live(s, t) && s.monitors[t].platform < |s.slots| && s.slots[s.monitors[t].platform].args == Some(a)
  }

  /** An activation is about to hand it to its monitor. */
  predicate InHand(s: State, a: nat) {
    s.holder.Activator? && (s.holder.stage == Allocated(a) || s.holder.stage == Armed(a))
  }

  ghost predicate NoLeak(s: State) {
    forall a: nat :: a in s.alive ==> Owned(s, a) || InHand(s, a)
  }

  lemma StaysOwned(s: State, step: Step, a: nat)
    requires Inv(s) && Enabled(s, step) && Owned(s, a) && a in Do(s, step).alive
    ensures Owned(Do(s, step), a)
  {
    var t: nat :| Live(s, t) && s.monitors[t].platform < |s.slots| && s.slots[s.monitors[t].platform].args == Some(a);
    if step == ExitSection(t) {
      ExitFrees(s, t);
    } else {
      ArgsLastUntilExit(s, step, t);
      PlatformKept(s, step, t);
    }
  }

  lemma ExitFrees(s: State, t: nat)
    requires Inv(s) && Enabled(s, ExitSection(t))
    ensures var args := s.slots[s.monitors[t].platform].args;
            args.Some? && args.value !in Do(s, ExitSection(t)).alive
  {
    assert Live(s, t);
  }

  lemma HandedOn(s: State, step: Step, a: nat)
    requires Inv(s) && Enabled(s, step) && InHand(s, a) && a in Do(s, step).alive
    ensures InHand(Do(s, step), a) || Owned(Do(s, step), a)
  {
    if step.Spawn? {
      assert Live(Do(s, step), s.nextTid);
    }
  }

  lemma NoLeakNext(s: State, step: Step)
    requires Inv(s) && Enabled(s, step) && NoLeak(s)
    ensures NoLeak(Do(s, step))
  {
    forall a: nat | a in Do(s, step).alive ensures Owned(Do(s, step), a) || InHand(Do(s, step), a) {
      if a in s.alive {
        if Owned(s, a) {
          StaysOwned(s, step, a);
        } else {
          HandedOn(s, step, a);
        }
      }
    }
  }

  /** In every reachable state an argument block that is allocated is a live monitor's
      or about to become one's: none is lost, however an activation fails. */
  lemma {:induction false} NothingLeaks(states: seq<State>, steps: seq<Step>, i: nat)
    requires IsRun(states, steps) && i < |states|
    ensures NoLeak(states[i])
  {
    if i > 0 {
      NothingLeaks(states, steps, i - 1);
      RunStep(states, steps, i - 1);
      NoLeakNext(states[i - 1], steps[i - 1]);
    }
  }

  /** The step belongs to thread `t`. */
  predicate By(step: Step, t: nat) {
    match step
    case ReadArgs(u, _) => u == t
    case Lock(u) => u == t
    case ConnectFails(u) => u == t
    case Connect(u) => u == t
    case LeaveLoop(u) => u == t
    case StartPass(u) => u == t
    case Wait(u) => u == t
    case Wake(u) => u == t
    case LockForExit(u) => u == t
    case ExitSection(u) => u == t
    case _ => false
  }

  /** Nobody moves another thread. */
  lemma OthersStayPut(s: State, step: Step, t: nat)
    requires Shape(s) && Enabled(s, step) && t in s.monitors && !By(step, t)
    ensures t in Do(s, step).monitors && Do(s, step).monitors[t] == s.monitors[t]
  {
    assert step.Spawn? ==> t != s.nextTid;
  }

  /** While a monitor holds the mutex, in particular during a pass, nobody else
      changes a slot: no filter counter, no handle, no argument pointer, and
      indication delivery is not switched. */
  lemma PassIsUndisturbed(s: State, step: Step, t: nat)
    requires Inv(s) && Enabled(s, step)
    requires t in s.monitors && Holds(s.monitors[t].pc) && !By(step, t)
    ensures var s' := Do(s, step);
            s'.slots == s.slots && s'.enabled == s.enabled && s'.holder == s.holder && s'.alive == s.alive
  {
    assert forall u: nat :: u in s.monitors && Holds(s.monitors[u].pc) ==> u == t;
  }

  /** A live monitor's argument block is neither replaced nor freed by any step
      but its own exit section. */
  lemma ArgsLastUntilExit(s: State, step: Step, t: nat)
    requires Inv(s) && Enabled(s, step) && Live(s, t) && step != ExitSection(t)
    ensures var (s', p) := (Do(s, step), s.monitors[t].platform);
            && Live(s', t) && |s'.slots| == PLATFORMS
            && s'.slots[p].args == s.slots[p].args
            && s.slots[p].args.Some? && s.slots[p].args.value in s'.alive
  {
    KeepsShape(s, step);
    if By(step, t) {
      OwnStepKeepsArgs(s, step, t);
    } else {
      OthersStayPut(s, step, t);
      OthersKeepArgs(s, step, t);
    }
  }

  lemma OwnStepKeepsArgs(s: State, step: Step, t: nat)
    requires Inv(s) && Enabled(s, step) && Live(s, t) && By(step, t) && step != ExitSection(t)
    ensures Do(s, step).slots == s.slots && Do(s, step).alive == s.alive && Live(Do(s, step), t)
  {
  }

  lemma OthersKeepArgs(s: State, step: Step, t: nat)
    requires Inv(s) && Enabled(s, step) && Live(s, t) && !By(step, t)
    ensures var (s', p) := (Do(s, step), s.monitors[t].platform);
            && |s'.slots| == PLATFORMS && s'.slots[p].args == s.slots[p].args
            && s.slots[p].args.Some? && s.slots[p].args.value in s'.alive
  {
    KeepsShape(s, step);
    match step
    case SetArgs => IdleWhenIdZero(s, s.holder.platform, t);
    case SpawnFails => IdleWhenIdZero(s, s.holder.platform, t);
    case ExitSection(u) => assert Live(s, u);
    case _ =>
  }

  /** A monitor past its loop: its exit section comes next and wipes the slot. */
  predicate PastLoop(s: State, t: nat) {
    t in s.monitors && (s.monitors[t].pc == ExitWait || s.monitors[t].pc == Exiting)
  }

  lemma StaysPastLoop(s: State, step: Step, t: nat)
    requires Inv(s) && Enabled(s, step) && PastLoop(s, t)
    ensures if step == ExitSection(t)
            then Do(s, step).slots[s.monitors[t].platform] == Slot(0, 0, None) && At(Do(s, step), t, Done)
            else PastLoop(Do(s, step), t) && Do(s, step).monitors[t].platform == s.monitors[t].platform
  {
    if !By(step, t) {
      OthersStayPut(s, step, t);
    }
  }

  lemma StaysDone(s: State, step: Step, t: nat)
    requires Shape(s) && Enabled(s, step) && At(s, t, Done)
    ensures At(Do(s, step), t, Done)
  {
    OthersStayPut(s, step, t);
    KeepsSlots(s, step);
  }

  lemma KeepsSlots(s: State, step: Step)
    requires Enabled(s, step)
    ensures |Do(s, step).slots| == |s.slots|
  {
  }

  lemma StaysGone(s: State, step: Step, t: nat)
    requires Inv(s) && Enabled(s, step) && (PastLoop(s, t) || At(s, t, Done))
    ensures PastLoop(Do(s, step), t) || At(Do(s, step), t, Done)
  {
    if PastLoop(s, t) {
      StaysPastLoop(s, step, t);
    } else {
      StaysDone(s, step, t);
    }
  }

  /** What the invariant says of one step of a run. */
  lemma RunStep(states: seq<State>, steps: seq<Step>, k: nat)
    requires IsRun(states, steps) && k < |steps|
    ensures k + 1 < |states| && Inv(states[k]) && Enabled(states[k], steps[k])
    ensures states[k + 1] == Do(states[k], steps[k])
  {
    RunKeepsInv(states, steps, k);
  }

  predicate Gone(s: State, t: nat) {
    PastLoop(s, t) || At(s, t, Done)
  }

  lemma GoneNext(states: seq<State>, steps: seq<Step>, k: nat, t: nat)
    requires IsRun(states, steps) && k < |steps| && k + 1 < |states| && Gone(states[k], t)
    ensures Gone(states[k + 1], t)
  {
    RunStep(states, steps, k);
    StaysGone(states[k], steps[k], t);
  }

  /** Once past its loop a monitor makes no further pass, whatever anyone does:
      until it is done it stays past the loop, so nothing that an activation adds
      in that window is ever acted on by it. */
  lemma {:induction false} NoPassAfterLeaving(states: seq<State>, steps: seq<Step>, i: nat, j: nat, t: nat)
    requires IsRun(states, steps) && i <= j < |states| && PastLoop(states[i], t)
    ensures PastLoop(states[j], t) || At(states[j], t, Done)
    decreases j - i
  {
    if i < j {
      NoPassAfterLeaving(states, steps, i, j - 1, t);
      GoneNext(states, steps, j - 1, t);
    }
  }

  // ----- what a monitor does between two of its positions

  /** Connected, with the loop not left yet. */
  predicate InLoop(s: State, t: nat) {
    t in s.monitors && (s.monitors[t].pc == LoopHead || s.monitors[t].pc == InPass || s.monitors[t].pc == Waiting)
  }

  /** Running, but not connected yet. */
  predicate Early(s: State, t: nat) {
    t in s.monitors && (s.monitors[t].pc == Start || s.monitors[t].pc == WantLock || s.monitors[t].pc == Connecting)
  }

  /** Thread `t` reads its platform's counter. */
  predicate Consults(step: Step, t: nat) {
    step == LeaveLoop(t) || step == StartPass(t)
  }

  /** Thread `t` finds no class prefix, or cannot connect. */
  predicate GivesUp(step: Step, t: nat) {
    step == ReadArgs(t, false) || step == ConnectFails(t)
  }

  lemma InLoopCannot(s: State, step: Step, t: nat)
    requires Enabled(s, step) && InLoop(s, t)
    ensures !GivesUp(step, t) && step != ExitSection(t)
  {
  }

  lemma InLoopOwnStep(s: State, step: Step, t: nat)
    requires Inv(s) && Enabled(s, step) && InLoop(s, t) && By(step, t)
    ensures if step == LeaveLoop(t) then PastLoop(Do(s, step), t) else InLoop(Do(s, step), t)
  {
  }

  lemma InLoopOtherStep(s: State, step: Step, t: nat)
    requires Inv(s) && Enabled(s, step) && InLoop(s, t) && !By(step, t)
    ensures step != LeaveLoop(t) && InLoop(Do(s, step), t)
  {
    OthersStayPut(s, step, t);
  }

  lemma InLoopStep(s: State, step: Step, t: nat)
    requires Inv(s) && Enabled(s, step) && InLoop(s, t)
    ensures !GivesUp(step, t) && step != ExitSection(t)
    ensures if step == LeaveLoop(t) then PastLoop(Do(s, step), t) else InLoop(Do(s, step), t)
  {
    InLoopCannot(s, step, t);
    if By(step, t) {
      InLoopOwnStep(s, step, t);
    } else {
      InLoopOtherStep(s, step, t);
    }
  }

  lemma EarlyCannot(s: State, step: Step, t: nat)
    requires Enabled(s, step) && Early(s, t)
    ensures !Consults(step, t) && step != ExitSection(t)
  {
  }

  /** The own steps of a monitor that has not connected yet. */
  lemma EarlyOwnStep(s: State, step: Step, t: nat)
    requires Inv(s) && Enabled(s, step) && Early(s, t) && By(step, t)
    ensures if GivesUp(step, t) then PastLoop(Do(s, step), t) else Early(Do(s, step), t) || InLoop(Do(s, step), t)
  {
    assert Live(s, t);
  }

  lemma EarlyStep(s: State, step: Step, t: nat)
    requires Inv(s) && Enabled(s, step) && Early(s, t)
    ensures if GivesUp(step, t) then PastLoop(Do(s, step), t) else Early(Do(s, step), t) || InLoop(Do(s, step), t)
  {
    if By(step, t) {
      EarlyOwnStep(s, step, t);
    } else {
      EarlyOtherStep(s, step, t);
    }
  }

  lemma EarlyOtherStep(s: State, step: Step, t: nat)
    requires Inv(s) && Enabled(s, step) && Early(s, t) && !By(step, t)
    ensures !GivesUp(step, t) && Early(Do(s, step), t)
  {
    OthersStayPut(s, step, t);
  }

  /** A monitor stays on its platform. */
  lemma {:induction false} PlatformStays(states: seq<State>, steps: seq<Step>, i: nat, j: nat, t: nat)
    requires IsRun(states, steps) && i <= j < |states| && t in states[i].monitors
    ensures t in states[j].monitors && states[j].monitors[t].platform == states[i].monitors[t].platform < PLATFORMS
    decreases j - i
  {
    RunKeepsInv(states, steps, i);
    if i < j {
      assert Enabled(states[i], steps[i]) && states[i + 1] == Do(states[i], steps[i]);
      PlatformKept(states[i], steps[i], t);
      PlatformStays(states, steps, i + 1, j, t);
    }
  }

  lemma PlatformKept(s: State, step: Step, t: nat)
    requires Shape(s) && Enabled(s, step) && t in s.monitors
    ensures t in Do(s, step).monitors && Do(s, step).monitors[t].platform == s.monitors[t].platform
  {
    if !By(step, t) {
      OthersStayPut(s, step, t);
    }
  }

  /** A monitor leaves its loop exactly when its platform has at most as many
      successful activations as deactivations since its last reset, and makes a pass
      exactly when it has more. */
  lemma ConsultsExactly(states: seq<State>, steps: seq<Step>, k: nat, t: nat)
    requires IsRun(states, steps) && k < |steps| && Consults(steps[k], t)
    ensures steps[k] == LeaveLoop(t) <==> Net(steps[..k], Home(steps[..k], t)) <= 0
  {
    RunStep(states, steps, k);
    RunCounts(states, steps, k, states[k].monitors[t].platform);
    assert Holds(states[k].monitors[t].pc) && states[k].holder == Thread(t);
  }

  /** Over any run, a monitor that is connected at one point and past its loop at a
      later one has left in between, at a moment when the steps taken held at most as
      many successful activations of its platform as deactivations since its last
      reset. */
  lemma {:induction false} LeavesOnlyWhenIdle(states: seq<State>, steps: seq<Step>, i: nat, j: nat, t: nat)
    requires IsRun(states, steps) && i <= j < |states| && InLoop(states[i], t) && PastLoop(states[j], t)
    ensures states[i].monitors[t].platform < PLATFORMS
    ensures exists k :: i <= k < j && steps[k] == LeaveLoop(t)
                        && Net(steps[..k], states[i].monitors[t].platform) <= 0
    decreases j - i
  {
    RunKeepsInv(states, steps, i);
    assert i < j;
    assert Enabled(states[i], steps[i]) && states[i + 1] == Do(states[i], steps[i]);
    InLoopStep(states[i], steps[i], t);
    if steps[i] == LeaveLoop(t) {
      RunCounts(states, steps, i, states[i].monitors[t].platform);
      ConsultsExactly(states, steps, i, t);
    } else {
      PlatformKept(states[i], steps[i], t);
      LeavesOnlyWhenIdle(states, steps, i + 1, j, t);
    }
  }

  /** Past its loop, or done, a monitor neither reads its counter nor gives up. */
  lemma {:induction false} QuietAfterLeaving(states: seq<State>, steps: seq<Step>, i: nat, k: nat, t: nat)
    requires IsRun(states, steps) && i <= k < |steps| && PastLoop(states[i], t)
    ensures !Consults(steps[k], t) && !GivesUp(steps[k], t)
  {
    NoPassAfterLeaving(states, steps, i, k, t);
    assert Enabled(states[k], steps[k]);
  }

  /** Connected, a monitor no longer gives up. */
  lemma {:induction false} NeverGivesUpAgain(states: seq<State>, steps: seq<Step>, i: nat, k: nat, t: nat)
    requires IsRun(states, steps) && i <= k < |steps| && InLoop(states[i], t)
    ensures !GivesUp(steps[k], t)
    decreases k - i
  {
    RunKeepsInv(states, steps, i);
    assert Enabled(states[i], steps[i]) && states[i + 1] == Do(states[i], steps[i]);
    InLoopStep(states[i], steps[i], t);
    if i < k {
      if steps[i] == LeaveLoop(t) {
        QuietAfterLeaving(states, steps, i + 1, k, t);
      } else {
        NeverGivesUpAgain(states, steps, i + 1, k, t);
      }
    }
  }

  /** A connected monitor reads its counter before it exits. */
  lemma {:induction false} ConsultsFromLoop(states: seq<State>, steps: seq<Step>, i: nat, j: nat, t: nat)
    requires IsRun(states, steps) && i <= j < |steps| && InLoop(states[i], t) && steps[j] == ExitSection(t)
    ensures exists k :: i <= k < j && Consults(steps[k], t)
  {
    assert Enabled(states[j], steps[j]) && PastLoop(states[j], t);
    LeavesOnlyWhenIdle(states, steps, i, j, t);
    var k :| i <= k < j && steps[k] == LeaveLoop(t);
    assert Consults(steps[k], t);
  }

  /** A monitor that has not connected yet reads its counter before it exits exactly
      when it does not give up. */
  lemma {:induction false} ConsultsFromEarly(states: seq<State>, steps: seq<Step>, i: nat, j: nat, t: nat)
    requires IsRun(states, steps) && i <= j < |steps| && Early(states[i], t) && steps[j] == ExitSection(t)
    ensures (exists k :: i <= k < j && Consults(steps[k], t)) <==> forall k :: i <= k < j ==> !GivesUp(steps[k], t)
    decreases j - i
  {
    RunKeepsInv(states, steps, i);
    assert Enabled(states[i], steps[i]) && states[i + 1] == Do(states[i], steps[i]);
    assert Enabled(states[j], steps[j]);
    EarlyCannot(states[i], steps[i], t);
    EarlyStep(states[i], steps[i], t);
    assert i < j;
    if GivesUp(steps[i], t) {
      forall k | i <= k < j ensures !Consults(steps[k], t) {
        if i < k {
          QuietAfterLeaving(states, steps, i + 1, k, t);
        }
      }
    } else if InLoop(states[i + 1], t) {
      ConsultsFromLoop(states, steps, i + 1, j, t);
      forall k | i <= k < j ensures !GivesUp(steps[k], t) {
        if i < k {
          NeverGivesUpAgain(states, steps, i + 1, k, t);
        }
      }
    } else {
      ConsultsFromEarly(states, steps, i + 1, j, t);
    }
  }

  /** What becomes of an activation that is made, and successful, while thread `t`
      is the platform's live monitor (or that has just started it): over any run up
      to the exit section that wipes the slot, the monitor looks at the counter
      again exactly when it was not past its loop, finds its class prefix and
      connects.  Otherwise the activation is gone without anyone having seen it. */
  lemma ActivationIsSeen(states: seq<State>, steps: seq<Step>, i: nat, j: nat, t: nat)
    requires IsRun(states, steps) && i <= j < |steps| && Live(states[i], t) && steps[j] == ExitSection(t)
    ensures (exists k :: i <= k < j && Consults(steps[k], t))
            <==> !PastLoop(states[i], t) && forall k :: i <= k < j ==> !GivesUp(steps[k], t)
  {
    if PastLoop(states[i], t) {
      forall k | i <= k < j ensures !Consults(steps[k], t) {
        QuietAfterLeaving(states, steps, i, k, t);
      }
    } else if InLoop(states[i], t) {
      ConsultsFromLoop(states, steps, i, j, t);
      forall k | i <= k < j ensures !GivesUp(steps[k], t) {
        NeverGivesUpAgain(states, steps, i, k, t);
      }
    } else {
      ConsultsFromEarly(states, steps, i, j, t);
    }
  }

  /** Activations of the platform outweigh deactivations, as counted since its reset. */
  predicate Wanted(past: seq<Step>, p: nat) {
    Net(past, p) > 0
  }

  /** A monitor that has read its counter cannot exit while it is wanted. */
  lemma SeenIsKept(states: seq<State>, steps: seq<Step>, k: nat, j: nat, t: nat)
    requires IsRun(states, steps) && k <= j < |steps| && Consults(steps[k], t) && steps[j] == ExitSection(t)
    ensures t in states[k].monitors && states[k].monitors[t].platform < PLATFORMS
    ensures exists m :: k <= m < j && !Wanted(steps[..m], states[k].monitors[t].platform)
  {
    RunKeepsInv(states, steps, k);
    assert Enabled(states[k], steps[k]) && Enabled(states[j], steps[j]);
    LeavesOnlyWhenIdle(states, steps, k, j, t);
    var m :| k <= m < j && Net(steps[..m], states[k].monitors[t].platform) <= 0;
    assert !Wanted(steps[..m], states[k].monitors[t].platform);
  }

  /** So an activation that no deactivation undoes is wiped only by a monitor that
      was past its loop already, found no class prefix or could not connect. */
  lemma WipedOnlyUnseen(states: seq<State>, steps: seq<Step>, i: nat, j: nat, t: nat)
    requires IsRun(states, steps) && i <= j < |steps| && Live(states[i], t) && steps[j] == ExitSection(t)
    requires forall k :: i <= k < j ==> Wanted(steps[..k], states[i].monitors[t].platform)
    ensures PastLoop(states[i], t) || exists k :: i <= k < j && GivesUp(steps[k], t)
  {
    ActivationIsSeen(states, steps, i, j, t);
    if exists k :: i <= k < j && Consults(steps[k], t) {
      var k :| i <= k < j && Consults(steps[k], t);
      PlatformStays(states, steps, i, k, t);
      SeenIsKept(states, steps, k, j, t);
    }
  }

  /** ActivateFilter for a platform whose handle is set. */
  function ActivateRunning(s: State, p: nat): State
    requires s.holder.Free? && |s.slots| == PLATFORMS && p < PLATFORMS && s.slots[p].id > 0
  {
    Do(Do(s, BeginActivate(p)), FindRunning)
  }

  lemma ActivateRunningKeepsMonitors(s: State, p: nat)
    requires Inv(s) && s.holder.Free? && p < PLATFORMS && s.slots[p].id > 0
    ensures var s1 := ActivateRunning(s, p);
            && Inv(s1) && s1.holder.Free? && s1.monitors == s.monitors
            && |s1.slots| == PLATFORMS && s1.slots[p].activeFilters == s.slots[p].activeFilters + 1
  {
    StepKeepsInv(s, BeginActivate(p));
    StepKeepsInv(Do(s, BeginActivate(p)), FindRunning);
  }

  /** LockForExit and ExitSection, back to back. */
  function Exit(s: State, t: nat): State
    requires s.holder.Free? && At(s, t, ExitWait)
  {
    Do(Do(s, LockForExit(t)), ExitSection(t))
  }

  lemma ExitLeavesNothing(s: State, t: nat)
    requires Inv(s) && s.holder.Free? && At(s, t, ExitWait)
    ensures var (p, s') := (s.monitors[t].platform, Exit(s, t));
            && |s'.slots| == PLATFORMS && s'.slots[p] == Slot(0, 0, None)
            && forall u: nat :: Live(s', u) ==> s'.monitors[u].platform != p
  {
    forall u: nat | Live(Exit(s, t), u) ensures Exit(s, t).monitors[u].platform != s.monitors[t].platform {
      assert Live(s, u) && u != t;
    }
  }

  /** The two ends of that condition, step by step.  Past its loop, the monitor
      goes on to reset the slot: the activation, though counted and reported as
      successful, is gone with nothing left running.  In its timed wait, the
      monitor goes on to another pass, provided the counter is positive.  A
      monitor that has yet to connect may do either: see ActivationIsSeen. */
  lemma ActivationFate(s: State, t: nat)
    requires Inv(s) && s.holder.Free? && Live(s, t)
    ensures var p := s.monitors[t].platform;
            && p < PLATFORMS && s.slots[p].id == t
            && var s1 := ActivateRunning(s, p);
            && |s1.slots| == PLATFORMS && s1.slots[p].activeFilters == s.slots[p].activeFilters + 1
            && (At(s, t, ExitWait) ==>
                  && At(s1, t, ExitWait)
                  && var s2 := Exit(s1, t);
                  && s2.slots[p] == Slot(0, 0, None)
                  && forall u: nat :: Live(s2, u) ==> s2.monitors[u].platform != p)
            && (At(s, t, Waiting) ==>
                  && Enabled(s1, Wake(t))
                  && (Enabled(Do(s1, Wake(t)), StartPass(t)) <==> s.slots[p].activeFilters + 1 > 0))
  {
    var p := s.monitors[t].platform;
    var s1 := ActivateRunning(s, p);
    ActivateRunningKeepsMonitors(s, p);
    if At(s, t, ExitWait) {
      ExitLeavesNothing(s1, t);
    }
  }

  // A concrete run: a first monitor fails to connect, and a second filter is
  // activated before its exit section.

  function LostStep(k: nat): Step {
    match k
    case 0 => BeginActivate(0)
    case 1 => AllocArgs
    case 2 => SetArgs
    case 3 => Spawn
    case 4 => FinishSpawn
    case 5 => ReadArgs(1, true)
    case 6 => Lock(1)
    case 7 => ConnectFails(1)
    case 8 => BeginActivate(0)
    case 9 => FindRunning
    case 10 => LockForExit(1)
    case _ => ExitSection(1)
  }

  /** `block` tells the state of argument block 0: 0 unused, 1 allocated, 2 freed. */
  function LostState(holder: Holder, slot: Slot, mons: map<nat, Mon>, block: nat): State {
    State(holder, [slot, Slot(0, 0, None), Slot(0, 0, None)], mons, if block == 1 then {0} else {},
          |mons| + 1, if block == 0 then 0 else 1, false)
  }

  /** The state before step `k`. */
  function LostAt(k: nat): State {
    var a := Some(0);
    match k
    case 0 => LostState(Free, Slot(0, 0, None), map[], 0)
    case 1 => LostState(Activator(0, Counted), Slot(0, 1, None), map[], 0)
    case 2 => LostState(Activator(0, Allocated(0)), Slot(0, 1, None), map[], 1)
    case 3 => LostState(Activator(0, Armed(0)), Slot(0, 1, a), map[], 1)
    case 4 => LostState(Activator(0, Spawned(0, 1)), Slot(0, 1, a), map[1 := Mon(0, Start, None)], 1)
    case 5 => LostState(Free, Slot(1, 1, a), map[1 := Mon(0, Start, None)], 1)
    case 6 => LostState(Free, Slot(1, 1, a), map[1 := Mon(0, WantLock, a)], 1)
    case 7 => LostState(Thread(1), Slot(1, 1, a), map[1 := Mon(0, Connecting, a)], 1)
    case 8 => LostState(Free, Slot(1, 1, a), map[1 := Mon(0, ExitWait, a)], 1)
    case 9 => LostState(Activator(0, Counted), Slot(1, 2, a), map[1 := Mon(0, ExitWait, a)], 1)
    case 10 => LostState(Free, Slot(1, 2, a), map[1 := Mon(0, ExitWait, a)], 1)
    case 11 => LostState(Thread(1), Slot(1, 2, a), map[1 := Mon(0, Exiting, a)], 1)
    case _ => LostState(Free, Slot(0, 0, None), map[1 := Mon(0, Done, a)], 2)
  }

  function LostStates(): (states: seq<State>)
    ensures |states| == 13 && forall k :: 0 <= k < 13 ==> states[k] == LostAt(k)
  {
    seq(13, k requires 0 <= k => LostAt(k))
  }

  function LostSteps(): (steps: seq<Step>)
    ensures |steps| == 12 && forall k :: 0 <= k < 12 ==> steps[k] == LostStep(k)
  {
    seq(12, k requires 0 <= k => LostStep(k))
  }

  lemma LostStepsFirst(k: nat)
    requires k < 2
    ensures Enabled(LostAt(k), LostStep(k)) && LostAt(k + 1) == Do(LostAt(k), LostStep(k))
  {
  }

  lemma LostStepsStart(k: nat)
    requires 2 <= k < 4
    ensures Enabled(LostAt(k), LostStep(k)) && LostAt(k + 1) == Do(LostAt(k), LostStep(k))
  {
  }

  lemma LostStepsMiddle(k: nat)
    requires 4 <= k < 6
    ensures Enabled(LostAt(k), LostStep(k)) && LostAt(k + 1) == Do(LostAt(k), LostStep(k))
  {
  }

  lemma LostStepsConnecting(k: nat)
    requires 6 <= k < 8
    ensures Enabled(LostAt(k), LostStep(k)) && LostAt(k + 1) == Do(LostAt(k), LostStep(k))
  {
  }

  lemma LostStepsSecond(k: nat)
    requires 8 <= k < 10
    ensures Enabled(LostAt(k), LostStep(k)) && LostAt(k + 1) == Do(LostAt(k), LostStep(k))
  {
  }

  lemma LostStepTen()
    ensures Enabled(LostAt(10), LostStep(10)) && LostAt(11) == Do(LostAt(10), LostStep(10))
  {
  }

  lemma LostStepEleven()
    ensures Enabled(LostAt(11), LostStep(11)) && LostAt(12) == Do(LostAt(11), LostStep(11))
  {
  }

  lemma LostStepsAll(k: nat)
    requires k < 12
    ensures Enabled(LostAt(k), LostStep(k)) && LostAt(k + 1) == Do(LostAt(k), LostStep(k))
  {
    if k < 2 { LostStepsFirst(k); }
    else if k < 4 { LostStepsStart(k); }
    else if k < 6 { LostStepsMiddle(k); }
    else if k < 8 { LostStepsConnecting(k); }
    else if k < 10 { LostStepsSecond(k); }
    else if k == 10 { LostStepTen(); }
    else { LostStepEleven(); }
  }

  lemma LostRun()
    ensures IsRun(LostStates(), LostSteps())
  {
    var states, steps := LostStates(), LostSteps();
    assert states[0] == LostAt(0) == INIT;
    forall i: nat | i < 12 ensures Enabled(states[i], steps[i]) && states[i + 1] == Do(states[i], steps[i]) {
      LostStepsAll(i);
    }
  }

  // A second one: the activation finds the first monitor about to connect, which
  // then fails.

  function EarlyLostStep(k: nat): Step {
    if k < 6 then LostStep(k)
    else
      match k
      case 6 => BeginActivate(0)
      case 7 => FindRunning
      case 8 => Lock(1)
      case 9 => ConnectFails(1)
      case _ => LostStep(k)
  }

  function EarlyLostAt(k: nat): State {
    var a := Some(0);
    match k
    case 7 => LostState(Activator(0, Counted), Slot(1, 2, a), map[1 := Mon(0, WantLock, a)], 1)
    case 8 => LostState(Free, Slot(1, 2, a), map[1 := Mon(0, WantLock, a)], 1)
    case 9 => LostState(Thread(1), Slot(1, 2, a), map[1 := Mon(0, Connecting, a)], 1)
    case _ => LostAt(k)
  }

  function EarlyLostStates(): (states: seq<State>)
    ensures |states| == 13 && forall k :: 0 <= k < 13 ==> states[k] == EarlyLostAt(k)
  {
    seq(13, k requires 0 <= k => EarlyLostAt(k))
  }

  function EarlyLostSteps(): (steps: seq<Step>)
    ensures |steps| == 12 && forall k :: 0 <= k < 12 ==> steps[k] == EarlyLostStep(k)
  {
    seq(12, k requires 0 <= k => EarlyLostStep(k))
  }

  lemma EarlyLostStepsMiddle(k: nat)
    requires 6 <= k < 8
    ensures Enabled(EarlyLostAt(k), EarlyLostStep(k)) && EarlyLostAt(k + 1) == Do(EarlyLostAt(k), EarlyLostStep(k))
  {
  }

  lemma EarlyLostStepsEnd(k: nat)
    requires 8 <= k < 10
    ensures Enabled(EarlyLostAt(k), EarlyLostStep(k)) && EarlyLostAt(k + 1) == Do(EarlyLostAt(k), EarlyLostStep(k))
  {
  }

  lemma EarlyLostRun()
    ensures IsRun(EarlyLostStates(), EarlyLostSteps())
  {
    var states, steps := EarlyLostStates(), EarlyLostSteps();
    assert states[0] == EarlyLostAt(0) == INIT;
    forall i: nat | i < 12 ensures Enabled(states[i], steps[i]) && states[i + 1] == Do(states[i], steps[i]) {
      if i < 6 || 10 <= i {
        LostStepsAll(i);
      } else if i < 8 {
        EarlyLostStepsMiddle(i);
      } else {
        EarlyLostStepsEnd(i);
      }
    }
  }

  /** The monitor need not be past its loop: an activation that finds it about to
      connect is lost in the same way when it cannot. */
  lemma ActivationCanBeLostEarly()
    ensures IsRun(EarlyLostStates(), EarlyLostSteps())
    ensures EarlyLostStep(7) == FindRunning && EarlyLostSteps()[11] == ExitSection(1)
    ensures Early(EarlyLostStates()[8], 1) && !PastLoop(EarlyLostStates()[8], 1)
    ensures EarlyLostStates()[12].slots[0] == Slot(0, 0, None) && forall t: nat :: !Live(EarlyLostStates()[12], t)
  {
    EarlyLostRun();
  }

  /** So "every successful activation leads to a running monitor" is false: the
      run's last activation finds thread 1, succeeds, is followed by no
      deactivation, and ends with the counter at zero and no monitor alive. */
  lemma ActivationCanBeLost()
    ensures IsRun(LostStates(), LostSteps())
    ensures LostStep(9) == FindRunning && LostStep(10) == LockForExit(1) && LostStep(11) == ExitSection(1)
    ensures LostStates()[12].slots[0] == Slot(0, 0, None) && forall t: nat :: !Live(LostStates()[12], t)
  {
    LostRun();
  }
}
