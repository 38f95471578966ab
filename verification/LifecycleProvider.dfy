/** ActivateFilter and DeActivateFilter of src/Virt_ComputerSystemIndication.c
    as code over the three slots, each proved to be a chain of steps of the
    protocol in `Lifecycle`. */
module LifecycleProvider {
  import opened Prelude
  import opened Lifecycle

  datatype Rc = RcOk | RcFailed

  /** What becomes of an activation that has to start a thread. */
  datatype Outcome = OutOfMemory | NoContext | NoThread | Started

  /** platform_from_class; None for the source's -1. */
  function PlatformOf(classname: string): (p: Option<nat>)
    ensures p.Some? ==> p.value < PLATFORMS
  {
    if StartsWith(classname, "Xen") then Some(0)
    else if StartsWith(classname, "KVM") then Some(1)
    else if StartsWith(classname, "LXC") then Some(2)
    else None
  }

  /** Starting a thread for a platform that has none. */
  function StartCall(s: State, outcome: Outcome): State
    requires Enabled(s, AllocArgs)
  {
    match outcome
    case OutOfMemory => Do(s, AllocFails)
    case NoContext => Do(Do(s, AllocArgs), ContextFails)
    case NoThread => Do(Do(Do(s, AllocArgs), SetArgs), SpawnFails)
    case Started => Do(Do(Do(Do(s, AllocArgs), SetArgs), Spawn), FinishSpawn)
  }

  /** The steps one ActivateFilter call takes when nothing else runs between them. */
  function ActivateCall(s: State, p: nat, outcome: Outcome): State
    requires s.holder.Free? && |s.slots| == PLATFORMS && p < PLATFORMS
  {
    var s1 := Do(s, BeginActivate(p));
    if s.slots[p].id > 0 then Do(s1, FindRunning) else StartCall(s1, outcome)
  }

  lemma StartCallKeepsInv(s: State, outcome: Outcome)
    requires Inv(s) && Enabled(s, AllocArgs)
    ensures Inv(StartCall(s, outcome)) && StartCall(s, outcome).holder.Free?
  {
    if outcome.OutOfMemory? {
      StepKeepsInv(s, AllocFails);
    } else {
      StepKeepsInv(s, AllocArgs);
      var s2 := Do(s, AllocArgs);
      if outcome.NoContext? {
        StepKeepsInv(s2, ContextFails);
      } else {
        StepKeepsInv(s2, SetArgs);
        var s3 := Do(s2, SetArgs);
        if outcome.NoThread? {
          StepKeepsInv(s3, SpawnFails);
        } else {
          StepKeepsInv(s3, Spawn);
          StepKeepsInv(Do(s3, Spawn), FinishSpawn);
        }
      }
    }
  }

  lemma ActivateCallKeepsInv(s: State, p: nat, outcome: Outcome)
    requires Inv(s) && s.holder.Free? && p < PLATFORMS
    ensures Inv(ActivateCall(s, p, outcome)) && ActivateCall(s, p, outcome).holder.Free?
  {
    var s1 := Do(s, BeginActivate(p));
    StepKeepsInv(s, BeginActivate(p));
    if s.slots[p].id > 0 {
      StepKeepsInv(s1, FindRunning);
    } else {
      StartCallKeepsInv(s1, outcome);
    }
  }

  /** A call counts for the filter counter exactly when it finds the platform
      running or starts it; every failure gives its increment back. */
  lemma OnlySuccessCounts(s: State, p: nat, outcome: Outcome)
    requires s.holder.Free? && |s.slots| == PLATFORMS && p < PLATFORMS && s.nextTid > 0
    ensures var s' := ActivateCall(s, p, outcome);
            && |s'.slots| == PLATFORMS
            && var succeeds := s.slots[p].id > 0 || outcome.Started?;
            && s'.slots[p].activeFilters == s.slots[p].activeFilters + (if succeeds then 1 else 0)
            && (succeeds <==> s'.slots[p].id > 0)
            && forall q :: 0 <= q < PLATFORMS && q != p ==> s'.slots[q] == s.slots[q]
  {
  }

  /** The classes of the three platforms, and no others. */
  lemma PlatformsOfClasses(suffix: string)
    ensures PlatformOf("Xen" + suffix) == Some(0)
    ensures PlatformOf("KVM" + suffix) == Some(1)
    ensures PlatformOf("LXC" + suffix) == Some(2)
    ensures forall cn: string :: PlatformOf(cn).None? <==> |cn| < 3 || cn[..3] !in {"Xen", "KVM", "LXC"}
  {
    forall cn: string ensures PlatformOf(cn).None? <==> |cn| < 3 || cn[..3] !in {"Xen", "KVM", "LXC"} {
      FirstThree(cn, "Xen");
      FirstThree(cn, "KVM");
      FirstThree(cn, "LXC");
    }
    FirstOf("Xen", suffix);
    FirstOf("KVM", suffix);
    FirstOf("LXC", suffix);
  }

  lemma FirstOf(name: string, suffix: string)
    requires |name| == 3
    ensures forall other: string :: |other| == 3 ==> (StartsWith(name + suffix, other) <==> other == name)
  {
    assert (name + suffix)[..3] == name;
    forall other: string | |other| == 3 ensures StartsWith(name + suffix, other) <==> other == name {
      FirstThree(name + suffix, other);
    }
  }

  lemma FirstThree(cn: string, name: string)
    requires |name| == 3
    ensures StartsWith(cn, name) <==> |cn| >= 3 && cn[..3] == name
  {
    if StartsWith(cn, name) {
      assert forall i :: 0 <= i < 3 ==> cn[i] == name[i];
    }
  }

  /** A slot after an activation. */
  function Activated(was: Slot, outcome: Outcome, block: nat, handle: nat): Slot {
    if was.id > 0 then was.(activeFilters := was.activeFilters + 1)
    else
      match outcome
      case OutOfMemory | NoContext => was
      case NoThread => Slot(0, was.activeFilters, Some(block))
      case Started => Slot(handle, was.activeFilters + 1, Some(block))
  }

  /** What the steps of a call come to. */
  lemma ActivatedSlots(s: State, p: nat, outcome: Outcome, block: nat, handle: nat)
    requires s.holder.Free? && |s.slots| == PLATFORMS && p < PLATFORMS
    requires block == s.nextArgs && handle == s.nextTid > 0
    ensures ActivateCall(s, p, outcome).slots == s.slots[p := Activated(s.slots[p], outcome, block, handle)]
  {
    var s1 := Do(s, BeginActivate(p));
    if s.slots[p].id > 0 {
      assert ActivateCall(s, p, outcome).slots == s1.slots;
    } else {
      StartedSlots(s1, p, outcome, block, handle);
    }
  }

  lemma StartedSlots(s: State, p: nat, outcome: Outcome, block: nat, handle: nat)
    requires Enabled(s, AllocArgs) && s.holder.platform == p && block == s.nextArgs && handle == s.nextTid > 0
    ensures var was := s.slots[p].(activeFilters := s.slots[p].activeFilters - 1);
            StartCall(s, outcome).slots == s.slots[p := Activated(was, outcome, block, handle)]
  {
    match outcome
    case OutOfMemory =>
    case NoContext =>
    case NoThread =>
    case Started =>
  }

  class Provider {
    /** csi_thread_data */
    var threads: array<Slot>

    constructor ()
      ensures fresh(threads) && threads[..] == INIT.slots
    {
      threads := new Slot[PLATFORMS](_ => Slot(0, 0, None));
    }

    /** The part of ActivateFilter from malloc on.  The status is not set when the
        thread cannot be created.  `block` and `handle` are what malloc and
        newThread return. */
    method StartThread(p: nat, outcome: Outcome, block: nat, handle: nat, ghost s: State) returns (rc: Rc)
      requires Enabled(s, AllocArgs) && s.holder.platform == p
      requires threads.Length == |s.slots| && s.slots == threads[..]
      requires block == s.nextArgs && handle == s.nextTid > 0
      modifies threads
      ensures threads[..] == StartCall(s, outcome).slots
      ensures rc == RcFailed <==> outcome.OutOfMemory? || outcome.NoContext?
    {
      rc := RcOk;
      var error := false;
      if outcome.OutOfMemory? {
        rc, error := RcFailed, true;
      } else if outcome.NoContext? {
        rc, error := RcFailed, true;
      } else {
        threads[p] := threads[p].(args := Some(block));
        threads[p] := threads[p].(id := if outcome.Started? then handle else 0);
        if threads[p].id == 0 {
          error := true;
        }
      }
      if error {
        threads[p] := threads[p].(activeFilters := threads[p].activeFilters - 1);
      }
    }

    /** ActivateFilter, from lock to unlock.  `op` is the object path's class. */
    method ActivateFilter(op: Option<string>, outcome: Outcome, block: nat, handle: nat, ghost s: State)
      returns (rc: Rc)
      requires s.holder.Free? && threads.Length == PLATFORMS && s.slots == threads[..]
      requires block == s.nextArgs && handle == s.nextTid > 0
      modifies threads
      ensures var platform := if op.None? then None else PlatformOf(op.value);
              if platform.None? then rc == RcFailed && threads[..] == old(threads[..])
              else
                && threads[..] == ActivateCall(s, platform.value, outcome).slots
                && threads[..] == old(threads[..])[platform.value :=
                                                   Activated(old(threads[platform.value]), outcome, block, handle)]
                && (rc == RcFailed <==> s.slots[platform.value].id == 0 && (outcome.OutOfMemory? || outcome.NoContext?))
    {
      if op.None? {
        return RcFailed;
      }
      var platform := PlatformOf(op.value);
      if platform.None? {
        return RcFailed;
      }
      var p := platform.value;
      threads[p] := threads[p].(activeFilters := threads[p].activeFilters + 1);
      if threads[p].id > 0 {
        ActivatedSlots(s, p, outcome, block, handle);
        return RcOk;
      }
      ActivatedSlots(s, p, outcome, block, handle);
      rc := StartThread(p, outcome, block, handle, Do(s, BeginActivate(p)));
    }

    /** DeActivateFilter */
    method DeActivateFilter(classname: string, ghost s: State) returns (rc: Rc)
      requires s.holder.Free? && threads.Length == PLATFORMS && s.slots == threads[..]
      modifies threads
      ensures var platform := PlatformOf(classname);
              if platform.None? then rc == RcFailed && threads[..] == old(threads[..])
              else
                && rc == RcOk && threads[..] == Do(s, Deactivate(platform.value)).slots
                && var was := old(threads[..]);
                threads[..] == was[platform.value :=
                                   was[platform.value].(activeFilters := was[platform.value].activeFilters - 1)]
    {
      var platform := PlatformOf(classname);
      if platform.None? {
        return RcFailed;
      }
      var p := platform.value;
      threads[p] := threads[p].(activeFilters := threads[p].activeFilters - 1);
      return RcOk;
    }

    /** The second critical section of lifecycle_thread_native. */
    method ExitThread(p: nat, ghost s: State, ghost t: nat)
      requires At(s, t, Exiting) && s.monitors[t].platform == p
      requires threads.Length == PLATFORMS && s.slots == threads[..]
      modifies threads
      ensures threads[..] == Do(s, ExitSection(t)).slots == old(threads[..])[p := Slot(0, 0, None)]
    {
      threads[p] := threads[p].(id := 0);
      threads[p] := threads[p].(activeFilters := 0);
      if threads[p].args.Some? {
        threads[p] := threads[p].(args := None);
      }
    }
  }
}
