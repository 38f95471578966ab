/** The snapshot comparison of the native lifecycle indication provider
    (src/Virt_ComputerSystemIndication.c): two arrays of domain descriptions are
    compared and CREATED, DELETED and MODIFIED indications are raised. */
module Snapshots {
  import opened Prelude
  import opened Libvirt

  datatype DomState = Offline | Online | Paused | Crashed | Gone

  datatype DomXml = DomXml(uuid: string, xml: string, state: DomState)

  /** What libvirt answers about one domain pointer; None is a failed call. */
  datatype DomPtr = DomPtr(uuid: Option<string>, xml: Option<string>, info: Option<VirState>)

  datatype Kind = Created | Deleted | Modified

  /** One call of async_ind_native. */
  datatype Event = Event(kind: Kind, dom: DomXml)

  function StateOf(info: Option<VirState>): DomState {
    match info
    case None => Gone
    case Some(s) =>
      match s
      case NoState | Running | Blocked => Online
      case VirPaused => Paused
      case Shutoff => Offline
      case VirCrashed => Crashed
      case Shutdown | PmSuspended => Gone
  }

  // ----- specification functions

  function Describe(ptrs: seq<DomPtr>): Option<seq<DomXml>> {
    if ptrs == [] then Some([])
    else if ptrs[0].uuid.None? || ptrs[0].xml.None? then None
    else
      var rest := Describe(ptrs[1..]);
      if rest.None? then None
      else Some([DomXml(ptrs[0].uuid.value, ptrs[0].xml.value, StateOf(ptrs[0].info))] + rest.value)
  }

  /** One pass's view of the host.  The listing call failing (None) counts as an
      empty host; any domain failing makes the pass fail. */
  function Snapshot(listing: Option<seq<DomPtr>>): Option<seq<DomXml>> {
    if listing.None? then Some([]) else Describe(listing.value)
  }

  predicate HasUuid(s: seq<DomXml>, uuid: string) {
    exists i :: 0 <= i < |s| && s[i].uuid == uuid
  }

  /** The first entry with this UUID differs in XML or state. */
  predicate Changed(prev: DomXml, cur: seq<DomXml>) {
    cur != [] &&
    if cur[0].uuid == prev.uuid then cur[0].xml != prev.xml || cur[0].state != prev.state
    else Changed(prev, cur[1..])
  }

  function Appeared(prev: seq<DomXml>, cur: seq<DomXml>): seq<Event> {
    if cur == [] then []
    else
      var rest := Appeared(prev, cur[1..]);
      if HasUuid(prev, cur[0].uuid) then rest else [Event(Created, cur[0])] + rest
  }

  function Departed(prev: seq<DomXml>, cur: seq<DomXml>): seq<Event> {
    if prev == [] then []
    else
      var rest := Departed(prev[1..], cur);
      if !HasUuid(cur, prev[0].uuid) then [Event(Deleted, prev[0])] + rest
      else if Changed(prev[0], cur) then [Event(Modified, prev[0])] + rest
      else rest
  }

  function Diff(prev: seq<DomXml>, cur: seq<DomXml>): seq<Event> {
    Appeared(prev, cur) + Departed(prev, cur)
  }

  // ----- the code

  /** doms_to_xml: stops at the first domain whose UUID or XML cannot be read. */
  method DomsToXml(ptrs: seq<DomPtr>) returns (ok: bool, list: array<DomXml>)
    ensures ok == Describe(ptrs).Some?
    ensures ok ==> fresh(list) && list[..] == Describe(ptrs).value
  {
    list := new DomXml[|ptrs|](_ => DomXml("", "", Offline));
    for i := 0 to |ptrs|
      invariant Describe(ptrs).Some? == Describe(ptrs[i..]).Some?
      invariant Describe(ptrs).Some? ==> Describe(ptrs).value == list[..i] + Describe(ptrs[i..]).value
    {
      if ptrs[i].uuid.None? {
        return false, list;
      }
      if ptrs[i].xml.None? {
        return false, list;
      }
      list[i] := DomXml(ptrs[i].uuid.value, ptrs[i].xml.value, StateOf(ptrs[i].info));
      assert ptrs[i..][1..] == ptrs[i + 1..];
      assert list[..i + 1] == list[..i] + [list[i]];
      assert forall rest: seq<DomXml> :: (list[..i] + [list[i]]) + rest == list[..i] + ([list[i]] + rest);
    }
    assert list[..] == list[..|ptrs|] + [];
    return true, list;
  }

  /** dom_in_list */
  method DomInList(uuid: string, list: array<DomXml>) returns (found: bool)
    ensures found == HasUuid(list[..], uuid)
  {
    for i := 0 to list.Length
      invariant forall k :: 0 <= k < i ==> list[k].uuid != uuid
    {
      if uuid == list[i].uuid {
        assert list[..][i].uuid == uuid;
        return true;
      }
    }
    return false;
  }

  /** dom_changed */
  method DomChanged(prev: DomXml, cur: array<DomXml>) returns (changed: bool)
    ensures changed == Changed(prev, cur[..])
  {
    changed := false;
    for i := 0 to cur.Length
      invariant !changed
      invariant Changed(prev, cur[..]) == Changed(prev, cur[i..])
    {
      assert cur[i..][1..] == cur[i + 1..];
      if cur[i].uuid != prev.uuid {
        continue;
      }
      if cur[i].xml != prev.xml {
        changed := true;
      }
      if prev.state != cur[i].state {
        changed := true;
      }
      break;
    }
  }

  method RaiseCreated(prev: array<DomXml>, cur: array<DomXml>) returns (raised: seq<Event>)
    ensures raised == Appeared(prev[..], cur[..])
  {
    raised := [];
    for i := 0 to cur.Length
      invariant Appeared(prev[..], cur[..]) == raised + Appeared(prev[..], cur[i..])
    {
      assert cur[i..][1..] == cur[i + 1..];
      var res := DomInList(cur[i].uuid, prev);
      if !res {
        raised := raised + [Event(Created, cur[i])];
      }
    }
  }

  /** What one old entry gives rise to. */
  function DepartedOne(p: DomXml, cur: seq<DomXml>): seq<Event> {
    if !HasUuid(cur, p.uuid) then [Event(Deleted, p)] else if Changed(p, cur) then [Event(Modified, p)] else []
  }

  lemma DepartedNext(prev: seq<DomXml>, cur: seq<DomXml>, i: nat, raised: seq<Event>)
    requires i < |prev|
    requires Departed(prev, cur) == raised + Departed(prev[i..], cur)
    ensures Departed(prev, cur) == raised + DepartedOne(prev[i], cur) + Departed(prev[i + 1..], cur)
  {
    assert prev[i..][1..] == prev[i + 1..];
    assert Departed(prev[i..], cur) == DepartedOne(prev[i], cur) + Departed(prev[i + 1..], cur);
    Associative(raised, DepartedOne(prev[i], cur), Departed(prev[i + 1..], cur));
  }

  method RaiseOne(p: DomXml, cur: array<DomXml>) returns (raised: seq<Event>)
    ensures raised == DepartedOne(p, cur[..])
  {
    var res := DomInList(p.uuid, cur);
    if !res {
      return [Event(Deleted, p)];
    }
    var changed := DomChanged(p, cur);
    return if changed then [Event(Modified, p)] else [];
  }

  method RaiseDeletedOrModified(prev: array<DomXml>, cur: array<DomXml>) returns (raised: seq<Event>)
    ensures raised == Departed(prev[..], cur[..])
  {
    raised := [];
    for i := 0 to prev.Length
      invariant Departed(prev[..], cur[..]) == raised + Departed(prev[..][i..], cur[..])
    {
      DepartedNext(prev[..], cur[..], i, raised);
      var one := RaiseOne(prev[i], cur);
      raised := raised + one;
    }
  }

  /** The two comparison loops of one successful pass. */
  method Pass(prev: array<DomXml>, cur: array<DomXml>) returns (raised: seq<Event>)
    ensures raised == Diff(prev[..], cur[..])
  {
    var appeared := RaiseCreated(prev, cur);
    var departed := RaiseDeletedOrModified(prev, cur);
    raised := appeared + departed;
  }

  /** What the monitor meets at one turn of its loop: the filter counter it
      tests first, then the host. */
  datatype Tick = Tick(activeFilters: int, listing: Option<seq<DomPtr>>)

  /** The turns taken before the counter is first seen at or below zero. */
  function Turns(ticks: seq<Tick>): seq<Tick> {
    if ticks == [] || ticks[0].activeFilters <= 0 then [] else [ticks[0]] + Turns(ticks[1..])
  }

  function RunEvents(prev: seq<DomXml>, ticks: seq<Tick>): seq<Event>
    decreases |ticks|
  {
    if ticks == [] then []
    else
      match Snapshot(ticks[0].listing)
      case None => RunEvents(prev, ticks[1..])
      case Some(cur) => Diff(prev, cur) + RunEvents(cur, ticks[1..])
  }

  /** The snapshot the monitor holds after a run: the last successful one. */
  function LastGood(prev: seq<DomXml>, ticks: seq<Tick>): seq<DomXml>
    decreases |ticks|
  {
    if ticks == [] then prev
    else
      match Snapshot(ticks[0].listing)
      case None => LastGood(prev, ticks[1..])
      case Some(cur) => LastGood(cur, ticks[1..])
  }

  /** One more turn of the loop, where the counter is positive. */
  lemma TurnNext(all: seq<Event>, end: seq<DomXml>, raised: seq<Event>, last: seq<DomXml>, ticks: seq<Tick>, i: nat)
    requires i < |ticks| && ticks[i].activeFilters > 0
    requires all == raised + RunEvents(last, Turns(ticks[i..])) && end == LastGood(last, Turns(ticks[i..]))
    ensures match Snapshot(ticks[i].listing)
            case None =>
              && all == raised + RunEvents(last, Turns(ticks[i + 1..]))
              && end == LastGood(last, Turns(ticks[i + 1..]))
            case Some(cur) =>
              && all == raised + Diff(last, cur) + RunEvents(cur, Turns(ticks[i + 1..]))
              && end == LastGood(cur, Turns(ticks[i + 1..]))
  {
    var rest := Turns(ticks[i + 1..]);
    assert ticks[i..][1..] == ticks[i + 1..];
    assert Turns(ticks[i..]) == [ticks[i]] + rest && Turns(ticks[i..])[1..] == rest;
    match Snapshot(ticks[i].listing)
    case None =>
    case Some(cur) => Associative(raised, Diff(last, cur), RunEvents(cur, rest));
  }

  /** doms_to_xml on what get_domain_list returned. */
  method TakeSnapshot(listing: Option<seq<DomPtr>>) returns (ok: bool, list: array<DomXml>)
    ensures ok == Snapshot(listing).Some?
    ensures ok ==> list[..] == Snapshot(listing).value
  {
    ok, list := DomsToXml(if listing.None? then [] else listing.value);
  }

  /** The event loop of lifecycle_thread_native, from a good first snapshot. */
  method EventLoop(first: array<DomXml>, ticks: seq<Tick>) returns (raised: seq<Event>, last: array<DomXml>)
    ensures raised == RunEvents(first[..], Turns(ticks))
    ensures last[..] == LastGood(first[..], Turns(ticks))
  {
    raised, last := [], first;
    ghost var all, end := RunEvents(first[..], Turns(ticks)), LastGood(first[..], Turns(ticks));
    assert ticks[0..] == ticks;
    var i := 0;
    while i < |ticks|
      invariant 0 <= i <= |ticks|
      invariant all == raised + RunEvents(last[..], Turns(ticks[i..])) && end == LastGood(last[..], Turns(ticks[i..]))
    {
      if ticks[i].activeFilters <= 0 {
        break;
      }
      TurnNext(all, end, raised, last[..], ticks, i);
      var ok, cur := TakeSnapshot(ticks[i].listing);
      if ok {
        var now := Pass(last, cur);
        raised := raised + now;
        last := cur;
      }
      i := i + 1;
    }
    assert Turns(ticks[i..]) == [];
  }

  // ----- what a pass says

  ghost predicate DistinctUuids(s: seq<DomXml>) {
    forall i, j :: 0 <= i < j < |s| ==> s[i].uuid != s[j].uuid
  }

  function Uuids(s: seq<DomXml>): set<string> {
    set i | 0 <= i < |s| :: s[i].uuid
  }

  function After(e: Event, s: set<string>): set<string> {
    match e.kind
    case Created => s + {e.dom.uuid}
    case Deleted => s - {e.dom.uuid}
    case Modified => s
  }

  /** Replaying indications on a set of UUIDs. */
  function Replay(events: seq<Event>, s: set<string>): set<string> {
    if events == [] then s else Replay(events[1..], After(events[0], s))
  }

  /** CREATED only of absent, DELETED and MODIFIED only of present UUIDs. */
  ghost predicate Legal(events: seq<Event>, s: set<string>) {
    events != [] ==>
      && (events[0].kind == Created <==> events[0].dom.uuid !in s)
      && Legal(events[1..], After(events[0], s))
  }

  lemma {:induction false} ReplayConcat(a: seq<Event>, b: seq<Event>, s: set<string>)
    ensures Replay(a + b, s) == Replay(b, Replay(a, s))
    ensures Legal(a + b, s) == (Legal(a, s) && Legal(b, Replay(a, s)))
    decreases |a|
  {
    if a == [] {
      assert a + b == b;
    } else {
      assert (a + b)[0] == a[0] && (a + b)[1..] == a[1..] + b;
      ReplayConcat(a[1..], b, After(a[0], s));
    }
  }

  lemma UuidsFirst(doms: seq<DomXml>)
    requires doms != []
    ensures Uuids(doms) == {doms[0].uuid} + Uuids(doms[1..])
    ensures DistinctUuids(doms) ==> doms[0].uuid !in Uuids(doms[1..]) && DistinctUuids(doms[1..])
  {
    assert forall i :: 0 < i < |doms| ==> doms[i] == doms[1..][i - 1];
  }

  lemma HasIsIn(doms: seq<DomXml>, uuid: string)
    ensures HasUuid(doms, uuid) <==> uuid in Uuids(doms)
  {
  }

  lemma AfterCreated(d: DomXml, rest: seq<Event>, s: set<string>)
    ensures Replay([Event(Created, d)] + rest, s) == Replay(rest, s + {d.uuid})
    ensures Legal([Event(Created, d)] + rest, s) <==> d.uuid !in s && Legal(rest, s + {d.uuid})
  {
    var all := [Event(Created, d)] + rest;
    assert all[0] == Event(Created, d) && all[1..] == rest;
  }

  lemma StillApart(s: set<string>, u: string, rest: set<string>, known: set<string>)
    requires u !in known
    ensures u !in rest && s * ({u} + rest - known) == {} ==> u !in s && (s + {u}) * (rest - known) == {}
  {
    if s * ({u} + rest - known) == {} {
      assert u in {u} + rest - known;
      assert u in s <==> u in s * ({u} + rest - known);
      assert forall x :: x in s * (rest - known) ==> x in s * ({u} + rest - known);
    }
  }

  lemma {:induction false} ReplayAppeared(prev: seq<DomXml>, cur: seq<DomXml>, s: set<string>)
    ensures Replay(Appeared(prev, cur), s) == s + (Uuids(cur) - Uuids(prev))
    ensures DistinctUuids(cur) && s * (Uuids(cur) - Uuids(prev)) == {} ==> Legal(Appeared(prev, cur), s)
    decreases |cur|
  {
    if cur != [] {
      var u, rest := cur[0].uuid, Appeared(prev, cur[1..]);
      UuidsFirst(cur);
      HasIsIn(prev, u);
      if HasUuid(prev, u) {
        ReplayAppeared(prev, cur[1..], s);
        assert Uuids(cur) - Uuids(prev) == Uuids(cur[1..]) - Uuids(prev);
      } else {
        ReplayAppeared(prev, cur[1..], s + {u});
        AfterCreated(cur[0], rest, s);
        assert Appeared(prev, cur) == [Event(Created, cur[0])] + rest;
        assert s + {u} + (Uuids(cur[1..]) - Uuids(prev)) == s + (Uuids(cur) - Uuids(prev));
        StillApart(s, u, Uuids(cur[1..]), Uuids(prev));
      }
    }
  }

  lemma {:induction false} ReplayDeparted(prev: seq<DomXml>, cur: seq<DomXml>, s: set<string>)
    ensures Replay(Departed(prev, cur), s) == s - (Uuids(prev) - Uuids(cur))
    ensures DistinctUuids(prev) && Uuids(prev) <= s ==> Legal(Departed(prev, cur), s)
    decreases |prev|
  {
    if prev != [] {
      var u, one, rest := prev[0].uuid, DepartedOne(prev[0], cur), Departed(prev[1..], cur);
      var s' := if HasUuid(cur, u) then s else s - {u};
      UuidsFirst(prev);
      HasIsIn(cur, u);
      ReplayDeparted(prev[1..], cur, s');
      assert Departed(prev, cur) == one + rest;
      assert s' - (Uuids(prev[1..]) - Uuids(cur)) == s - (Uuids(prev) - Uuids(cur));
      if one != [] {
        assert (one + rest)[0] == one[0] && (one + rest)[1..] == rest;
      } else {
        assert one + rest == rest;
      }
    }
  }

  /** One pass turns the old UUID set into the new one. */
  lemma DiffReplays(prev: seq<DomXml>, cur: seq<DomXml>)
    ensures Replay(Diff(prev, cur), Uuids(prev)) == Uuids(cur)
    ensures DistinctUuids(prev) && DistinctUuids(cur) ==> Legal(Diff(prev, cur), Uuids(prev))
  {
    var a, s := Appeared(prev, cur), Uuids(prev);
    ReplayConcat(a, Departed(prev, cur), s);
    ReplayAppeared(prev, cur, s);
    ReplayDeparted(prev, cur, Replay(a, s));
    assert (s + (Uuids(cur) - s)) - (s - Uuids(cur)) == Uuids(cur);
  }

  ghost predicate DistinctSnapshots(ticks: seq<Tick>) {
    forall i :: 0 <= i < |ticks| && Snapshot(ticks[i].listing).Some? ==> DistinctUuids(Snapshot(ticks[i].listing).value)
  }

  /** Over any run, with failed passes anywhere: replaying everything raised on
      the first UUID set gives the last successful snapshot's set; and when no
      snapshot repeats a UUID, every indication is legal where it is raised. */
  lemma {:induction false} RunReplays(prev: seq<DomXml>, ticks: seq<Tick>)
    ensures Replay(RunEvents(prev, ticks), Uuids(prev)) == Uuids(LastGood(prev, ticks))
    ensures DistinctUuids(prev) && DistinctSnapshots(ticks) ==> Legal(RunEvents(prev, ticks), Uuids(prev))
    decreases |ticks|
  {
    if ticks != [] {
      var next := Snapshot(ticks[0].listing);
      if next.Some? {
        DiffReplays(prev, next.value);
        ReplayConcat(Diff(prev, next.value), RunEvents(next.value, ticks[1..]), Uuids(prev));
        RunReplays(next.value, ticks[1..]);
      } else {
        RunReplays(prev, ticks[1..]);
      }
    }
  }

  /** The CREATED and DELETED indications of one UUID, in order. */
  function Lifeline(events: seq<Event>, uuid: string): seq<Kind> {
    if events == [] then []
    else
      var rest := Lifeline(events[1..], uuid);
      if events[0].dom.uuid == uuid && events[0].kind != Modified then [events[0].kind] + rest else rest
  }

  ghost predicate Alternates(line: seq<Kind>, present: bool) {
    line != [] ==> line[0] == (if present then Deleted else Created) && Alternates(line[1..], !present)
  }

  lemma {:induction false} LegalAlternates(events: seq<Event>, s: set<string>, uuid: string)
    requires Legal(events, s)
    ensures Alternates(Lifeline(events, uuid), uuid in s)
    decreases |events|
  {
    if events != [] {
      LegalAlternates(events[1..], After(events[0], s), uuid);
    }
  }

  /** For every UUID, CREATED and DELETED strictly alternate over any run,
      starting with DELETED exactly when the domain was there at the start. */
  lemma RunAlternates(prev: seq<DomXml>, ticks: seq<Tick>, uuid: string)
    requires DistinctUuids(prev) && DistinctSnapshots(ticks)
    ensures Alternates(Lifeline(RunEvents(prev, ticks), uuid), HasUuid(prev, uuid))
  {
    RunReplays(prev, ticks);
    LegalAlternates(RunEvents(prev, ticks), Uuids(prev), uuid);
    assert HasUuid(prev, uuid) <==> uuid in Uuids(prev);
  }

  /** The turns of a run whose snapshot succeeds. */
  function Good(ticks: seq<Tick>): seq<Tick> {
    if ticks == [] then []
    else if Snapshot(ticks[0].listing).None? then Good(ticks[1..])
    else [ticks[0]] + Good(ticks[1..])
  }

  /** Failed passes leave no trace wherever they come: a run raises the indications,
      and ends with the snapshot, of the same run without them. */
  lemma {:induction false} FailedPassesAreSilent(prev: seq<DomXml>, ticks: seq<Tick>)
    ensures RunEvents(prev, ticks) == RunEvents(prev, Good(ticks))
    ensures LastGood(prev, ticks) == LastGood(prev, Good(ticks))
    decreases |ticks|
  {
    if ticks != [] {
      match Snapshot(ticks[0].listing)
      case None => FailedPassesAreSilent(prev, ticks[1..]);
      case Some(cur) =>
        FailedPassesAreSilent(cur, ticks[1..]);
        assert Good(ticks)[1..] == Good(ticks[1..]);
    }
  }

  // ----- one UUID in one pass

  function Find(s: seq<DomXml>, uuid: string): (r: Option<DomXml>)
    ensures r.Some? <==> HasUuid(s, uuid)
  {
    if s == [] then None else if s[0].uuid == uuid then Some(s[0])
    else
      assert HasUuid(s[1..], uuid) ==> HasUuid(s, uuid);
      assert HasUuid(s, uuid) ==> HasUuid(s[1..], uuid) by {
        if HasUuid(s, uuid) {
          var i :| 0 <= i < |s| && s[i].uuid == uuid;
          assert s[1..][i - 1].uuid == uuid;
        }
      }
      Find(s[1..], uuid)
  }

  function Concerning(events: seq<Event>, uuid: string): seq<Event> {
    if events == [] then []
    else if events[0].dom.uuid == uuid then [events[0]] + Concerning(events[1..], uuid)
    else Concerning(events[1..], uuid)
  }

  /** What a UUID's old and new entries deserve. */
  function Verdict(before: Option<DomXml>, now: Option<DomXml>): seq<Event> {
    match (before, now)
    case (None, None) => []
    case (None, Some(c)) => [Event(Created, c)]
    case (Some(p), None) => [Event(Deleted, p)]
    case (Some(p), Some(c)) => if p.xml != c.xml || p.state != c.state then [Event(Modified, p)] else []
  }

  lemma {:induction false} ConcerningConcat(a: seq<Event>, b: seq<Event>, uuid: string)
    ensures Concerning(a + b, uuid) == Concerning(a, uuid) + Concerning(b, uuid)
    decreases |a|
  {
    if a == [] {
      assert a + b == b;
    } else {
      assert (a + b)[0] == a[0] && (a + b)[1..] == a[1..] + b;
      ConcerningConcat(a[1..], b, uuid);
    }
  }

  lemma {:induction false} ConcerningAppeared(prev: seq<DomXml>, cur: seq<DomXml>, uuid: string)
    requires DistinctUuids(cur)
    ensures Concerning(Appeared(prev, cur), uuid)
            == if HasUuid(prev, uuid) then [] else Verdict(None, Find(cur, uuid))
    decreases |cur|
  {
    if cur != [] {
      ConcerningAppeared(prev, cur[1..], uuid);
      assert cur[0].uuid == uuid ==> !HasUuid(cur[1..], uuid);
    }
  }

  lemma {:induction false} ChangedIsFirstDiffers(p: DomXml, cur: seq<DomXml>)
    ensures Changed(p, cur) <==>
              Find(cur, p.uuid).Some? && var c := Find(cur, p.uuid).value; p.xml != c.xml || p.state != c.state
    decreases |cur|
  {
    if cur != [] {
      ChangedIsFirstDiffers(p, cur[1..]);
    }
  }

  lemma {:induction false} ConcerningDeparted(prev: seq<DomXml>, cur: seq<DomXml>, uuid: string)
    requires DistinctUuids(prev)
    ensures Concerning(Departed(prev, cur), uuid)
            == if HasUuid(prev, uuid) then Verdict(Find(prev, uuid), Find(cur, uuid)) else []
    decreases |prev|
  {
    if prev != [] {
      ConcerningDeparted(prev[1..], cur, uuid);
      ChangedIsFirstDiffers(prev[0], cur);
      assert prev[0].uuid == uuid ==> !HasUuid(prev[1..], uuid);
    }
  }

  /** In a successful pass each UUID gets exactly the indication its two entries
      deserve: CREATED, DELETED, MODIFIED or none, and never two. */
  lemma PassIsExact(prev: seq<DomXml>, cur: seq<DomXml>, uuid: string)
    requires DistinctUuids(prev) && DistinctUuids(cur)
    ensures Concerning(Diff(prev, cur), uuid) == Verdict(Find(prev, uuid), Find(cur, uuid))
  {
    ConcerningConcat(Appeared(prev, cur), Departed(prev, cur), uuid);
    ConcerningAppeared(prev, cur, uuid);
    ConcerningDeparted(prev, cur, uuid);
  }

  // ----- what the hypervisor's answers come to

  /** Between two answers about its state a domain has not changed: it ran all the
      time, or was going or gone all the time, or the answers are the same. */
  predicate Alike(a: Option<VirState>, b: Option<VirState>) {
    || a == b
    || (a in {Some(NoState), Some(Running), Some(Blocked)} && b in {Some(NoState), Some(Running), Some(Blocked)})
    || (a in {None, Some(Shutdown), Some(PmSuspended)} && b in {None, Some(Shutdown), Some(PmSuspended)})
  }

  predicate Answered(ptr: DomPtr) {
    ptr.uuid.Some? && ptr.xml.Some?
  }

  predicate AllAnswered(ptrs: seq<DomPtr>) {
    forall i :: 0 <= i < |ptrs| ==> Answered(ptrs[i])
  }

  lemma StatesAlike(a: Option<VirState>, b: Option<VirState>)
    ensures StateOf(a) == StateOf(b) <==> Alike(a, b)
  {
  }

  /** A pass succeeds exactly when every domain gives its UUID and its XML, and then
      has one entry for each, in order. */
  lemma {:induction false} DescribeExactly(ptrs: seq<DomPtr>)
    ensures Describe(ptrs).Some? <==> AllAnswered(ptrs)
    ensures AllAnswered(ptrs) ==>
              var doms := Describe(ptrs).value;
              && |doms| == |ptrs|
              && (forall i :: 0 <= i < |ptrs| ==>
                    doms[i].uuid == ptrs[i].uuid.value && doms[i].xml == ptrs[i].xml.value)
              && forall i :: 0 <= i < |ptrs| ==> doms[i].state == StateOf(ptrs[i].info)
    decreases |ptrs|
  {
    if ptrs != [] {
      DescribeExactly(ptrs[1..]);
      assert AllAnswered(ptrs) <==> Answered(ptrs[0]) && AllAnswered(ptrs[1..]) by {
        assert forall i :: 0 < i < |ptrs| ==> ptrs[i] == ptrs[1..][i - 1];
      }
    }
  }

  /** The domain listed under a UUID. */
  function Ask(ptrs: seq<DomPtr>, uuid: string): Option<DomPtr> {
    if ptrs == [] then None else if ptrs[0].uuid == Some(uuid) then Some(ptrs[0]) else Ask(ptrs[1..], uuid)
  }

  lemma {:induction false} FindIsAsk(ptrs: seq<DomPtr>, uuid: string)
    requires AllAnswered(ptrs)
    ensures Describe(ptrs).Some?
    ensures match Ask(ptrs, uuid)
            case None => Find(Describe(ptrs).value, uuid).None?
            case Some(ptr) =>
              Answered(ptr) && Find(Describe(ptrs).value, uuid) == Some(DomXml(uuid, ptr.xml.value, StateOf(ptr.info)))
    decreases |ptrs|
  {
    DescribeExactly(ptrs);
    if ptrs != [] {
      assert Answered(ptrs[0]);
      assert forall i :: 0 <= i < |ptrs[1..]| ==> ptrs[1..][i] == ptrs[i + 1];
      FindIsAsk(ptrs[1..], uuid);
      var doms := Describe(ptrs).value;
      assert doms[1..] == Describe(ptrs[1..]).value;
    }
  }

  /** No two domains give the same UUID. */
  predicate DistinctAnswers(ptrs: seq<DomPtr>) {
    forall i, j :: 0 <= i < j < |ptrs| ==> ptrs[i].uuid != ptrs[j].uuid
  }

  lemma AnswersDistinct(ptrs: seq<DomPtr>)
    requires AllAnswered(ptrs) && DistinctAnswers(ptrs)
    ensures Describe(ptrs).Some? && DistinctUuids(Describe(ptrs).value)
  {
    DescribeExactly(ptrs);
    assert forall i :: 0 <= i < |ptrs| ==> Answered(ptrs[i]);
  }

  /** Exactly these kinds, all about a domain with this UUID. */
  predicate Are(events: seq<Event>, uuid: string, kinds: seq<Kind>) {
    && |events| == |kinds|
    && forall i :: 0 <= i < |events| ==> events[i].kind == kinds[i] && events[i].dom.uuid == uuid
  }

  /** What is due about a domain whose answers were these before and are these now. */
  function Due(before: Option<DomPtr>, now: Option<DomPtr>): seq<Kind> {
    match (before, now)
    case (None, None) => []
    case (None, Some(_)) => [Created]
    case (Some(_), None) => [Deleted]
    case (Some(p), Some(c)) => if p.xml == c.xml && Alike(p.info, c.info) then [] else [Modified]
  }

  /** What two good passes in a row raise about a UUID, told from the hypervisor's
      answers alone: CREATED or DELETED when only one listing has it, MODIFIED when
      the XML differs or the states are not alike, else nothing. */
  lemma AnswersDecide(before: seq<DomPtr>, now: seq<DomPtr>, uuid: string)
    requires AllAnswered(before) && DistinctAnswers(before) && AllAnswered(now) && DistinctAnswers(now)
    ensures Describe(before).Some? && Describe(now).Some?
    ensures Are(Concerning(Diff(Describe(before).value, Describe(now).value), uuid), uuid,
                Due(Ask(before, uuid), Ask(now, uuid)))
  {
    AnswersDistinct(before);
    AnswersDistinct(now);
    PassIsExact(Describe(before).value, Describe(now).value, uuid);
    FindIsAsk(before, uuid);
    FindIsAsk(now, uuid);
    if Ask(before, uuid).Some? && Ask(now, uuid).Some? {
      StatesAlike(Ask(before, uuid).value.info, Ask(now, uuid).value.info);
    }
  }

  /** The same over a run: whatever fails in between, the next good pass raises what
      is due.  A pause of an otherwise unchanged domain is one MODIFIED. */
  lemma NextGoodPassTells(before: seq<DomPtr>, failed: seq<Tick>, filters: int, now: seq<DomPtr>, uuid: string)
    requires AllAnswered(before) && DistinctAnswers(before) && AllAnswered(now) && DistinctAnswers(now)
    requires forall i :: 0 <= i < |failed| ==> failed[i].listing.Some? && !AllAnswered(failed[i].listing.value)
    ensures Describe(before).Some?
    ensures var raised := RunEvents(Describe(before).value, failed + [Tick(filters, Some(now))]);
            Are(Concerning(raised, uuid), uuid, Due(Ask(before, uuid), Ask(now, uuid)))
  {
    AnswersDecide(before, now, uuid);
    OneGoodPass(Describe(before).value, failed, Tick(filters, Some(now)));
  }

  lemma OneGoodPass(prev: seq<DomXml>, failed: seq<Tick>, last: Tick)
    requires forall i :: 0 <= i < |failed| ==> failed[i].listing.Some? && !AllAnswered(failed[i].listing.value)
    requires Snapshot(last.listing).Some?
    ensures RunEvents(prev, failed + [last]) == Diff(prev, Snapshot(last.listing).value)
  {
    AllFail(failed, last);
    FailedPassesAreSilent(prev, failed + [last]);
    OnePass(prev, last);
  }

  lemma OnePass(prev: seq<DomXml>, last: Tick)
    requires Snapshot(last.listing).Some?
    ensures RunEvents(prev, [last]) == Diff(prev, Snapshot(last.listing).value)
  {
    var cur := Snapshot(last.listing).value;
    assert [last][1..] == [];
    assert Diff(prev, cur) + [] == Diff(prev, cur);
  }

  lemma {:induction false} AllFail(failed: seq<Tick>, last: Tick)
    requires forall i :: 0 <= i < |failed| ==> failed[i].listing.Some? && !AllAnswered(failed[i].listing.value)
    requires Snapshot(last.listing).Some?
    ensures Good(failed + [last]) == [last]
    decreases |failed|
  {
    if failed == [] {
      assert ([] + [last])[1..] == [];
    } else {
      DescribeExactly(failed[0].listing.value);
      assert (failed + [last])[0] == failed[0] && (failed + [last])[1..] == failed[1..] + [last];
      AllFail(failed[1..], last);
    }
  }

  lemma {:induction false} DepartedAll(prev: seq<DomXml>)
    ensures |Departed(prev, [])| == |prev|
    ensures forall i :: 0 <= i < |prev| ==> Departed(prev, [])[i] == Event(Deleted, prev[i])
    decreases |prev|
  {
    if prev != [] {
      DepartedAll(prev[1..]);
    }
  }

  /** A listing that fails altogether is taken for an empty host: every domain is
      reported as deleted, in order. */
  lemma FailedListingDeletesAll(prev: seq<DomXml>, filters: int)
    ensures var raised := RunEvents(prev, [Tick(filters, None)]);
            && |raised| == |prev|
            && forall i :: 0 <= i < |prev| ==> raised[i] == Event(Deleted, prev[i])
  {
    DepartedAll(prev);
    OnePass(prev, Tick(filters, None));
    assert Diff(prev, []) == Departed(prev, []);
  }

  /** The monitor makes its passes while the counter is positive, and none from the
      first turn on at which it is not. */
  lemma {:induction false} TurnsExactly(ticks: seq<Tick>)
    ensures var n := |Turns(ticks)|;
            && n <= |ticks| && Turns(ticks) == ticks[..n]
            && (forall i :: 0 <= i < n ==> ticks[i].activeFilters > 0)
            && (n < |ticks| ==> ticks[n].activeFilters <= 0)
    decreases |ticks|
  {
    if ticks != [] && ticks[0].activeFilters > 0 {
      TurnsExactly(ticks[1..]);
      var n := |Turns(ticks[1..])|;
      assert ticks[..n + 1] == [ticks[0]] + ticks[1..][..n];
    }
  }

  // ----- the order within a pass

  /** These events are about entries of the list, one after the other. */
  predicate InOrder(events: seq<Event>, doms: seq<DomXml>)
    decreases |doms|
  {
    if doms == [] then events == []
    else
      || (events != [] && events[0].dom == doms[0] && InOrder(events[1..], doms[1..]))
      || InOrder(events, doms[1..])
  }

  predicate AllCreated(events: seq<Event>) {
    forall i :: 0 <= i < |events| ==> events[i].kind == Created
  }

  predicate NoneCreated(events: seq<Event>) {
    forall i :: 0 <= i < |events| ==> events[i].kind != Created
  }

  lemma {:induction false} AppearedInOrder(prev: seq<DomXml>, cur: seq<DomXml>)
    ensures InOrder(Appeared(prev, cur), cur) && AllCreated(Appeared(prev, cur))
    decreases |cur|
  {
    if cur != [] {
      AppearedInOrder(prev, cur[1..]);
      if !HasUuid(prev, cur[0].uuid) {
        assert Appeared(prev, cur)[1..] == Appeared(prev, cur[1..]);
      }
    }
  }

  lemma {:induction false} DepartedInOrder(prev: seq<DomXml>, cur: seq<DomXml>)
    ensures InOrder(Departed(prev, cur), prev) && NoneCreated(Departed(prev, cur))
    decreases |prev|
  {
    if prev != [] {
      DepartedInOrder(prev[1..], cur);
      if !HasUuid(cur, prev[0].uuid) || Changed(prev[0], cur) {
        assert Departed(prev, cur)[1..] == Departed(prev[1..], cur);
      }
    }
  }

  /** A pass first raises its CREATED indications, in the order of the new snapshot,
      and then the others, in the order of the old one. */
  lemma PassOrder(prev: seq<DomXml>, cur: seq<DomXml>)
    ensures exists n :: 0 <= n <= |Diff(prev, cur)|
                        && AllCreated(Diff(prev, cur)[..n]) && NoneCreated(Diff(prev, cur)[n..])
                        && InOrder(Diff(prev, cur)[..n], cur) && InOrder(Diff(prev, cur)[n..], prev)
  {
    var (events, n) := (Diff(prev, cur), |Appeared(prev, cur)|);
    AppearedInOrder(prev, cur);
    DepartedInOrder(prev, cur);
    assert events[..n] == Appeared(prev, cur) && events[n..] == Departed(prev, cur);
  }
}
