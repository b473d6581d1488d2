/**
 Recovery of command processes left by a dead runtime
 (src/local/process_registry.rs).
 */
module StaleProcesses {
  import opened Results
  import opened Processes

  datatype Record = Record(identity: Identity, groupMembers: seq<Identity>)

  datatype Document = Document(runtimeId: string, processes: seq<Record>)

  datatype RegistryFile = Missing | Unreadable | Loaded(document: Document)

  datatype Report = Report(
    signaled: nat, forceKilled: nat, descendantsSignaled: nat, descendantsForceKilled: nat,
    alreadyGone: nat, identityMismatch: nat, unresolvedLeaderlessGroups: nat, survivors: nat)
  {
    /** What the cleanup gates ask before they delete anything. */
    predicate Resolved() {
      identityMismatch == 0 && unresolvedLeaderlessGroups == 0 && survivors == 0
    }
  }

  const EMPTY_REPORT := Report(0, 0, 0, 0, 0, 0, 0, 0)

  ghost function Leaders(processes: seq<Record>): set<Identity> {
    set p | p in processes :: p.identity
  }

  /** Every identity the registry vouches for. */
  ghost function Recorded(processes: seq<Record>): set<Identity> {
    Leaders(processes) + (set p, m | p in processes && m in p.groupMembers :: m)
  }

  ghost predicate AllBorn(host: Host, processes: seq<Record>, t: nat) {
    forall id | id in Recorded(processes) :: host.BornBy(id, t)
  }

  ghost predicate Distinct(ids: seq<Identity>) {
    forall i, j | 0 <= i < j < |ids| :: ids[i] != ids[j]
  }

  method AddNew(discovered: seq<Identity>, found: seq<Identity>, leader: Identity) returns (r: seq<Identity>)
    ensures forall id :: id in r <==> id in discovered || (id in found && id != leader)
    ensures Distinct(discovered) ==> Distinct(r)
  {
    r := discovered;
    for i := 0 to |found|
      invariant forall id :: id in r <==> id in discovered || (id in found[..i] && id != leader)
      invariant Distinct(discovered) ==> Distinct(r)
    {
      if found[i] != leader && found[i] !in r {
        r := r + [found[i]];
      }
    }
  }

  /** Leaders that were sent TERM, other processes to follow, and the tally. */
  datatype Survey = Survey(matched: seq<Identity>, discovered: seq<Identity>, report: Report)

  /** What the survey of one record adds: leaders that were signalled, processes
      to follow other than the record's leader, and a line in the report. */
  ghost predicate Adds(s: Survey, s': Survey, matched: seq<Identity>, found: seq<Identity>, leader: Identity, report: Report) {
    && s'.matched == s.matched + matched
    && s'.report == report
    && forall id :: id in s'.discovered <==> id in s.discovered || (id in found && id != leader)
  }

  lemma AddsAlso(s: Survey, also: seq<Identity>, with: seq<Identity>, s': Survey, matched: seq<Identity>,
                 found: seq<Identity>, leader: Identity, report: Report)
    requires forall id :: id in with <==> id in s.discovered || (id in also && id != leader)
    requires Adds(s.(discovered := with), s', matched, found, leader, report)
    ensures Adds(s, s', matched, also + found, leader, report)
  {
  }

  /** A record whose leader answered, from tick `t` on: its group and its
      descendants are followed, and the leader is counted as signalled if it is
      still there two ticks later, as a mismatch if not. */
  ghost predicate LiveLeader(host: Host, p: Record, s: Survey, also: seq<Identity>, t: nat, s': Survey) {
    var there := host.Alive(p.identity, t + 2);
    Adds(s, s', if there then [p.identity] else [], also + (host.scanned(t) + host.scanned(t + 1)), p.identity,
         if there then s.report.(signaled := s.report.signaled + 1)
         else s.report.(identityMismatch := s.report.identityMismatch + 1))
  }

  /** A record whose leader is dead: the group `members` is followed if a
      persisted identity is in it, reported as unresolved if it has members but
      none such, and gone if it is empty. */
  ghost predicate Adopted(p: Record, s: Survey, also: seq<Identity>, members: seq<Identity>, s': Survey) {
    var proven := exists m | m in members :: m in p.groupMembers;
    Adds(s, s', [], also + (if proven then members else []), p.identity,
         if members == [] then s.report.(alreadyGone := s.report.alreadyGone + 1)
         else if proven then s.report
         else s.report.(unresolvedLeaderlessGroups := s.report.unresolvedLeaderlessGroups + 1))
  }

  /** The survey of one record at tick `t`, decided by what the host holds. */
  ghost predicate Surveyed(host: Host, p: Record, s: Survey, t: nat, s': Survey) {
    var holder := host.occupant(t, p.identity.pid);
    if holder == Some(p.identity) then LiveLeader(host, p, s, p.groupMembers, t + 1, s')
    else if holder.Some? then
      Adds(s, s', [], p.groupMembers, p.identity, s.report.(identityMismatch := s.report.identityMismatch + 1))
    else Adopted(p, s, p.groupMembers, host.scanned(t + 1), s')
  }

  /** What the survey knows of one record: its leader is being followed, or was
      not there when looked for, and its members are being followed. */
  ghost predicate Accounted(host: Host, p: Record, s: Survey, from: nat, to: nat) {
    && (p.identity in s.matched || exists t: nat | from <= t < to :: !host.Alive(p.identity, t))
    && forall m | m in p.groupMembers :: m == p.identity || m in s.discovered
  }

  /** The group of a leader, and its descendants. */
  method DiscoverTree(host: Host, leader: Identity, ghost scope: Scope) returns (r: Result<seq<Identity>>)
    requires leader in scope.leaders && scope.from <= |host.trace|
    modifies host
    ensures Progress(host, scope) && Sends(host, NOTHING)
    ensures r.Err? <==> FailedIn(host, old(host.now), host.now)
    ensures r.Ok? ==> host.now == old(host.now) + 2
    ensures r.Ok? ==> r.value == host.scanned(old(host.now)) + host.scanned(old(host.now) + 1)
    ensures r.Ok? ==> MayTargetAll(host.trace, scope, r.value)
  {
    ghost var t := host.now;
    var members := Discover(host, leader, scope);
    if members.Err? {
      assert host.fails(t);
      return Err;
    }
    ghost var between := host.trace;
    var descendants := Discover(host, leader, scope);
    if descendants.Err? {
      assert host.fails(t + 1);
      return Err;
    }
    TargetStays(between, host.trace, scope, members.value);
    return Ok(members.value + descendants.value);
  }

  /** The leader answered its PID: look for its group, then send TERM to the
      group, but only while the leader still has the recorded birth. */
  method SurveyLiveLeader(host: Host, p: Record, s: Survey, ghost scope: Scope) returns (r: Result<Survey>)
    requires p.identity in scope.leaders && scope.from <= |host.trace|
    requires MayTargetAll(host.trace, scope, s.discovered) && Distinct(s.discovered)
    modifies host
    ensures Progress(host, scope)
    ensures r.Err? <==> FailedIn(host, old(host.now), host.now)
    ensures r.Ok? ==> MayTargetAll(host.trace, scope, r.value.discovered) && Distinct(r.value.discovered)
    ensures r.Ok? ==> LiveLeader(host, p, s, [], old(host.now), r.value) && old(host.now) + 3 <= host.now
    ensures r.Ok? ==> Sends(host, if host.Alive(p.identity, old(host.now) + 2) then GroupSent(Terminate) else NOTHING)
    ensures r.Ok? && host.Alive(p.identity, old(host.now) + 2) ==>
      SentSince(host.trace, |old(host.trace)|, GroupSignal(p.identity, Terminate))
  {
    ghost var start := host.trace;
    var members := DiscoverTree(host, p.identity, scope);
    if members.Err? {
      return Err;
    }
    TargetStays(start, host.trace, scope, s.discovered);
    var discovered := AddNew(s.discovered, members.value, p.identity);
    ghost var before := host.trace;
    assert MayTargetAll(before, scope, discovered);
    var signaled := SignalGroupMatching(host, p.identity, Terminate, scope);
    if signaled.Err? {
      return Err;
    }
    TargetStays(before, host.trace, scope, discovered);
    if signaled.value {
      SentFrom(host.trace, |start|, |before|, GroupSignal(p.identity, Terminate));
      return Ok(Survey(s.matched + [p.identity], discovered, s.report.(signaled := s.report.signaled + 1)));
    }
    return Ok(Survey(s.matched, discovered, s.report.(identityMismatch := s.report.identityMismatch + 1)));
  }

  lemma SentFrom(trace: seq<Event>, from: nat, later: nat, e: Event)
    requires from <= later && SentSince(trace, later, e)
    ensures SentSince(trace, from, e)
  {
  }

  /** The leader is dead: adopt what is left of the group only if a persisted
      identity proves that it is the same group.  No group signal is sent. */
  method SurveyLeaderless(host: Host, p: Record, s: Survey, ghost scope: Scope) returns (r: Result<Survey>)
    requires p.identity in scope.leaders && scope.from <= |host.trace|
    requires MayTargetAll(host.trace, scope, s.discovered) && Distinct(s.discovered)
    modifies host
    ensures Progress(host, scope) && Sends(host, NOTHING)
    ensures r.Err? <==> FailedIn(host, old(host.now), host.now)
    ensures host.trace == if r.Ok? then old(host.trace) + [Scanned(p.identity.pid, host.scanned(old(host.now)))]
                          else old(host.trace)
    ensures r.Ok? ==> MayTargetAll(host.trace, scope, r.value.discovered) && Distinct(r.value.discovered)
    ensures r.Ok? ==> Adopted(p, s, [], host.scanned(old(host.now)), r.value) && host.now == old(host.now) + 1
  {
    ghost var start, t := host.trace, host.now;
    var members := Discover(host, p.identity, scope);
    if members.Err? {
      assert host.fails(t);
      return Err;
    }
    TargetStays(start, host.trace, scope, s.discovered);
    if members.value == [] {
      return Ok(s.(report := s.report.(alreadyGone := s.report.alreadyGone + 1)));
    } else if exists m | m in members.value :: m in p.groupMembers {
      var discovered := AddNew(s.discovered, members.value, p.identity);
      return Ok(s.(discovered := discovered));
    } else {
      return Ok(s.(report := s.report.(unresolvedLeaderlessGroups := s.report.unresolvedLeaderlessGroups + 1)));
    }
  }

  ghost function SurveyTicks(host: Host, p: Record, t: nat): nat {
    if host.Alive(p.identity, t) then 4 else if host.occupant(t, p.identity.pid).Some? then 1 else 2
  }

  method SurveyRecord(host: Host, p: Record, s: Survey, ghost scope: Scope) returns (r: Result<Survey>)
    requires p.identity in scope.leaders && scope.from <= |host.trace|
    requires MayTargetAll(host.trace, scope, s.discovered) && Distinct(s.discovered)
    requires forall m | m in p.groupMembers :: m in scope.others
    modifies host
    ensures Progress(host, scope)
    ensures r.Err? <==> FailedIn(host, old(host.now), host.now)
    ensures r.Ok? ==> MayTargetAll(host.trace, scope, r.value.discovered) && Distinct(r.value.discovered)
    ensures r.Ok? ==> Surveyed(host, p, s, old(host.now), r.value) && old(host.now) < host.now
    ensures r.Ok? ==> old(host.now) + SurveyTicks(host, p, old(host.now)) <= host.now
    ensures r.Ok? ==> s.report.signaled <= r.value.report.signaled
                      && Sends(host, Sent(r.value.report.signaled - s.report.signaled, 0, 0, 0))
    ensures r.Ok? && host.Alive(p.identity, old(host.now)) && host.Alive(p.identity, old(host.now) + 3) ==>
      SentSince(host.trace, |old(host.trace)|, GroupSignal(p.identity, Terminate))
  {
    var discovered := AddNew(s.discovered, p.groupMembers, p.identity);
    var s' := s.(discovered := discovered);
    ghost var t, before := host.now, host.trace;
    assert MayTargetAll(before, scope, discovered);
    var current := Holder(host, p.identity.pid, scope);
    if current.Err? {
      assert host.fails(t);
      return Err;
    }
    ghost var after := host.trace;
    ReadsSendNothing(before, after);
    TargetStays(before, after, scope, discovered);
    assert host.Alive(p.identity, t) <==> current.value == Some(p.identity);
    if current.value == Some(p.identity) {
      r := SurveyLiveLeader(host, p, s', scope);
      if r.Ok? {
        LiveWith(host, p, s, discovered, t + 1, r.value);
        LiveFacts(host, p, s, t, r.value, before, after, host.trace);
      }
    } else if current.value.Some? {
      r := Ok(s'.(report := s'.report.(identityMismatch := s'.report.identityMismatch + 1)));
      QuietFacts(host, p, s, t, r.value, before, after, host.trace);
    } else {
      r := SurveyLeaderless(host, p, s', scope);
      if r.Ok? {
        AdoptedWith(p, s, discovered, host.scanned(t + 1), r.value);
        QuietFacts(host, p, s, t, r.value, before, after, host.trace);
      }
    }
  }

  lemma QuietFacts(host: Host, p: Record, s: Survey, t: nat, s': Survey, before: seq<Event>, after: seq<Event>, trace: seq<Event>)
    requires !host.Alive(p.identity, t) && Surveyed(host, p, s, t, s')
    requires SentIn(after) == SentIn(before)
    requires SentIn(trace) == SentIn(after) || SentIn(trace) == SentIn(after).Plus(NOTHING)
    ensures s'.report.signaled == s.report.signaled && SentIn(trace) == SentIn(before).Plus(Sent(0, 0, 0, 0))
  {
  }

  lemma LiveFacts(host: Host, p: Record, s: Survey, t: nat, s': Survey, before: seq<Event>, after: seq<Event>, trace: seq<Event>)
    requires host.Alive(p.identity, t) && LiveLeader(host, p, s, p.groupMembers, t + 1, s')
    requires SentIn(after) == SentIn(before) && |before| <= |after|
    requires SentIn(trace) == SentIn(after).Plus(if host.Alive(p.identity, t + 3) then GroupSent(Terminate) else NOTHING)
    requires host.Alive(p.identity, t + 3) ==> SentSince(trace, |after|, GroupSignal(p.identity, Terminate))
    ensures Surveyed(host, p, s, t, s') && s.report.signaled <= s'.report.signaled
    ensures SentIn(trace) == SentIn(before).Plus(Sent(s'.report.signaled - s.report.signaled, 0, 0, 0))
    ensures host.Alive(p.identity, t + 3) ==> SentSince(trace, |before|, GroupSignal(p.identity, Terminate))
  {
    if host.Alive(p.identity, t + 3) {
      SentFrom(trace, |before|, |after|, GroupSignal(p.identity, Terminate));
    }
  }

  lemma LiveWith(host: Host, p: Record, s: Survey, with: seq<Identity>, t: nat, s': Survey)
    requires forall id :: id in with <==> id in s.discovered || (id in p.groupMembers && id != p.identity)
    requires LiveLeader(host, p, s.(discovered := with), [], t, s')
    ensures LiveLeader(host, p, s, p.groupMembers, t, s')
  {
    var there, found := host.Alive(p.identity, t + 2), host.scanned(t) + host.scanned(t + 1);
    assert [] + found == found;
    AddsAlso(s, p.groupMembers, with, s', if there then [p.identity] else [], found, p.identity, s'.report);
  }

  lemma AdoptedWith(p: Record, s: Survey, with: seq<Identity>, members: seq<Identity>, s': Survey)
    requires forall id :: id in with <==> id in s.discovered || (id in p.groupMembers && id != p.identity)
    requires Adopted(p, s.(discovered := with), [], members, s')
    ensures Adopted(p, s, p.groupMembers, members, s')
  {
    var proven := exists m | m in members :: m in p.groupMembers;
    var found := if proven then members else [];
    assert [] + found == found;
    AddsAlso(s, p.groupMembers, with, s', [], found, p.identity, s'.report);
  }

  // ----- what the surveys of all records come to -----

  /** A survey never takes anything back. */
  ghost predicate Grows(s: Survey, s': Survey) {
    && (forall id | id in s.matched :: id in s'.matched)
    && (forall id | id in s.discovered :: id in s'.discovered)
    && s.report.identityMismatch <= s'.report.identityMismatch
    && s.report.unresolvedLeaderlessGroups <= s'.report.unresolvedLeaderlessGroups
    && s'.report.survivors == s.report.survivors && s'.report.forceKilled == s.report.forceKilled
    && s'.report.descendantsSignaled == s.report.descendantsSignaled
    && s'.report.descendantsForceKilled == s.report.descendantsForceKilled
  }

  lemma SurveyedGrows(host: Host, p: Record, s: Survey, t: nat, s': Survey)
    requires Surveyed(host, p, s, t, s')
    ensures Grows(s, s')
    ensures forall id | id in s'.matched :: id in s.matched || id == p.identity
    ensures forall m | m in p.groupMembers :: m == p.identity || m in s'.discovered
  {
  }

  lemma SurveyedAccounts(host: Host, p: Record, s: Survey, from: nat, t: nat, s': Survey, to: nat)
    requires from <= t < to && Surveyed(host, p, s, t, s') && s'.report.Resolved()
    ensures Accounted(host, p, s', from, to)
  {
    SurveyedGrows(host, p, s, t, s');
    if host.Alive(p.identity, t) {
      assert p.identity in s'.matched;
    }
  }

  ghost function CleanupOf(processes: seq<Record>, from: nat): Scope {
    Scope(from, Leaders(processes), Recorded(processes))
  }

  /** Nobody holds a recorded leader's PID, no scan finds anything, and no
      recorded member is there: the processes are gone already. */
  ghost predicate AllGoneAt(host: Host, processes: seq<Record>, t: nat) {
    && host.scanned(t) == []
    && (forall p | p in processes :: host.occupant(t, p.identity.pid).None?)
    && (forall id | id in Recorded(processes) :: !host.Alive(id, t))
  }

  ghost predicate AllGone(host: Host, processes: seq<Record>, from: nat, to: nat) {
    forall t: nat | from <= t < to :: AllGoneAt(host, processes, t)
  }

  /** What is known after the records `done` have been surveyed. */
  ghost predicate SurveyedAll(host: Host, done: seq<Record>, s: Survey, begun: nat, now: nat, trace: seq<Event>, from: nat) {
    && (forall id | id in s.matched :: id in Leaders(done))
    && (forall p, m | p in done && m in p.groupMembers :: m == p.identity || m in s.discovered)
    && (forall p | p in done && Steadfast(host, p.identity, begun, now) ::
          p.identity in s.matched && SentSince(trace, from, GroupSignal(p.identity, Terminate)))
    && (s.report.Resolved() ==> forall p | p in done :: Accounted(host, p, s, begun, now))
    && s.report == Report(s.report.signaled, 0, 0, 0, s.report.alreadyGone, s.report.identityMismatch,
                          s.report.unresolvedLeaderlessGroups, 0)
  }

  lemma SurveyNext(host: Host, done: seq<Record>, p: Record, s: Survey, s': Survey, begun: nat, t: nat, now: nat,
                   trace: seq<Event>, trace': seq<Event>, from: nat)
    requires begun <= t < now && trace <= trace' && from <= |trace|
    requires SurveyedAll(host, done, s, begun, t, trace, from) && Surveyed(host, p, s, t, s')
    requires t + SurveyTicks(host, p, t) <= now
    requires host.Alive(p.identity, t) && host.Alive(p.identity, t + 3) ==>
      SentSince(trace', |trace|, GroupSignal(p.identity, Terminate))
    ensures SurveyedAll(host, done + [p], s', begun, now, trace', from)
  {
    SurveyedGrows(host, p, s, t, s');
    forall q | q in done + [p] && Steadfast(host, q.identity, begun, now)
      ensures q.identity in s'.matched && SentSince(trace', from, GroupSignal(q.identity, Terminate))
    {
      if q in done {
        SentStays(trace, trace', from, GroupSignal(q.identity, Terminate));
      } else {
        assert host.Alive(p.identity, t) && host.Alive(p.identity, t + 3);
        SentFrom(trace', from, |trace|, GroupSignal(q.identity, Terminate));
      }
    }
    if s'.report.Resolved() {
      SurveyedAccounts(host, p, s, begun, t, s', now);
      forall q | q in done + [p] ensures Accounted(host, q, s', begun, now) {
        if q in done {
          assert Accounted(host, q, s, begun, t);
        }
      }
    }
  }

  method SurveyAll(host: Host, processes: seq<Record>, ghost from: nat) returns (r: Result<Survey>)
    requires from <= |host.trace|
    modifies host
    ensures Progress(host, CleanupOf(processes, from))
    ensures r.Err? <==> FailedIn(host, old(host.now), host.now)
    ensures r.Ok? ==> MayTargetAll(host.trace, CleanupOf(processes, from), r.value.discovered)
    ensures r.Ok? ==> Distinct(r.value.discovered)
    ensures r.Ok? ==> SurveyedAll(host, processes, r.value, old(host.now), host.now, host.trace, |old(host.trace)|)
    ensures r.Ok? ==> Sends(host, Sent(r.value.report.signaled, 0, 0, 0))
    ensures r.Ok? && AllGone(host, processes, old(host.now), host.now) ==> GoneSoFar(processes, r.value, |processes|)
  {
    var s := Survey([], [], EMPTY_REPORT);
    ghost var scope, begun, start := CleanupOf(processes, from), host.now, host.trace;
    PlusNothing(SentIn(start), NOTHING);
    for i := 0 to |processes|
      invariant Progress(host, scope) && begun <= host.now && !FailedIn(host, begun, host.now)
      invariant MayTargetAll(host.trace, scope, s.discovered) && Distinct(s.discovered)
      invariant SurveyedAll(host, processes[..i], s, begun, host.now, host.trace, |start|)
      invariant Sends(host, Sent(s.report.signaled, 0, 0, 0))
      invariant AllGone(host, processes, begun, host.now) ==> GoneSoFar(processes, s, i)
    {
      var p := processes[i];
      ghost var t, trace := host.now, host.trace;
      assert p.identity in Recorded(processes);
      assert forall m | m in p.groupMembers :: m in Recorded(processes);
      var next := SurveyRecord(host, p, s, scope);
      if next.Err? {
        return Err;
      }
      SurveyNext(host, processes[..i], p, s, next.value, begun, t, host.now, trace, host.trace, |start|);
      if AllGone(host, processes, begun, host.now) {
        GoneNext(host, processes, s, i, t, next.value, begun, host.now);
      }
      s := next.value;
      assert processes[..i + 1] == processes[..i] + [p];
    }
    assert processes[..|processes|] == processes;
    return Ok(s);
  }

  ghost predicate GoneSoFar(processes: seq<Record>, s: Survey, n: nat) {
    && s.report == EMPTY_REPORT.(alreadyGone := n) && s.matched == []
    && forall id | id in s.discovered :: id in Recorded(processes)
  }

  lemma GoneNext(host: Host, processes: seq<Record>, s: Survey, i: nat, t: nat, s': Survey, begun: nat, now: nat)
    requires i < |processes| && begun <= t < now && AllGone(host, processes, begun, now)
    requires t + SurveyTicks(host, processes[i], t) <= now
    requires GoneSoFar(processes, s, i) && Surveyed(host, processes[i], s, t, s')
    ensures GoneSoFar(processes, s', i + 1)
  {
    var p := processes[i];
    assert AllGoneAt(host, processes, t) && p in processes;
    assert AllGoneAt(host, processes, t + 1);
    assert s'.matched == s.matched + [];
    forall id | id in s'.discovered ensures id in Recorded(processes) {
      if id !in s.discovered {
        assert id in p.groupMembers;
      }
    }
  }

  // ----- signals, waits and the count of survivors -----

  function Times(signal: Signal, n: nat): Sent {
    if signal == Terminate then Sent(0, 0, n, 0) else Sent(0, 0, 0, n)
  }

  function GroupTimes(signal: Signal, n: nat): Sent {
    if signal == Terminate then Sent(n, 0, 0, 0) else Sent(0, n, 0, 0)
  }

  /** All that stay are signalled, nothing is if none is there, and the count is
      the number of signals. */
  method SignalEach(host: Host, ids: seq<Identity>, signal: Signal, ghost scope: Scope) returns (r: Result<nat>)
    requires MayTargetAll(host.trace, scope, ids)
    modifies host
    ensures Progress(host, scope)
    ensures r.Err? <==> FailedIn(host, old(host.now), host.now)
    ensures r.Ok? ==> Sends(host, Times(signal, r.value))
    ensures r.Ok? ==> forall id | id in ids && Steadfast(host, id, old(host.now), host.now) ::
      SentSince(host.trace, |old(host.trace)|, ProcessSignal(id, signal))
    ensures r.Ok? && r.value > 0 ==> SomeThere(host, ids, old(host.now), host.now)
  {
    var count := 0;
    ghost var start, begun := host.trace, host.now;
    PlusNothing(SentIn(start), NOTHING);
    for i := 0 to |ids|
      invariant Progress(host, scope) && begun <= host.now && !FailedIn(host, begun, host.now)
      invariant Sends(host, Times(signal, count))
      invariant forall id | id in ids[..i] && Steadfast(host, id, begun, host.now) ::
        SentSince(host.trace, |start|, ProcessSignal(id, signal))
      invariant count > 0 ==> SomeThere(host, ids, begun, host.now)
    {
      ghost var asked, before := host.now, host.trace;
      TargetStays(start, before, scope, ids);
      var sent := SignalMatching(host, ids[i], signal, scope);
      if sent.Err? {
        return Err;
      }
      assert ids[..i + 1] == ids[..i] + [ids[i]];
      forall id | id in ids[..i + 1] && Steadfast(host, id, begun, host.now)
        ensures SentSince(host.trace, |start|, ProcessSignal(id, signal))
      {
        if id in ids[..i] {
          SentStays(before, host.trace, |start|, ProcessSignal(id, signal));
        } else {
          SentFrom(host.trace, |start|, |before|, ProcessSignal(id, signal));
        }
      }
      if sent.value {
        ThereAt(host, ids, i, begun, asked, host.now);
      }
      count := count + if sent.value then 1 else 0;
    }
    assert ids[..|ids|] == ids;
    return Ok(count);
  }

  ghost predicate SomeThere(host: Host, ids: seq<Identity>, from: nat, to: nat) {
    exists id, t: nat | id in ids && from <= t < to :: host.Alive(id, t)
  }

  lemma ThereAt(host: Host, ids: seq<Identity>, i: nat, from: nat, t: nat, to: nat)
    requires i < |ids| && from <= t < to && host.Alive(ids[i], t)
    ensures SomeThere(host, ids, from, to)
  {
    assert ids[i] in ids;
  }

  /** Kill the groups whose recorded leader is still there. */
  method KillGroups(host: Host, matched: seq<Identity>, ghost scope: Scope) returns (r: Result<nat>)
    requires forall id | id in matched :: id in scope.leaders
    modifies host
    ensures Progress(host, scope)
    ensures r.Err? <==> FailedIn(host, old(host.now), host.now)
    ensures r.Ok? ==> Sends(host, GroupTimes(Kill, r.value))
    ensures r.Ok? ==> forall id | id in matched && Steadfast(host, id, old(host.now), host.now) ::
      SentSince(host.trace, |old(host.trace)|, GroupSignal(id, Kill))
    ensures r.Ok? ==> r.value <= |matched|
  {
    var count := 0;
    ghost var start, begun := host.trace, host.now;
    PlusNothing(SentIn(start), NOTHING);
    for i := 0 to |matched|
      invariant Progress(host, scope) && begun <= host.now && !FailedIn(host, begun, host.now)
      invariant count <= i && Sends(host, GroupTimes(Kill, count))
      invariant forall id | id in matched[..i] && Steadfast(host, id, begun, host.now) ::
        SentSince(host.trace, |start|, GroupSignal(id, Kill))
    {
      ghost var before := host.trace;
      var killed := SignalGroupMatching(host, matched[i], Kill, scope);
      if killed.Err? {
        return Err;
      }
      assert matched[..i + 1] == matched[..i] + [matched[i]];
      forall id | id in matched[..i + 1] && Steadfast(host, id, begun, host.now)
        ensures SentSince(host.trace, |start|, GroupSignal(id, Kill))
      {
        if id in matched[..i] {
          SentStays(before, host.trace, |start|, GroupSignal(id, Kill));
        } else {
          SentFrom(host.trace, |start|, |before|, GroupSignal(id, Kill));
        }
      }
      count := count + if killed.value then 1 else 0;
    }
    assert matched[..|matched|] == matched;
    return Ok(count);
  }

  /** Each of them was asked, one tick each from `t` on, and none was there. */
  ghost predicate SeenGone(host: Host, ids: seq<Identity>, t: nat) {
    forall i: nat | i < |ids| :: !host.Alive(ids[i], t + i)
  }

  /** A wait begun in this stretch has run to its deadline, or has just seen
      everybody gone. */
  ghost predicate Waited(host: Host, ids: seq<Identity>, from: nat, to: nat) {
    || (exists t: nat | from <= t <= to :: t + host.polls(t) <= to)
    || (from + |ids| <= to && SeenGone(host, ids, to - |ids|))
  }

  /** Waiting only reads, and ends when everybody was seen gone in one round, or
      when the deadline has passed. */
  method WaitForStaleProcesses(host: Host, ids: seq<Identity>, ghost scope: Scope) returns (r: Result<()>)
    modifies host
    ensures Progress(host, scope) && ReadsOnly(old(host.trace), host.trace)
    ensures r.Err? <==> FailedIn(host, old(host.now), host.now)
    ensures r.Ok? ==>
      || old(host.now) + host.polls(old(host.now)) <= host.now
      || (old(host.now) + |ids| <= host.now && SeenGone(host, ids, host.now - |ids|))
  {
    ghost var begun := host.now;
    var rounds := host.polls(host.now);
    for k := 0 to rounds
      invariant Progress(host, scope) && ReadsOnly(old(host.trace), host.trace) && begun + k <= host.now
      invariant !FailedIn(host, begun, host.now)
    {
      ghost var t := host.now;
      var anyAlive := false;
      for i := 0 to |ids|
        invariant Progress(host, scope) && ReadsOnly(old(host.trace), host.trace) && t <= host.now
        invariant !FailedIn(host, begun, host.now)
        invariant !anyAlive ==> host.now == t + i && SeenGone(host, ids[..i], t)
        invariant anyAlive ==> t < host.now
      {
        if !anyAlive {
          ghost var asked := host.now;
          var there := Matches(host, ids[i], scope);
          if there.Err? {
            assert host.fails(asked);
            return Err;
          }
          anyAlive := there.value;
          assert ids[..i + 1] == ids[..i] + [ids[i]];
        }
      }
      assert ids[..|ids|] == ids;
      if !anyAlive {
        break;
      }
    }
    return Ok(());
  }

  /** How many of them are there when, one tick each, they are asked. */
  ghost function AliveCount(host: Host, ids: seq<Identity>, t: nat): nat {
    if ids == [] then 0
    else AliveCount(host, ids[..|ids| - 1], t) + if host.Alive(ids[|ids| - 1], t + |ids| - 1) then 1 else 0
  }

  lemma {:induction false} AliveIsCounted(host: Host, ids: seq<Identity>, t: nat, k: nat)
    requires k < |ids| && host.Alive(ids[k], t + k)
    ensures AliveCount(host, ids, t) > 0
  {
    if k < |ids| - 1 {
      AliveIsCounted(host, ids[..|ids| - 1], t, k);
    }
  }

  lemma {:induction false} NoneIsCounted(host: Host, ids: seq<Identity>, t: nat)
    requires forall k | 0 <= k < |ids| :: !host.Alive(ids[k], t + k)
    ensures AliveCount(host, ids, t) == 0
  {
    if ids != [] {
      NoneIsCounted(host, ids[..|ids| - 1], t);
    }
  }

  method CountSurvivors(host: Host, ids: seq<Identity>, ghost scope: Scope) returns (r: Result<nat>)
    modifies host
    ensures Progress(host, scope) && ReadsOnly(old(host.trace), host.trace)
    ensures r.Err? <==> FailedIn(host, old(host.now), host.now)
    ensures r.Ok? ==> host.now == old(host.now) + |ids|
    ensures r.Ok? ==> r.value == AliveCount(host, ids, old(host.now))
  {
    var count := 0;
    ghost var begun := host.now;
    for i := 0 to |ids|
      invariant Progress(host, scope) && ReadsOnly(old(host.trace), host.trace) && host.now == begun + i
      invariant !FailedIn(host, begun, host.now)
      invariant count == AliveCount(host, ids[..i], begun)
    {
      ghost var asked := host.now;
      var alive := Matches(host, ids[i], scope);
      if alive.Err? {
        assert host.fails(asked);
        return Err;
      }
      assert ids[..i + 1][..i] == ids[..i];
      count := count + if alive.value then 1 else 0;
    }
    assert ids[..|ids|] == ids;
    return Ok(count);
  }

  /** Nobody counted means that every recorded identity asked is dead for good. */
  lemma NoneSurvives(host: Host, ids: seq<Identity>, recorded: set<Identity>, born: nat, t: nat)
    requires host.LivesOnce() && born <= t && (forall id | id in recorded :: host.BornBy(id, born))
    requires AliveCount(host, ids, t) == 0
    ensures forall id | id in ids && id in recorded :: host.Gone(id, t + |ids|)
  {
    forall id | id in ids && id in recorded ensures host.Gone(id, t + |ids|) {
      var k :| 0 <= k < |ids| && ids[k] == id;
      if host.Alive(id, t + k) {
        AliveIsCounted(host, ids, t, k);
      }
      host.DeadStaysDead(id, born, t + k);
    }
  }

  function Without(ids: seq<Identity>, gone: seq<Identity>): (r: seq<Identity>)
    ensures forall id :: id in r <==> id in ids && id !in gone
  {
    if ids == [] then []
    else if ids[0] in gone then Without(ids[1..], gone)
    else [ids[0]] + Without(ids[1..], gone)
  }

  /** The registry of another runtime. */
  predicate Foreign(file: RegistryFile, expected: Option<string>) {
    file.Loaded? && expected.Some? && file.document.runtimeId != "" && file.document.runtimeId != expected.value
  }

  /** Whoever is there throughout was sent TERM and later KILL: a leader through
      its group, anyone else in person. */
  ghost predicate BothSent(trace: seq<Event>, from: nat, processes: seq<Record>, id: Identity) {
    if id in Leaders(processes) then TermThenKill(trace, from, GroupSignal(id, Terminate), GroupSignal(id, Kill))
    else TermThenKill(trace, from, ProcessSignal(id, Terminate), ProcessSignal(id, Kill))
  }

  /** The cleanup.  A resolved report means that everything the registry vouched
      for is dead for good; every signal directly follows a read that returned
      the identity it is meant for, groups only of recorded leaders, processes
      only recorded or found by a scan; a foreign registry is not touched.  The
      report counts the signals, whoever is there throughout gets both, and it
      errs only on a bad registry or a failed call. */
  method TerminateMatchingStaleProcesses(host: Host, file: RegistryFile, expected: Option<string>)
    returns (r: Result<Report>)
    requires host.LivesOnce()
    requires file.Loaded? ==> AllBorn(host, file.document.processes, host.now)
    modifies host
    ensures old(host.now) <= host.now && old(host.trace) <= host.trace
    ensures file.Missing? ==> r == Ok(EMPTY_REPORT) && host.trace == old(host.trace)
    ensures file.Unreadable? || Foreign(file, expected) ==> r.Err? && host.trace == old(host.trace)
    ensures r.Err? <==> file.Unreadable? || Foreign(file, expected) || FailedIn(host, old(host.now), host.now)
    ensures file.Loaded? ==> Guarded(host.trace, CleanupOf(file.document.processes, |old(host.trace)|))
    ensures r.Ok? ==> Sends(host, Sent(r.value.signaled, r.value.forceKilled, r.value.descendantsSignaled,
                                       r.value.descendantsForceKilled))
    ensures file.Loaded? && r.Ok? ==> forall id | id in Recorded(file.document.processes)
      && Steadfast(host, id, old(host.now), host.now) ::
        BothSent(host.trace, |old(host.trace)|, file.document.processes, id) && r.value.survivors > 0
    ensures file.Loaded? && r.Ok? && AllGone(host, file.document.processes, old(host.now), host.now) ==>
      r.value == EMPTY_REPORT.(alreadyGone := |file.document.processes|)
    ensures file.Loaded? && r.Ok? && r.value.Resolved() ==>
              forall id | id in Recorded(file.document.processes) :: host.Gone(id, host.now)
  {
    PlusNothing(SentIn(host.trace), NOTHING);
    if file.Missing? {
      return Ok(EMPTY_REPORT);
    }
    if file.Unreadable? {
      return Err;
    }
    var document := file.document;
    if expected.Some? && document.runtimeId != "" && document.runtimeId != expected.value {
      return Err;
    }
    r := CleanUp(host, document.processes);
  }

  method CleanUp(host: Host, processes: seq<Record>) returns (r: Result<Report>)
    requires host.LivesOnce() && AllBorn(host, processes, host.now)
    modifies host
    ensures old(host.now) <= host.now && old(host.trace) <= host.trace
    ensures r.Err? <==> FailedIn(host, old(host.now), host.now)
    ensures Guarded(host.trace, CleanupOf(processes, |old(host.trace)|))
    ensures r.Ok? ==> Sends(host, Sent(r.value.signaled, r.value.forceKilled, r.value.descendantsSignaled,
                                       r.value.descendantsForceKilled))
    ensures r.Ok? ==> forall id | id in Recorded(processes) && Steadfast(host, id, old(host.now), host.now) ::
      BothSent(host.trace, |old(host.trace)|, processes, id) && r.value.survivors > 0
    ensures r.Ok? && AllGone(host, processes, old(host.now), host.now) ==>
      r.value == EMPTY_REPORT.(alreadyGone := |processes|)
    ensures r.Ok? && r.value.Resolved() ==> forall id | id in Recorded(processes) :: host.Gone(id, host.now)
  {
    ghost var start, begun := host.trace, host.now;
    ghost var scope := CleanupOf(processes, |start|);
    var survey := SurveyAll(host, processes, |start|);
    if survey.Err? {
      return Err;
    }
    var s := survey.value;
    var discovered := Without(s.discovered, s.matched);
    ghost var surveyed, t1 := host.trace, host.now;
    assert MayTargetAll(surveyed, scope, discovered);
    var sent := SignalTwice(host, s.matched, discovered, scope);
    if sent.Err? {
      return Err;
    }
    ghost var late, asked := host.trace, host.now;
    var survivors := CountSurvivors(host, s.matched + discovered, scope);
    if survivors.Err? {
      return Err;
    }
    r := Ok(s.report.(descendantsSignaled := sent.value.0, forceKilled := sent.value.1,
                      descendantsForceKilled := sent.value.2, survivors := survivors.value));
    Outcome(host, processes, s, discovered, sent.value, begun, t1, asked, host.now, start, surveyed, late, host.trace);
  }

  method TermAndWait(host: Host, matched: seq<Identity>, discovered: seq<Identity>, ghost scope: Scope)
    returns (r: Result<nat>)
    requires MayTargetAll(host.trace, scope, discovered)
    modifies host
    ensures Progress(host, scope)
    ensures r.Err? <==> FailedIn(host, old(host.now), host.now)
    ensures r.Ok? ==> Sends(host, Times(Terminate, r.value))
    ensures r.Ok? ==> forall id | id in discovered && Steadfast(host, id, old(host.now), host.now) ::
      SentSince(host.trace, |old(host.trace)|, ProcessSignal(id, Terminate))
    ensures r.Ok? && r.value > 0 ==> SomeThere(host, discovered, old(host.now), host.now)
    ensures r.Ok? ==> Waited(host, matched + discovered, old(host.now), host.now)
  {
    ghost var start := host.trace;
    r := SignalEach(host, discovered, Terminate, scope);
    if r.Ok? {
      ghost var sent := host.trace;
      var waited := WaitForStaleProcesses(host, matched + discovered, scope);
      ReadsSendNothing(sent, host.trace);
      forall id | id in discovered && SentSince(sent, |start|, ProcessSignal(id, Terminate))
        ensures SentSince(host.trace, |start|, ProcessSignal(id, Terminate))
      {
        SentStays(sent, host.trace, |start|, ProcessSignal(id, Terminate));
      }
      if waited.Err? {
        r := Err;
      }
    }
  }

  method KillAndWait(host: Host, matched: seq<Identity>, discovered: seq<Identity>, ghost scope: Scope)
    returns (r: Result<(nat, nat)>)
    requires MayTargetAll(host.trace, scope, discovered) && forall id | id in matched :: id in scope.leaders
    modifies host
    ensures Progress(host, scope)
    ensures r.Err? <==> FailedIn(host, old(host.now), host.now)
    ensures r.Ok? ==> Sends(host, Sent(0, r.value.0, 0, r.value.1))
    ensures r.Ok? ==> forall id | id in matched && Steadfast(host, id, old(host.now), host.now) ::
      SentSince(host.trace, |old(host.trace)|, GroupSignal(id, Kill))
    ensures r.Ok? ==> forall id | id in discovered && Steadfast(host, id, old(host.now), host.now) ::
      SentSince(host.trace, |old(host.trace)|, ProcessSignal(id, Kill))
    ensures r.Ok? ==> Waited(host, matched + discovered, old(host.now), host.now)
    ensures r.Ok? ==> r.value.0 <= |matched| && (r.value.1 > 0 ==> SomeThere(host, discovered, old(host.now), host.now))
  {
    ghost var start := host.trace;
    var groups := KillGroups(host, matched, scope);
    if groups.Err? {
      return Err;
    }
    ghost var between := host.trace;
    TargetStays(start, between, scope, discovered);
    var each := SignalEach(host, discovered, Kill, scope);
    if each.Err? {
      return Err;
    }
    ghost var sent := host.trace;
    var waited := WaitForStaleProcesses(host, matched + discovered, scope);
    if waited.Err? {
      return Err;
    }
    ReadsSendNothing(sent, host.trace);
    forall id | SentSince(between, |start|, GroupSignal(id, Kill)) ensures SentSince(host.trace, |start|, GroupSignal(id, Kill)) {
      SentStays(between, host.trace, |start|, GroupSignal(id, Kill));
    }
    forall id | SentSince(sent, |between|, ProcessSignal(id, Kill)) ensures SentSince(host.trace, |start|, ProcessSignal(id, Kill)) {
      SentStays(sent, host.trace, |between|, ProcessSignal(id, Kill));
      SentFrom(host.trace, |start|, |between|, ProcessSignal(id, Kill));
    }
    return Ok((groups.value, each.value));
  }

  /** TERM, a wait, KILL, a wait: how many processes, groups and processes. */
  method SignalTwice(host: Host, matched: seq<Identity>, discovered: seq<Identity>, ghost scope: Scope)
    returns (r: Result<(nat, nat, nat)>)
    requires MayTargetAll(host.trace, scope, discovered) && forall id | id in matched :: id in scope.leaders
    modifies host
    ensures Progress(host, scope)
    ensures r.Err? <==> FailedIn(host, old(host.now), host.now)
    ensures r.Ok? ==> Sends(host, Sent(0, r.value.1, r.value.0, r.value.2)) && r.value.1 <= |matched|
    ensures r.Ok? ==> forall id | id in matched && Steadfast(host, id, old(host.now), host.now) ::
      SentSince(host.trace, |old(host.trace)|, GroupSignal(id, Kill))
    ensures r.Ok? ==> forall id | id in discovered && Steadfast(host, id, old(host.now), host.now) ::
      TermThenKill(host.trace, |old(host.trace)|, ProcessSignal(id, Terminate), ProcessSignal(id, Kill))
    ensures r.Ok? && (r.value.0 > 0 || r.value.2 > 0) ==> SomeThere(host, discovered, old(host.now), host.now)
  {
    ghost var start, begun := host.trace, host.now;
    var terminated := TermAndWait(host, matched, discovered, scope);
    if terminated.Err? {
      return Err;
    }
    ghost var mid, t := host.trace, host.now;
    TargetStays(start, mid, scope, discovered);
    var killed := KillAndWait(host, matched, discovered, scope);
    if killed.Err? {
      return Err;
    }
    forall id | Steadfast(host, id, begun, host.now)
      ensures id in matched ==> SentSince(host.trace, |start|, GroupSignal(id, Kill))
      ensures id in discovered ==>
        TermThenKill(host.trace, |start|, ProcessSignal(id, Terminate), ProcessSignal(id, Kill))
    {
      ShortStays(host, id, begun, t, host.now);
      if id in matched {
        SentFrom(host.trace, |start|, |mid|, GroupSignal(id, Kill));
      }
      if id in discovered {
        assert mid[..|mid|] == mid;
        TermAndKill(mid, host.trace, |start|, |mid|, ProcessSignal(id, Terminate), ProcessSignal(id, Kill));
      }
    }
    return Ok((terminated.value, killed.value.0, killed.value.1));
  }

  // ----- putting the phases together -----

  lemma ShortStays(host: Host, id: Identity, a: nat, b: nat, c: nat)
    requires a <= b <= c && Steadfast(host, id, a, c)
    ensures Steadfast(host, id, a, b) && Steadfast(host, id, b, c)
  {
  }

  /** A leader that stays is signalled through its group, a member in person. */
  lemma WhoStays(host: Host, processes: seq<Record>, s: Survey, discovered: seq<Identity>, id: Identity, begun: nat, now: nat)
    requires id in Recorded(processes) && Steadfast(host, id, begun, now)
    requires forall m | m in s.matched :: m in Leaders(processes)
    requires forall p, m | p in processes && m in p.groupMembers :: m == p.identity || m in s.discovered
    requires forall p | p in processes && Steadfast(host, p.identity, begun, now) :: p.identity in s.matched
    requires forall m :: m in discovered <==> m in s.discovered && m !in s.matched
    ensures if id in Leaders(processes) then id in s.matched else id in discovered
  {
  }

  lemma StayerGetsBoth(surveyed: seq<Event>, late: seq<Event>, trace: seq<Event>, from: nat,
                       processes: seq<Record>, id: Identity)
    requires from <= |surveyed| && surveyed <= late <= trace
    requires id in Leaders(processes) ==>
      SentSince(surveyed, from, GroupSignal(id, Terminate)) && SentSince(late, |surveyed|, GroupSignal(id, Kill))
    requires id !in Leaders(processes) ==>
      TermThenKill(late, |surveyed|, ProcessSignal(id, Terminate), ProcessSignal(id, Kill))
    ensures BothSent(trace, from, processes, id)
  {
    if id in Leaders(processes) {
      assert surveyed[..|surveyed|] == surveyed;
      SentStays(late, trace, |surveyed|, GroupSignal(id, Kill));
      TermAndKill(surveyed, trace, from, |surveyed|, GroupSignal(id, Terminate), GroupSignal(id, Kill));
    } else {
      var j: nat, k: nat :| |surveyed| <= j < k < |late| && late[j] == ProcessSignal(id, Terminate)
                            && late[k] == ProcessSignal(id, Kill);
      assert trace[j] == late[j] && trace[k] == late[k];
    }
  }

  lemma StayerIsCounted(host: Host, ids: seq<Identity>, id: Identity, t: nat)
    requires id in ids && Steadfast(host, id, t, t + |ids|)
    ensures AliveCount(host, ids, t) > 0
  {
    var k :| 0 <= k < |ids| && ids[k] == id;
    AliveIsCounted(host, ids, t, k);
  }

  lemma StayerIsTreated(host: Host, processes: seq<Record>, s: Survey, discovered: seq<Identity>, id: Identity,
                        begun: nat, t1: nat, asked: nat, now: nat,
                        start: seq<Event>, surveyed: seq<Event>, late: seq<Event>, trace: seq<Event>)
    requires id in Recorded(processes) && Steadfast(host, id, begun, now)
    requires begun <= t1 <= asked && now == asked + |s.matched + discovered|
    requires start <= surveyed <= late <= trace
    requires SurveyedAll(host, processes, s, begun, t1, surveyed, |start|)
    requires forall m :: m in discovered <==> m in s.discovered && m !in s.matched
    requires forall m | m in s.matched && Steadfast(host, m, t1, asked) :: SentSince(late, |surveyed|, GroupSignal(m, Kill))
    requires forall m | m in discovered && Steadfast(host, m, t1, asked) ::
      TermThenKill(late, |surveyed|, ProcessSignal(m, Terminate), ProcessSignal(m, Kill))
    ensures BothSent(trace, |start|, processes, id) && AliveCount(host, s.matched + discovered, asked) > 0
  {
    ShortStays(host, id, begun, t1, now);
    ShortStays(host, id, t1, asked, now);
    WhoStays(host, processes, s, discovered, id, begun, t1);
    StayerGetsBoth(surveyed, late, trace, |start|, processes, id);
    StayerIsCounted(host, s.matched + discovered, id, asked);
  }

  lemma GoneThroughout(host: Host, processes: seq<Record>, a: nat, b: nat, c: nat, d: nat)
    requires a <= b <= c <= d && AllGone(host, processes, a, d)
    ensures AllGone(host, processes, a, b) && AllGone(host, processes, b, c) && AllGone(host, processes, c, d)
  {
  }

  lemma GoneReport(host: Host, processes: seq<Record>, s: Survey, discovered: seq<Identity>, t1: nat, asked: nat, now: nat)
    requires AllGone(host, processes, t1, asked) && AllGone(host, processes, asked, now)
    requires s.matched == [] && (forall id | id in discovered :: id in Recorded(processes))
    requires now == asked + |s.matched + discovered|
    ensures !SomeThere(host, discovered, t1, asked)
    ensures AliveCount(host, s.matched + discovered, asked) == 0
  {
    var ids := s.matched + discovered;
    forall k | 0 <= k < |ids| ensures !host.Alive(ids[k], asked + k) {
      assert ids[k] in discovered && AllGoneAt(host, processes, asked + k);
    }
    forall id, t: nat | id in discovered && t1 <= t < asked ensures !host.Alive(id, t) {
      assert AllGoneAt(host, processes, t);
    }
    NoneIsCounted(host, ids, asked);
  }

  /** What follows from the phases of a cleanup that went through. */
  lemma Outcome(host: Host, processes: seq<Record>, s: Survey, discovered: seq<Identity>, sent: (nat, nat, nat),
                begun: nat, t1: nat, asked: nat, now: nat,
                start: seq<Event>, surveyed: seq<Event>, late: seq<Event>, trace: seq<Event>)
    requires host.LivesOnce() && AllBorn(host, processes, begun)
    requires begun <= t1 <= asked && now == asked + |s.matched + discovered|
    requires start <= surveyed <= late <= trace
    requires SurveyedAll(host, processes, s, begun, t1, surveyed, |start|)
    requires AllGone(host, processes, begun, t1) ==> GoneSoFar(processes, s, |processes|)
    requires forall m :: m in discovered <==> m in s.discovered && m !in s.matched
    requires forall m | m in s.matched && Steadfast(host, m, t1, asked) :: SentSince(late, |surveyed|, GroupSignal(m, Kill))
    requires forall m | m in discovered && Steadfast(host, m, t1, asked) ::
      TermThenKill(late, |surveyed|, ProcessSignal(m, Terminate), ProcessSignal(m, Kill))
    requires sent.1 <= |s.matched| && (sent.0 > 0 || sent.2 > 0 ==> SomeThere(host, discovered, t1, asked))
    requires SentIn(surveyed) == SentIn(start).Plus(Sent(s.report.signaled, 0, 0, 0))
    requires SentIn(late) == SentIn(surveyed).Plus(Sent(0, sent.1, sent.0, sent.2)) && ReadsOnly(late, trace)
    ensures SentIn(trace) == SentIn(start).Plus(Sent(s.report.signaled, sent.1, sent.0, sent.2))
    ensures var n := AliveCount(host, s.matched + discovered, asked);
      && (forall id | id in Recorded(processes) && Steadfast(host, id, begun, now) ::
            BothSent(trace, |start|, processes, id) && n > 0)
      && (AllGone(host, processes, begun, now) ==>
            s.report == EMPTY_REPORT.(alreadyGone := |processes|) && sent == (0, 0, 0) && n == 0)
      && (s.report.Resolved() && n == 0 ==> forall id | id in Recorded(processes) :: host.Gone(id, now))
  {
    ReadsSendNothing(late, trace);
    forall id | id in Recorded(processes) && Steadfast(host, id, begun, now)
      ensures BothSent(trace, |start|, processes, id) && AliveCount(host, s.matched + discovered, asked) > 0
    {
      StayerIsTreated(host, processes, s, discovered, id, begun, t1, asked, now, start, surveyed, late, trace);
    }
    if AllGone(host, processes, begun, now) {
      GoneThroughout(host, processes, begun, t1, asked, now);
      GoneReport(host, processes, s, discovered, t1, asked, now);
    }
    if s.report.Resolved() && AliveCount(host, s.matched + discovered, asked) == 0 {
      ResolvedMeansGone(host, processes, s, discovered, begun, t1, asked, now);
    }
  }

  lemma ResolvedMeansGone(host: Host, processes: seq<Record>, s: Survey, discovered: seq<Identity>, begun: nat,
                          t1: nat, asked: nat, now: nat)
    requires host.LivesOnce() && AllBorn(host, processes, begun) && begun <= t1 <= asked
    requires forall p | p in processes :: Accounted(host, p, s, begun, t1)
    requires forall id :: id in discovered <==> id in s.discovered && id !in s.matched
    requires now == asked + |s.matched + discovered| && AliveCount(host, s.matched + discovered, asked) == 0
    ensures forall id | id in Recorded(processes) :: host.Gone(id, now)
  {
    NoneSurvives(host, s.matched + discovered, Recorded(processes), begun, asked);
    forall id | id in Recorded(processes) ensures host.Gone(id, now) {
      if id !in s.matched + discovered {
        var p :| p in processes && (id == p.identity || id in p.groupMembers);
        assert Accounted(host, p, s, begun, t1);
        var t: nat :| begun <= t < t1 && !host.Alive(id, t);
        host.DeadStaysDead(id, begun, t);
      }
    }
  }
}
