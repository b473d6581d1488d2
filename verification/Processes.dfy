/**
 Process identities and the host that answers questions about them
 (src/session/process.rs).

 The host is an adversary: which process holds a PID may change between any
 two calls, scans may return anything, and any call may fail.  Every answer is
 an arbitrary function of a tick that each call advances.  The one law is that
 an identity, a PID with its birth stamp, lives once.
 */
module Processes {
  import opened Results

  datatype Birth =
    | LinuxProcStartTicks(ticks: nat)
    | MacOsStartTime(seconds: nat, microseconds: nat)
    | WindowsCreationTime(ticks100ns: nat)

  datatype Identity = Identity(pid: int, birth: Birth)

  datatype Signal = Terminate | Kill

  datatype Event =
    | Read(pid: int, answer: Option<Identity>)
    | Scanned(pid: int, found: seq<Identity>)
    | GroupSignal(leader: Identity, signal: Signal)
    | ProcessSignal(target: Identity, signal: Signal)

  class Host {
    /** Who holds a PID at a tick. */
    const occupant: (nat, int) -> Option<Identity>
    /** What a scan made at a tick returns. */
    const scanned: nat -> seq<Identity>
    /** Which calls fail. */
    const fails: nat -> bool
    /** How often a wait begun at a tick polls before its deadline. */
    const polls: nat -> nat

    var now: nat
    var trace: seq<Event>

    constructor (occupant: (nat, int) -> Option<Identity>, scanned: nat -> seq<Identity>,
                 fails: nat -> bool, polls: nat -> nat)
      ensures this.occupant == occupant && this.scanned == scanned
      ensures this.fails == fails && this.polls == polls
      ensures now == 0 && trace == []
    {
      this.occupant, this.scanned, this.fails, this.polls := occupant, scanned, fails, polls;
      now, trace := 0, [];
    }

    predicate Alive(id: Identity, t: nat) {
      occupant(t, id.pid) == Some(id)
    }

    /** A dead identity never returns. */
    ghost predicate LivesOnce() {
      forall id, t: nat, u: nat, v: nat :: t <= u <= v && Alive(id, t) && Alive(id, v) ==> Alive(id, u)
    }

    /** `id` was seen alive, at or before `t`. */
    ghost predicate BornBy(id: Identity, t: nat) {
      exists u: nat | u <= t :: Alive(id, u)
    }

    /** `id` is dead from `t` on. */
    ghost predicate Gone(id: Identity, t: nat) {
      forall u: nat | t <= u :: !Alive(id, u)
    }

    lemma DeadStaysDead(id: Identity, born: nat, t: nat)
      requires LivesOnce() && BornBy(id, born) && born <= t && !Alive(id, t)
      ensures Gone(id, t)
    {
      var b: nat :| b <= born && Alive(id, b);
    }

    method CurrentIdentity(pid: int) returns (r: Result<Option<Identity>>)
      modifies this
      ensures now == old(now) + 1
      ensures r.Err? <==> fails(old(now))
      ensures r.Ok? ==> r.value == occupant(old(now), pid) && trace == old(trace) + [Read(pid, r.value)]
      ensures r.Err? ==> trace == old(trace)
    {
      if fails(now) {
        r := Err;
      } else {
        r := Ok(occupant(now, pid));
        trace := trace + [Read(pid, r.value)];
      }
      now := now + 1;
    }

    method Scan(pid: int) returns (r: Result<seq<Identity>>)
      modifies this
      ensures now == old(now) + 1
      ensures r == if fails(old(now)) then Err else Ok(scanned(old(now)))
      ensures trace == if r.Ok? then old(trace) + [Scanned(pid, r.value)] else old(trace)
    {
      if fails(now) {
        r := Err;
      } else {
        r := Ok(scanned(now));
        trace := trace + [Scanned(pid, r.value)];
      }
      now := now + 1;
    }

    /** Signals go to the numeric PID; the trace records whom they are meant for. */
    method SendGroup(leader: Identity, signal: Signal) returns (r: Result<()>)
      modifies this
      ensures now == old(now) + 1 && trace == old(trace) + [GroupSignal(leader, signal)]
      ensures r.Err? <==> fails(old(now))
    {
      r := if fails(now) then Err else Ok(());
      now, trace := now + 1, trace + [GroupSignal(leader, signal)];
    }

    method SendProcess(target: Identity, signal: Signal) returns (r: Result<()>)
      modifies this
      ensures now == old(now) + 1 && trace == old(trace) + [ProcessSignal(target, signal)]
      ensures r.Err? <==> fails(old(now))
    {
      r := if fails(now) then Err else Ok(());
      now, trace := now + 1, trace + [ProcessSignal(target, signal)];
    }

    method IdentityMatches(id: Identity) returns (r: Result<bool>)
      modifies this
      ensures now == old(now) + 1
      ensures r.Err? <==> fails(old(now))
      ensures r.Err? ==> trace == old(trace)
      ensures r.Ok? ==> trace == old(trace) + [Read(id.pid, occupant(old(now), id.pid))]
      ensures r.Ok? ==> (r.value <==> Alive(id, old(now)))
    {
      var current :- CurrentIdentity(id.pid);
      return Ok(current == Some(id));
    }

    /** Compare, and signal on a match and only then. */
    method SignalIfMatching(id: Identity, signal: Signal) returns (r: Result<bool>)
      modifies this
      ensures r.Err? <==> fails(old(now)) || (Alive(id, old(now)) && fails(old(now) + 1))
      ensures r.Ok? ==> (r.value <==> Alive(id, old(now)))
      ensures now == old(now) + if !fails(old(now)) && Alive(id, old(now)) then 2 else 1
      ensures trace == old(trace) +
        if fails(old(now)) then []
        else [Read(id.pid, occupant(old(now), id.pid))] + if Alive(id, old(now)) then [ProcessSignal(id, signal)] else []
    {
      var matches :- IdentityMatches(id);
      if !matches {
        return Ok(false);
      }
      var _ :- SendProcess(id, signal);
      return Ok(true);
    }
  }

  // ----- what the host does in a stretch of time -----

  /** The host fails at one of these ticks. */
  ghost predicate FailedIn(host: Host, from: nat, to: nat) {
    exists t: nat | from <= t < to :: host.fails(t)
  }

  ghost predicate Steadfast(host: Host, id: Identity, from: nat, to: nat) {
    forall t: nat | from <= t < to :: host.Alive(id, t)
  }

  // ----- what was sent -----

  datatype Sent = Sent(groupTerm: nat, groupKill: nat, processTerm: nat, processKill: nat) {
    function Plus(d: Sent): Sent {
      Sent(groupTerm + d.groupTerm, groupKill + d.groupKill, processTerm + d.processTerm, processKill + d.processKill)
    }
  }

  const NOTHING := Sent(0, 0, 0, 0)

  function SentBy(e: Event): Sent {
    match e
    case GroupSignal(_, Terminate) => Sent(1, 0, 0, 0)
    case GroupSignal(_, Kill) => Sent(0, 1, 0, 0)
    case ProcessSignal(_, Terminate) => Sent(0, 0, 1, 0)
    case ProcessSignal(_, Kill) => Sent(0, 0, 0, 1)
    case _ => NOTHING
  }

  function Tally(count: Event -> Sent, trace: seq<Event>): Sent {
    if trace == [] then NOTHING else Tally(count, trace[..|trace| - 1]).Plus(count(trace[|trace| - 1]))
  }

  ghost predicate CountsSignals(count: Event -> Sent) {
    forall e :: count(e) == SentBy(e)
  }

  /** How many signals of each kind a trace holds, by any count that agrees with
      `SentBy`: this keeps the recursion out of proofs that do not use it. */
  ghost function SentIn(trace: seq<Event>): Sent {
    TallyUnique(trace);
    var d :| forall count | CountsSignals(count) :: d == Tally(count, trace);
    d
  }

  lemma {:induction false} TallyAgrees(count: Event -> Sent, other: Event -> Sent, trace: seq<Event>)
    requires CountsSignals(count) && CountsSignals(other)
    ensures Tally(count, trace) == Tally(other, trace)
  {
    if trace != [] {
      TallyAgrees(count, other, trace[..|trace| - 1]);
    }
  }

  lemma TallyUnique(trace: seq<Event>)
    ensures CountsSignals(SentBy)
    ensures forall count | CountsSignals(count) :: Tally(SentBy, trace) == Tally(count, trace)
  {
    forall count | CountsSignals(count) ensures Tally(SentBy, trace) == Tally(count, trace) {
      TallyAgrees(SentBy, count, trace);
    }
  }

  lemma SentIs(trace: seq<Event>)
    ensures SentIn(trace) == Tally(SentBy, trace)
  {
    TallyUnique(trace);
  }

  lemma TallyOne(count: Event -> Sent, trace: seq<Event>, e: Event)
    ensures Tally(count, trace + [e]) == Tally(count, trace).Plus(count(e))
  {
    assert (trace + [e])[..|trace|] == trace;
  }

  lemma TallyTwo(count: Event -> Sent, trace: seq<Event>, e: Event, f: Event)
    ensures Tally(count, trace + [e, f]) == Tally(count, trace).Plus(count(e)).Plus(count(f))
  {
    var longer := trace + [e];
    TallyOne(count, trace, e);
    TallyOne(count, longer, f);
    assert trace + [e, f] == longer + [f];
  }

  lemma SentOne(trace: seq<Event>, e: Event)
    ensures SentIn(trace + [e]) == SentIn(trace).Plus(SentBy(e))
  {
    SentIs(trace);
    SentIs(trace + [e]);
    TallyOne(SentBy, trace, e);
  }

  lemma PlusChains(a: Sent, d: Sent, e: Sent)
    ensures a.Plus(d).Plus(e) == a.Plus(d.Plus(e))
  {
  }

  lemma PlusNothing(a: Sent, d: Sent)
    ensures a.Plus(NOTHING) == a && a.Plus(NOTHING).Plus(d) == a.Plus(d)
  {
  }

  lemma LastIsSent(trace: seq<Event>, read: Event, e: Event)
    ensures SentSince(trace + [read, e], |trace|, e)
  {
    assert (trace + [read, e])[|trace| + 1] == e;
  }

  /** A read, and the signal it licensed. */
  lemma SentTwo(trace: seq<Event>, read: Event, e: Event)
    requires read.Read?
    ensures SentIn(trace + [read]) == SentIn(trace)
    ensures SentIn(trace + [read, e]) == SentIn(trace).Plus(SentBy(e))
  {
    SentIs(trace);
    SentIs(trace + [read]);
    SentIs(trace + [read, e]);
    TallyOne(SentBy, trace, read);
    TallyTwo(SentBy, trace, read, e);
    PlusNothing(SentIn(trace), SentBy(e));
  }

  lemma {:induction false} ReadsTally(count: Event -> Sent, before: seq<Event>, after: seq<Event>)
    requires ReadsOnly(before, after) && forall e: Event | e.Read? :: count(e) == NOTHING
    ensures Tally(count, after) == Tally(count, before)
    decreases |after|
  {
    if |after| > |before| {
      ReadsTally(count, before, after[..|after| - 1]);
    } else {
      assert after == before;
    }
  }

  lemma ReadsSendNothing(before: seq<Event>, after: seq<Event>)
    requires ReadsOnly(before, after)
    ensures SentIn(after) == SentIn(before)
  {
    SentIs(before);
    SentIs(after);
    ReadsTally(SentBy, before, after);
  }

  /** `d` is what was sent in this stretch. */
  twostate predicate Sends(host: Host, d: Sent)
    reads host
  {
    SentIn(host.trace) == old(SentIn(host.trace)).Plus(d)
  }

  ghost predicate SentSince(trace: seq<Event>, from: nat, e: Event) {
    exists k: nat | from <= k < |trace| :: trace[k] == e
  }

  lemma SentStays(before: seq<Event>, after: seq<Event>, from: nat, e: Event)
    requires before <= after && SentSince(before, from, e)
    ensures SentSince(after, from, e)
  {
    var k: nat :| from <= k < |before| && before[k] == e;
    assert after[k] == e;
  }

  /** Something was signalled twice, TERM first. */
  ghost predicate TermThenKill(trace: seq<Event>, from: nat, term: Event, kill: Event) {
    exists j: nat, k: nat | from <= j < k < |trace| :: trace[j] == term && trace[k] == kill
  }

  lemma TermAndKill(trace: seq<Event>, later: seq<Event>, from: nat, mid: nat, term: Event, kill: Event)
    requires mid <= |trace| && SentSince(trace[..mid], from, term) && trace <= later && SentSince(later, mid, kill)
    ensures TermThenKill(later, from, term, kill)
  {
    var j: nat :| from <= j < mid && trace[..mid][j] == term;
    var k: nat :| mid <= k < |later| && later[k] == kill;
    assert later[j] == term;
  }

  // ----- what a cleanup may signal -----

  /** A cleanup: where its trace begins, the leaders whose groups it may signal,
      and the processes it may signal without having found them in a scan. */
  datatype Scope = Scope(from: nat, leaders: set<Identity>, others: set<Identity>)

  /** A scan of a recorded leader's PID, before position `upto`, returned `id`. */
  ghost predicate Found(trace: seq<Event>, scope: Scope, id: Identity, upto: nat) {
    exists k | scope.from <= k < upto && k < |trace| :: FoundBy(trace[k], scope, id)
  }

  ghost predicate FoundBy(e: Event, scope: Scope, id: Identity) {
    e.Scanned? && id in e.found && exists l | l in scope.leaders :: l.pid == e.pid
  }

  ghost predicate MayTarget(trace: seq<Event>, scope: Scope, id: Identity, upto: nat) {
    id in scope.others || Found(trace, scope, id, upto)
  }

  ghost predicate MayTargetAll(trace: seq<Event>, scope: Scope, ids: seq<Identity>) {
    forall id | id in ids :: MayTarget(trace, scope, id, |trace|)
  }

  /** A signal directly follows a read of the same PID that returned exactly the
      identity it is meant for, and that identity is one the cleanup may signal. */
  ghost predicate Licensed(trace: seq<Event>, scope: Scope, i: nat)
    requires i < |trace|
  {
    match trace[i]
    case GroupSignal(leader, _) =>
      scope.from < i && trace[i - 1] == Read(leader.pid, Some(leader)) && leader in scope.leaders
    case ProcessSignal(id, _) =>
      scope.from < i && trace[i - 1] == Read(id.pid, Some(id)) && MayTarget(trace, scope, id, i)
    case _ => true
  }

  ghost predicate Guarded(trace: seq<Event>, scope: Scope) {
    scope.from <= |trace| && forall i: nat | scope.from <= i < |trace| :: Licensed(trace, scope, i)
  }

  /** The host after a stretch of one cleanup: time moved on, the trace grew,
      and every signal in it is licensed. */
  twostate predicate Progress(host: Host, scope: Scope)
    reads host
  {
    && old(host.now) <= host.now
    && old(host.trace) <= host.trace
    && (old(Guarded(host.trace, scope)) ==> Guarded(host.trace, scope))
  }

  ghost predicate ReadsOnly(before: seq<Event>, after: seq<Event>) {
    before <= after && forall i | |before| <= i < |after| :: after[i].Read?
  }

  /** A smaller cleanup, begun later, inside a larger one. */
  ghost predicate Within(inner: Scope, outer: Scope) {
    outer.from <= inner.from && inner.leaders <= outer.leaders && inner.others <= outer.others
  }

  lemma TargetStays(before: seq<Event>, after: seq<Event>, scope: Scope, ids: seq<Identity>)
    requires before <= after && MayTargetAll(before, scope, ids)
    ensures MayTargetAll(after, scope, ids)
  {
    forall id | id in ids ensures MayTarget(after, scope, id, |after|) {
      TargetLater(before, after, scope, id, |after|);
    }
  }

  lemma TargetWidens(before: seq<Event>, after: seq<Event>, inner: Scope, outer: Scope, id: Identity, upto: nat)
    requires upto <= |before| && before <= after && Within(inner, outer) && MayTarget(before, inner, id, upto)
    ensures MayTarget(after, outer, id, upto)
  {
    if id !in inner.others {
      var k :| inner.from <= k < upto && FoundBy(before[k], inner, id);
      assert FoundBy(after[k], outer, id);
    }
  }

  lemma LicenceWidens(before: seq<Event>, after: seq<Event>, inner: Scope, outer: Scope, i: nat)
    requires i < |before| && before <= after && Within(inner, outer) && Licensed(before, inner, i)
    ensures Licensed(after, outer, i)
  {
    if before[i].ProcessSignal? {
      TargetWidens(before, after, inner, outer, before[i].target, i);
    }
  }

  /** What may be signalled in a smaller cleanup may be in a larger one. */
  lemma GuardedJoin(before: seq<Event>, after: seq<Event>, inner: Scope, outer: Scope)
    requires before <= after && inner.from == |before| && Within(inner, outer)
    requires Guarded(before, outer) && Guarded(after, inner)
    ensures Guarded(after, outer)
  {
    forall i: nat | outer.from <= i < |after| ensures Licensed(after, outer, i) {
      if i < |before| {
        LicenceWidens(before, after, outer, outer, i);
      } else {
        LicenceWidens(after, after, inner, outer, i);
      }
    }
  }

  lemma GuardedWidens(trace: seq<Event>, inner: Scope, outer: Scope)
    requires inner.from == outer.from && Within(inner, outer) && Guarded(trace, inner)
    ensures Guarded(trace, outer)
  {
    forall i: nat | outer.from <= i < |trace| ensures Licensed(trace, outer, i) {
      LicenceWidens(trace, trace, inner, outer, i);
    }
  }

  /** Looking is always allowed. */
  lemma GuardedLook(trace: seq<Event>, scope: Scope, e: Event)
    requires Guarded(trace, scope) && (e.Read? || e.Scanned?)
    ensures Guarded(trace + [e], scope)
  {
    forall i: nat | scope.from <= i < |trace + [e]| ensures Licensed(trace + [e], scope, i) {
      if i < |trace| {
        LicenceWidens(trace, trace + [e], scope, scope, i);
      }
    }
  }

  /** A read and the signal it licenses. */
  lemma GuardedStep(trace: seq<Event>, scope: Scope, id: Identity, signal: Event)
    requires Guarded(trace, scope)
    requires || (signal.ProcessSignal? && signal.target == id && MayTarget(trace, scope, id, |trace|))
             || (signal.GroupSignal? && signal.leader == id && id in scope.leaders)
    ensures Guarded(trace + [Read(id.pid, Some(id)), signal], scope)
  {
    var longer := trace + [Read(id.pid, Some(id)), signal];
    forall i: nat | scope.from <= i < |longer| ensures Licensed(longer, scope, i) {
      if i < |trace| {
        LicenceWidens(trace, longer, scope, scope, i);
      } else if i == |trace| + 1 && signal.ProcessSignal? {
        TargetLater(trace, longer, scope, id, i);
      }
    }
  }

  lemma TargetLater(trace: seq<Event>, longer: seq<Event>, scope: Scope, id: Identity, upto: nat)
    requires trace <= longer && |trace| <= upto && MayTarget(trace, scope, id, |trace|)
    ensures MayTarget(longer, scope, id, upto)
  {
    if id !in scope.others {
      var k :| scope.from <= k < |trace| && FoundBy(trace[k], scope, id);
      assert FoundBy(longer[k], scope, id);
    }
  }

  // ----- the calls a cleanup makes, each keeping its trace guarded -----

  method Holder(host: Host, pid: int, ghost scope: Scope) returns (r: Result<Option<Identity>>)
    modifies host
    ensures Progress(host, scope) && ReadsOnly(old(host.trace), host.trace) && host.now == old(host.now) + 1
    ensures r == if host.fails(old(host.now)) then Err else Ok(host.occupant(old(host.now), pid))
  {
    if Guarded(host.trace, scope) {
      GuardedLook(host.trace, scope, Read(pid, host.occupant(host.now, pid)));
    }
    r := host.CurrentIdentity(pid);
  }

  method Matches(host: Host, id: Identity, ghost scope: Scope) returns (r: Result<bool>)
    modifies host
    ensures Progress(host, scope) && ReadsOnly(old(host.trace), host.trace) && host.now == old(host.now) + 1
    ensures r == if host.fails(old(host.now)) then Err else Ok(host.Alive(id, old(host.now)))
  {
    if Guarded(host.trace, scope) {
      GuardedLook(host.trace, scope, Read(id.pid, host.occupant(host.now, id.pid)));
    }
    r := host.IdentityMatches(id);
  }

  method Discover(host: Host, leader: Identity, ghost scope: Scope) returns (r: Result<seq<Identity>>)
    requires leader in scope.leaders && scope.from <= |host.trace|
    modifies host
    ensures Progress(host, scope) && host.now == old(host.now) + 1 && Sends(host, NOTHING)
    ensures r == if host.fails(old(host.now)) then Err else Ok(host.scanned(old(host.now)))
    ensures host.trace == if r.Ok? then old(host.trace) + [Scanned(leader.pid, r.value)] else old(host.trace)
    ensures r.Ok? ==> MayTargetAll(host.trace, scope, r.value)
  {
    if Guarded(host.trace, scope) {
      GuardedLook(host.trace, scope, Scanned(leader.pid, host.scanned(host.now)));
    }
    ghost var at := |host.trace|;
    SentOne(host.trace, Scanned(leader.pid, host.scanned(host.now)));
    r := host.Scan(leader.pid);
    if r.Ok? {
      forall id | id in r.value ensures MayTarget(host.trace, scope, id, |host.trace|) {
        assert FoundBy(host.trace[at], scope, id);
      }
    }
  }

  function ProcessSent(signal: Signal): Sent {
    if signal == Terminate then Sent(0, 0, 1, 0) else Sent(0, 0, 0, 1)
  }

  function GroupSent(signal: Signal): Sent {
    if signal == Terminate then Sent(1, 0, 0, 0) else Sent(0, 1, 0, 0)
  }

  /** A process is signalled exactly when it is there. */
  method SignalMatching(host: Host, id: Identity, signal: Signal, ghost scope: Scope) returns (r: Result<bool>)
    requires MayTarget(host.trace, scope, id, |host.trace|)
    modifies host
    ensures Progress(host, scope)
    ensures r.Err? <==> FailedIn(host, old(host.now), host.now)
    ensures r.Ok? ==> (r.value <==> host.Alive(id, old(host.now)))
    ensures r.Ok? ==> host.now == old(host.now) + if r.value then 2 else 1
    ensures r.Ok? ==> Sends(host, if r.value then ProcessSent(signal) else NOTHING)
    ensures r == Ok(true) ==> SentSince(host.trace, |old(host.trace)|, ProcessSignal(id, signal))
  {
    ghost var read := Read(id.pid, host.occupant(host.now, id.pid));
    if Guarded(host.trace, scope) {
      GuardedStep(host.trace, scope, id, ProcessSignal(id, signal));
      GuardedLook(host.trace, scope, read);
    }
    SentTwo(host.trace, read, ProcessSignal(id, signal));
    LastIsSent(host.trace, read, ProcessSignal(id, signal));
    ghost var before, at := host.trace, host.now;
    r := host.SignalIfMatching(id, signal);
    if r.Err? {
      assert host.fails(at) || host.fails(at + 1);
      assert host.trace == before || host.trace == before + [Read(id.pid, Some(id)), ProcessSignal(id, signal)];
    } else if r.value {
      assert host.trace == before + [read, ProcessSignal(id, signal)];
    } else {
      assert host.trace == before + [read];
    }
  }

  /** A group is signalled exactly when its leader is seen to be the recorded
      one, right after that was seen. */
  method SignalGroupMatching(host: Host, leader: Identity, signal: Signal, ghost scope: Scope)
    returns (r: Result<bool>)
    requires leader in scope.leaders
    modifies host
    ensures Progress(host, scope)
    ensures r.Err? <==> FailedIn(host, old(host.now), host.now)
    ensures r.Ok? ==> (r.value <==> host.Alive(leader, old(host.now)))
    ensures r.Ok? ==> host.now == old(host.now) + if r.value then 2 else 1
    ensures r.Ok? ==> Sends(host, if r.value then GroupSent(signal) else NOTHING)
    ensures r == Ok(true) ==> SentSince(host.trace, |old(host.trace)|, GroupSignal(leader, signal))
  {
    ghost var read := Read(leader.pid, host.occupant(host.now, leader.pid));
    if Guarded(host.trace, scope) {
      GuardedStep(host.trace, scope, leader, GroupSignal(leader, signal));
      GuardedLook(host.trace, scope, read);
    }
    SentTwo(host.trace, read, GroupSignal(leader, signal));
    LastIsSent(host.trace, read, GroupSignal(leader, signal));
    ghost var before, at := host.trace, host.now;
    var there := host.IdentityMatches(leader);
    if there.Err? {
      assert host.fails(at);
      return Err;
    }
    if !there.value {
      return Ok(false);
    }
    var sent := host.SendGroup(leader, signal);
    assert host.trace == before + [read, GroupSignal(leader, signal)];
    assert sent.Err? ==> host.fails(at + 1);
    return if sent.Ok? then Ok(true) else Err;
  }
}
