/**
 The three operator-side cleanup paths that stand in front of deleting the
 Local runtime directory (src/local/lifecycle.rs), and the tunnel cleanup they
 share (src/local/tunnel.rs).
 */
module RuntimeGate {
  import opened Results
  import opened Processes
  import opened StaleProcesses

  datatype TunnelFile = NoTunnel | BadTunnel | Tunnel(process: Identity)

  datatype StateFile = NoState | BadState | State(runtimeId: string, process: Option<Identity>)

  datatype TunnelCleanup =
    | NoRecordedChild
    | SignaledMatchingChild(pid: int)
    | AlreadyExited(pid: int)
    | IdentityMismatch(pid: int)

  datatype StopOutcome = AlreadyStopped | Graceful | Forced | StaleCleaned

  /** The two records a cleanup goes by, as it loaded them. */
  datatype Records = Records(tunnel: TunnelFile, registry: RegistryFile)

  const NO_RECORDS := Records(NoTunnel, Missing)

  ghost function LeadersOf(file: RegistryFile): set<Identity> {
    if file.Loaded? then Leaders(file.document.processes) else {}
  }

  ghost function ChildOf(file: TunnelFile): set<Identity> {
    if file.Tunnel? then {file.process} else {}
  }

  ghost function RuntimeOf(file: StateFile): set<Identity> {
    if file.State? && file.process.Some? then {file.process.value} else {}
  }

  /** What the records name, apart from the outer runtime itself. */
  ghost function Owned(records: Records): set<Identity> {
    ChildOf(records.tunnel)
    + (if records.registry.Loaded? then Recorded(records.registry.document.processes) else {})
  }

  /** The runtime directory.  The records in it may be rewritten at any time by
      a runtime that still lives, so they are functions of the tick at which
      they are read; the state file is read once, at the start. */
  class RuntimeDir {
    const state: StateFile
    const tunnels: nat -> TunnelFile
    const registries: nat -> RegistryFile
    var present: bool

    constructor (state: StateFile, tunnels: nat -> TunnelFile, registries: nat -> RegistryFile)
      ensures this.state == state && this.tunnels == tunnels && this.registries == registries && present
    {
      this.state, this.tunnels, this.registries, present := state, tunnels, registries, true;
    }

    /** Only processes that have been seen alive are ever recorded. */
    ghost predicate Truthful(host: Host) {
      && (forall t: nat | tunnels(t).Tunnel? :: host.BornBy(tunnels(t).process, t))
      && (forall t: nat | registries(t).Loaded? :: AllBorn(host, registries(t).document.processes, t))
    }

    method ReadTunnel(host: Host) returns (file: TunnelFile)
      modifies host
      ensures file == tunnels(old(host.now)) && host.now == old(host.now) + 1 && host.trace == old(host.trace)
    {
      file := tunnels(host.now);
      host.now := host.now + 1;
    }

    method ReadRegistry(host: Host) returns (file: RegistryFile)
      modifies host
      ensures file == registries(old(host.now)) && host.now == old(host.now) + 1 && host.trace == old(host.trace)
    {
      file := registries(host.now);
      host.now := host.now + 1;
    }

    /** `clear_runtime_state`: on an error the directory itself remains. */
    method Clear(host: Host) returns (r: Result<()>)
      modifies this`present, host
      ensures host.now == old(host.now) + 1 && host.trace == old(host.trace)
      ensures present == (old(present) && r.Err?) && (r.Err? <==> host.fails(old(host.now)) && old(present))
    {
      if host.fails(host.now) && present {
        r := Err;
      } else {
        present := false;
        r := Ok(());
      }
      host.now := host.now + 1;
    }
  }

  /** `records` is what the directory held, each when it was looked at; a registry
      is loaded only after it was seen to exist. */
  ghost predicate LoadedDuring(dir: RuntimeDir, records: Records, from: nat, to: nat) {
    exists t: nat, u: nat | from <= t < u < to ::
      && records == Records(dir.tunnels(t), dir.registries(u))
      && (dir.registries(u).Missing? || !dir.registries(u - 1).Missing?)
  }

  /** A call that can only fail: the lifecycle lock, launchd's bootout, or the
      removal of the tunnel record. */
  method Fallible(host: Host) returns (r: Result<()>)
    modifies host
    ensures host.now == old(host.now) + 1 && host.trace == old(host.trace)
    ensures r.Err? <==> host.fails(old(host.now))
  {
    r := if host.fails(host.now) then Err else Ok(());
    host.now := host.now + 1;
  }

  /** Poll until the process is seen gone or the deadline passes, not longer. */
  method WaitWhileMatching(host: Host, id: Identity, ghost scope: Scope) returns (r: Result<()>)
    modifies host
    ensures Progress(host, scope) && ReadsOnly(old(host.trace), host.trace)
    ensures r.Err? <==> FailedIn(host, old(host.now), host.now)
    ensures r.Ok? ==>
      || (host.now == old(host.now) + host.polls(old(host.now)) && Steadfast(host, id, old(host.now), host.now))
      || (old(host.now) < host.now && Steadfast(host, id, old(host.now), host.now - 1) && !host.Alive(id, host.now - 1))
  {
    ghost var begun := host.now;
    var rounds := host.polls(host.now);
    for k := 0 to rounds
      invariant Progress(host, scope) && ReadsOnly(old(host.trace), host.trace)
      invariant host.now == begun + k && Steadfast(host, id, begun, host.now) && !FailedIn(host, begun, host.now)
    {
      ghost var asked := host.now;
      var there := Matches(host, id, scope);
      if there.Err? {
        assert host.fails(asked);
        return Err;
      }
      if !there.value {
        break;
      }
    }
    return Ok(());
  }

  /** KILL what outlived the first wait, and wait again. */
  method KillAndWaitFor(host: Host, id: Identity, ghost scope: Scope) returns (r: Result<()>)
    requires id in scope.others
    modifies host
    ensures Progress(host, scope)
    ensures r.Err? <==> FailedIn(host, old(host.now), host.now)
    ensures r.Ok? && host.Alive(id, old(host.now)) ==>
      SentSince(host.trace, |old(host.trace)|, ProcessSignal(id, Kill)) && Sends(host, ProcessSent(Kill))
    ensures r.Ok? && !host.Alive(id, old(host.now)) ==> Sends(host, NOTHING)
    ensures r.Ok? ==> old(host.now) < host.now
  {
    ghost var start := host.trace;
    var sent := SignalMatching(host, id, Kill, scope);
    if sent.Err? {
      return Err;
    }
    ghost var killed := host.trace;
    r := WaitWhileMatching(host, id, scope);
    ReadsSendNothing(killed, host.trace);
    if sent.value {
      SentStays(killed, host.trace, |start|, ProcessSignal(id, Kill));
    }
  }

  /** After TERM was sent: wait, KILL, wait, and look once more.  What is there
      throughout is sent KILL, and is not taken for dead. */
  method AwaitDeath(host: Host, id: Identity, ghost born: nat, ghost scope: Scope) returns (r: Result<bool>)
    requires id in scope.others
    requires host.LivesOnce() && host.BornBy(id, born) && born <= host.now
    modifies host
    ensures Progress(host, scope) && old(host.now) < host.now
    ensures r.Err? <==> FailedIn(host, old(host.now), host.now)
    ensures r == Ok(true) ==> host.Gone(id, host.now)
    ensures r == Ok(false) ==> host.Alive(id, host.now - 1)
    ensures r.Ok? && Steadfast(host, id, old(host.now), host.now) ==>
      && r == Ok(false) && SentSince(host.trace, |old(host.trace)|, ProcessSignal(id, Kill))
      && old(host.now) + host.polls(old(host.now)) < host.now
  {
    ghost var start, begun := host.trace, host.now;
    var waited := WaitWhileMatching(host, id, scope);
    if waited.Err? {
      return Err;
    }
    ghost var asked := host.now;
    var there := Matches(host, id, scope);
    if there.Err? {
      assert host.fails(asked);
      return Err;
    }
    ghost var looked, mid := host.now, host.trace;
    if there.value {
      var killed := KillAndWaitFor(host, id, scope);
      if killed.Err? {
        return Err;
      }
    }
    ghost var late, last := host.trace, host.now;
    there := Matches(host, id, scope);
    if there.Err? {
      assert host.fails(last);
      return Err;
    }
    if Steadfast(host, id, begun, host.now) {
      assert host.Alive(id, asked) && host.Alive(id, looked) && host.Alive(id, last);
      SentFrom(late, |start|, |mid|, ProcessSignal(id, Kill));
      SentStays(late, host.trace, |start|, ProcessSignal(id, Kill));
    }
    if there.value {
      return Ok(false);
    }
    host.DeadStaysDead(id, born, last);
    return Ok(true);
  }

  /** What became of the tunnel child in `file`, loaded at tick `t`: signalled if
      it was there, a mismatch if its PID belonged to another, gone otherwise. */
  ghost predicate Decided(host: Host, file: TunnelFile, t: nat, r: TunnelCleanup) {
    match file
    case NoTunnel => r == NoRecordedChild
    case BadTunnel => false
    case Tunnel(id) =>
      r == if host.Alive(id, t + 1) then SignaledMatchingChild(id.pid)
           else if host.occupant(t + 2, id.pid).Some? then IdentityMismatch(id.pid)
           else AlreadyExited(id.pid)
  }

  /** Only a child seen dead, by its own identity, lets the caller go on. */
  method CleanupStaleTunnelChild(host: Host, dir: RuntimeDir, ghost scope: Scope) returns (r: Result<TunnelCleanup>)
    requires host.LivesOnce() && dir.Truthful(host)
    requires ChildOf(dir.tunnels(host.now)) <= scope.others
    modifies host
    ensures Progress(host, scope) && old(host.now) < host.now
    ensures r.Ok? ==> Decided(host, dir.tunnels(old(host.now)), old(host.now), r.value)
    ensures r.Err? ==> var file := dir.tunnels(old(host.now));
      || file.BadTunnel? || FailedIn(host, old(host.now), host.now)
      || (file.Tunnel? && host.Alive(file.process, old(host.now) + 1) && host.Alive(file.process, host.now - 1)
          && old(host.now) + 1 < host.now)
    ensures r.Ok? && dir.tunnels(old(host.now)).Tunnel? ==> old(host.now) + 2 < host.now
    ensures r.Ok? && r.value.SignaledMatchingChild? ==>
      SentSince(host.trace, |old(host.trace)|, ProcessSignal(dir.tunnels(old(host.now)).process, Terminate))
    ensures r.Ok? && !r.value.IdentityMismatch? ==>
              forall id | id in ChildOf(dir.tunnels(old(host.now))) :: host.Gone(id, host.now)
  {
    ghost var read, start := host.now, host.trace;
    var file := dir.ReadTunnel(host);
    if file.BadTunnel? {
      return Err;
    }
    if file.NoTunnel? {
      return Ok(NoRecordedChild);
    }
    var id := file.process;
    assert host.BornBy(id, read);
    ghost var asked := host.now;
    var matched := SignalMatching(host, id, Terminate, scope);
    if matched.Err? {
      return Err;
    }
    if matched.value {
      ghost var sent := host.trace;
      r := TunnelChildDies(host, id, read, scope);
      SentStays(sent, host.trace, |start|, ProcessSignal(id, Terminate));
      return;
    }
    host.DeadStaysDead(id, read, asked);
    ghost var looked := host.now;
    var current := Holder(host, id.pid, scope);
    if current.Err? {
      assert host.fails(looked);
      return Err;
    }
    if current.value.Some? {
      return Ok(IdentityMismatch(id.pid));
    }
    var _ := Fallible(host);
    return Ok(AlreadyExited(id.pid));
  }

  method TunnelChildDies(host: Host, id: Identity, ghost born: nat, ghost scope: Scope) returns (r: Result<TunnelCleanup>)
    requires id in scope.others
    requires host.LivesOnce() && host.BornBy(id, born) && born <= host.now
    modifies host
    ensures Progress(host, scope) && old(host.now) < host.now
    ensures r.Ok? ==> r.value == SignaledMatchingChild(id.pid) && host.Gone(id, host.now)
    ensures r.Err? ==> FailedIn(host, old(host.now), host.now) || host.Alive(id, host.now - 1)
  {
    var dead := AwaitDeath(host, id, born, scope);
    if dead.Err? || !dead.value {
      return Err;
    }
    ghost var t := host.now;
    var removed := Fallible(host);
    if removed.Err? {
      assert host.fails(t);
      return Err;
    }
    return Ok(SignaledMatchingChild(id.pid));
  }

  /** Nothing is left: no call fails, the records can be read and are this
      runtime's own, and nobody holds a PID they name. */
  ghost predicate Quiet(host: Host, dir: RuntimeDir, from: nat, to: nat) {
    && (forall t: nat | from <= t < to :: !host.fails(t))
    && (forall t: nat | from <= t < to :: QuietRecords(host, dir, t, from, to))
    && (forall id, t: nat | id in RuntimeOf(dir.state) && from <= t < to :: host.occupant(t, id.pid).None?)
  }

  ghost predicate QuietRecords(host: Host, dir: RuntimeDir, t: nat, from: nat, to: nat) {
    && !dir.tunnels(t).BadTunnel? && !dir.registries(t).Unreadable? && !Foreign(dir.registries(t), Expected(dir.state))
    && (forall id, u: nat | id in ChildOf(dir.tunnels(t)) && from <= u < to :: host.occupant(u, id.pid).None?)
    && (dir.registries(t).Loaded? ==> AllGone(host, dir.registries(t).document.processes, from, to))
  }

  function Expected(state: StateFile): Option<string> {
    if state.State? then Some(state.runtimeId) else None
  }

  lemma QuietParts(host: Host, dir: RuntimeDir, from: nat, a: nat, b: nat, to: nat)
    requires from <= a <= b <= to && Quiet(host, dir, from, to)
    ensures Quiet(host, dir, a, b)
  {
    forall t: nat | a <= t < b ensures QuietRecords(host, dir, t, a, b) {
      assert QuietRecords(host, dir, t, from, to);
    }
  }

  /** The cleanup of a path: its signals concern the runtime and what the loaded
      records name. */
  ghost function PathScope(from: nat, runtime: set<Identity>, records: Records): Scope {
    Scope(from, LeadersOf(records.registry), runtime + Owned(records))
  }

  /** The report of records that name nothing that is left. */
  ghost predicate NothingLeft(records: Records, tunnel: TunnelCleanup, report: Report) {
    && (tunnel.NoRecordedChild? <==> records.tunnel.NoTunnel?) && !tunnel.SignaledMatchingChild?
    && !records.tunnel.BadTunnel?
    && report == EMPTY_REPORT.(alreadyGone :=
         if records.registry.Loaded? then |records.registry.document.processes| else 0)
  }

  /** The two checks all three paths make before they delete.  The registry is
      looked at twice, first for its existence. */
  method ResolveOwned(host: Host, dir: RuntimeDir, ghost from: nat, ghost runtime: set<Identity>)
    returns (r: Result<(TunnelCleanup, Report)>, ghost loaded: Records)
    requires host.LivesOnce() && dir.Truthful(host)
    requires Guarded(host.trace, PathScope(from, runtime, NO_RECORDS))
    modifies host
    ensures old(host.now) <= host.now && old(host.trace) <= host.trace
    ensures Guarded(host.trace, PathScope(from, runtime, loaded))
    ensures r.Ok? ==> LoadedDuring(dir, loaded, old(host.now), host.now)
    ensures r.Ok? ==> forall id | id in Owned(loaded) :: host.Gone(id, host.now)
    ensures Quiet(host, dir, old(host.now), host.now) ==> r.Ok? && NothingLeft(loaded, r.value.0, r.value.1)
  {
    ghost var read := host.now;
    loaded := Records(dir.tunnels(read), Missing);
    ghost var scope := PathScope(from, runtime, loaded);
    GuardedWidens(host.trace, PathScope(from, runtime, NO_RECORDS), scope);
    var tunnel := CleanupStaleTunnelChild(host, dir, scope);
    if Quiet(host, dir, read, host.now) {
      QuietTunnel(host, dir, read, tunnel, host.now);
    }
    ghost var t1 := host.now;
    if tunnel.Err? || tunnel.value.IdentityMismatch? {
      return Err, loaded;
    }
    ghost var looked := host.now;
    var there := dir.ReadRegistry(host);
    if there.Missing? {
      assert loaded == Records(dir.tunnels(read), dir.registries(looked));
      if Quiet(host, dir, read, host.now) {
        QuietParts(host, dir, read, read, t1, host.now);
      }
      return Ok((tunnel.value, EMPTY_REPORT)), loaded;
    }
    looked := host.now;
    var report, file := ResolveRegistry(host, dir, scope);
    loaded := Records(dir.tunnels(read), file);
    assert file == dir.registries(looked);
    ScopeGrows(from, runtime, loaded);
    if Quiet(host, dir, read, host.now) {
      QuietParts(host, dir, read, read, t1, host.now);
      QuietParts(host, dir, read, looked, host.now, host.now);
    }
    if report.Err? || !report.value.Resolved() {
      return Err, loaded;
    }
    return Ok((tunnel.value, report.value)), loaded;
  }

  lemma QuietTunnel(host: Host, dir: RuntimeDir, t: nat, r: Result<TunnelCleanup>, now: nat)
    requires t < now && Quiet(host, dir, t, now)
    requires r.Ok? ==> Decided(host, dir.tunnels(t), t, r.value)
    requires r.Ok? && dir.tunnels(t).Tunnel? ==> t + 2 < now
    requires r.Err? ==> var file := dir.tunnels(t);
      || file.BadTunnel? || FailedIn(host, t, now)
      || (file.Tunnel? && host.Alive(file.process, t + 1) && t + 1 < now)
    ensures r.Ok? && !r.value.IdentityMismatch? && !r.value.SignaledMatchingChild?
    ensures r.value.NoRecordedChild? <==> dir.tunnels(t).NoTunnel?
  {
    assert QuietRecords(host, dir, t, t, now);
  }

  lemma ScopeGrows(from: nat, runtime: set<Identity>, records: Records)
    ensures var before := PathScope(from, runtime, Records(records.tunnel, Missing));
            PathScope(from, runtime, records) ==
              if records.registry.Loaded? then
                Scope(from, before.leaders + LeadersOf(records.registry),
                      before.others + Recorded(records.registry.document.processes))
              else before
  {
    if records.registry.Loaded? {
      var before := PathScope(from, runtime, Records(records.tunnel, Missing));
      assert PathScope(from, runtime, records).others
          == before.others + Recorded(records.registry.document.processes);
      assert before.leaders + LeadersOf(records.registry) == LeadersOf(records.registry);
    }
  }

  /** The registry, loaded and cleaned up, inside a cleanup that has gone on. */
  method ResolveRegistry(host: Host, dir: RuntimeDir, ghost scope: Scope)
    returns (r: Result<Report>, file: RegistryFile)
    requires host.LivesOnce() && dir.Truthful(host) && Guarded(host.trace, scope)
    modifies host
    ensures old(host.now) < host.now && file == dir.registries(old(host.now))
    ensures file.Loaded? ==>
      Guarded(host.trace, Scope(scope.from, scope.leaders + LeadersOf(file),
                                scope.others + Recorded(file.document.processes)))
    ensures !file.Loaded? ==> Guarded(host.trace, scope)
    ensures old(host.trace) <= host.trace
    ensures file.Loaded? && r.Ok? && r.value.Resolved() ==>
      forall id | id in Recorded(file.document.processes) :: host.Gone(id, host.now)
    ensures r.Err? ==>
      file.Unreadable? || Foreign(file, Expected(dir.state)) || FailedIn(host, old(host.now), host.now)
    ensures Quiet(host, dir, old(host.now), host.now) ==> r == Ok(EMPTY_REPORT.(alreadyGone :=
      if file.Loaded? then |file.document.processes| else 0))
  {
    ghost var read := host.now;
    file := dir.ReadRegistry(host);
    var expected := Expected(dir.state);
    ghost var before := host.trace;
    if file.Loaded? {
      assert AllBorn(host, file.document.processes, read);
      StillBorn(host, Recorded(file.document.processes), read, host.now);
    }
    r := TerminateMatchingStaleProcesses(host, file, expected);
    if file.Loaded? {
      ghost var processes := file.document.processes;
      ghost var wide := Scope(scope.from, scope.leaders + LeadersOf(file), scope.others + Recorded(processes));
      GuardedWidens(before, scope, wide);
      GuardedJoin(before, host.trace, CleanupOf(processes, |before|), wide);
    }
    if Quiet(host, dir, read, host.now) {
      assert QuietRecords(host, dir, read, read, host.now);
      if file.Loaded? {
        assert AllGone(host, file.document.processes, read + 1, host.now);
      }
    }
  }

  /** The second look of round `j` found the runtime. */
  ghost predicate LookedAt(host: Host, id: Identity, t: nat, j: nat) {
    host.Alive(id, t + 2 * j + 1)
  }

  /** The stop path's own poll: the PID is read, and on an answer read again.  It
      ends when the runtime is seen gone, or when the deadline has passed. */
  method WaitForRuntime(host: Host, id: Identity, ghost scope: Scope) returns (r: Result<()>)
    modifies host
    ensures Progress(host, scope) && ReadsOnly(old(host.trace), host.trace)
    ensures r.Err? <==> FailedIn(host, old(host.now), host.now)
    ensures r.Ok? ==>
      || (host.now == old(host.now) + 2 * host.polls(old(host.now))
          && forall j: nat | j < host.polls(old(host.now)) :: LookedAt(host, id, old(host.now), j))
      || (old(host.now) < host.now <= old(host.now) + 2 * host.polls(old(host.now)) && !host.Alive(id, host.now - 1))
  {
    ghost var begun := host.now;
    var rounds := host.polls(host.now);
    for k := 0 to rounds
      invariant Progress(host, scope) && ReadsOnly(old(host.trace), host.trace)
      invariant host.now == begun + 2 * k && !FailedIn(host, begun, host.now)
      invariant forall j: nat | j < k :: LookedAt(host, id, begun, j)
    {
      ghost var asked := host.now;
      var current := Holder(host, id.pid, scope);
      if current.Err? {
        assert host.fails(asked);
        return Err;
      }
      if current.value.None? {
        break;
      }
      var there := Matches(host, id, scope);
      if there.Err? {
        assert host.fails(asked + 1);
        return Err;
      }
      if !there.value {
        break;
      }
    }
    return Ok(());
  }

  /** Stop the outer runtime.  It is signalled by identity only, and a reused
      PID stops the whole path.  TERM is sent if it is there; the outcome tells
      whether it was gone after the wait, and if it was not, KILL follows. */
  method StopRuntime(host: Host, id: Identity, ghost scope: Scope) returns (r: Result<StopOutcome>)
    requires id in scope.others
    modifies host
    ensures Progress(host, scope)
    ensures r.Err? ==>
      || FailedIn(host, old(host.now), host.now)
      || (!host.Alive(id, old(host.now)) && host.occupant(old(host.now) + 1, id.pid).Some? && old(host.now) + 1 < host.now)
    ensures !host.Alive(id, old(host.now)) && host.occupant(old(host.now) + 1, id.pid).Some? ==> r.Err?
    ensures r.Ok? ==> old(host.now) + 1 < host.now && r.value != StaleCleaned
    ensures r.Ok? ==> (r.value == AlreadyStopped <==> !host.Alive(id, old(host.now)))
    ensures r == Ok(AlreadyStopped) ==> Sends(host, NOTHING)
    ensures r == Ok(Graceful) ==> Sends(host, ProcessSent(Terminate)) && !host.Alive(id, host.now - 1)
    ensures r == Ok(Forced) ==> host.Alive(id, host.now - 2)
    ensures r == Ok(Forced) ==>
      Sends(host, ProcessSent(Terminate)) || Sends(host, Sent(0, 0, 1, 1))
    ensures r.Ok? && Steadfast(host, id, old(host.now), host.now) ==>
      r == Ok(Forced) && TermThenKill(host.trace, |old(host.trace)|, ProcessSignal(id, Terminate), ProcessSignal(id, Kill))
  {
    ghost var start, begun := host.trace, host.now;
    var matched := SignalMatching(host, id, Terminate, scope);
    if matched.Err? {
      return Err;
    }
    if matched.value {
      ghost var sent, t := host.trace, host.now;
      r := StopSignaled(host, id, scope, start);
      if r.Ok? {
        if Steadfast(host, id, begun, host.now) {
          StaysThrough(host, id, begun, t, host.now, start, sent, host.trace);
        }
      }
      return;
    }
    ghost var unsent := host.trace;
    var current := Holder(host, id.pid, scope);
    if current.Err? {
      assert host.fails(begun + 1);
      return Err;
    }
    ReadsSendNothing(unsent, host.trace);
    return if current.value.Some? then Err else Ok(AlreadyStopped);
  }

  lemma StaysThrough(host: Host, id: Identity, begun: nat, t: nat, now: nat, start: seq<Event>, sent: seq<Event>, trace: seq<Event>)
    requires begun <= t <= now && start <= sent <= trace && Steadfast(host, id, begun, now)
    requires SentSince(sent, |start|, ProcessSignal(id, Terminate))
    requires Steadfast(host, id, t, now) ==> SentSince(trace, |sent|, ProcessSignal(id, Kill))
    ensures Steadfast(host, id, t, now)
    ensures TermThenKill(trace, |start|, ProcessSignal(id, Terminate), ProcessSignal(id, Kill))
  {
    assert sent[..|sent|] == sent;
    TermAndKill(sent, trace, |start|, |sent|, ProcessSignal(id, Terminate), ProcessSignal(id, Kill));
  }

  method StopSignaled(host: Host, id: Identity, ghost scope: Scope, ghost start: seq<Event>)
    returns (r: Result<StopOutcome>)
    requires id in scope.others
    requires SentIn(host.trace) == SentIn(start).Plus(ProcessSent(Terminate))
    modifies host
    ensures Progress(host, scope) && old(host.now) <= host.now
    ensures r.Err? <==> FailedIn(host, old(host.now), host.now)
    ensures r.Ok? ==> old(host.now) < host.now && (r.value == Graceful || r.value == Forced)
    ensures r == Ok(Graceful) ==>
      SentIn(host.trace) == SentIn(start).Plus(ProcessSent(Terminate)) && !host.Alive(id, host.now - 1)
    ensures r == Ok(Forced) ==> old(host.now) + 2 <= host.now && host.Alive(id, host.now - 2)
    ensures r == Ok(Forced) ==>
      SentIn(host.trace) == SentIn(start).Plus(ProcessSent(Terminate)) || SentIn(host.trace) == SentIn(start).Plus(Sent(0, 0, 1, 1))
    ensures r.Ok? && Steadfast(host, id, old(host.now), host.now) ==>
      && r == Ok(Forced) && SentSince(host.trace, |old(host.trace)|, ProcessSignal(id, Kill))
      && old(host.now) + 2 * host.polls(old(host.now)) < host.now
  {
    ghost var sent := host.trace;
    var waited := WaitForRuntime(host, id, scope);
    if waited.Err? {
      return Err;
    }
    ghost var asked := host.now;
    var there := Matches(host, id, scope);
    if there.Err? {
      assert host.fails(asked);
      return Err;
    }
    ghost var looked, mid := host.now, host.trace;
    ReadsSendNothing(sent, mid);
    if !there.value {
      return Ok(Graceful);
    }
    var killed := SignalMatching(host, id, Kill, scope);
    if killed.Err? {
      return Err;
    }
    if killed.value {
      SentFrom(host.trace, |sent|, |mid|, ProcessSignal(id, Kill));
    } else {
      assert !host.Alive(id, looked);
    }
    BothAdd(SentIn(start));
    PlusNothing(SentIn(mid), NOTHING);
    return Ok(Forced);
  }

  lemma BothAdd(a: Sent)
    ensures a.Plus(Sent(0, 0, 1, 0)).Plus(Sent(0, 0, 0, 1)) == a.Plus(Sent(0, 0, 1, 1))
  {
  }

  lemma NothingYet(trace: seq<Event>, runtime: set<Identity>)
    ensures Guarded(trace, PathScope(|trace|, runtime, NO_RECORDS))
  {
  }

  /** Deleting the runtime directory means that everything named by the records
      loaded on the way is dead; every other way out leaves the directory
      standing.  If nothing is left the path does go through, and the outcome
      tells what was there. */
  method StopViaLaunchd(host: Host, dir: RuntimeDir) returns (r: Result<StopOutcome>, ghost loaded: Records)
    requires host.LivesOnce() && dir.Truthful(host)
    modifies host, dir
    ensures dir.state.BadState? ==> r.Err?
    ensures dir.present == (old(dir.present) && r.Err?)
    ensures r.Ok? ==> LoadedDuring(dir, loaded, old(host.now), host.now)
    ensures r.Ok? ==> forall id | id in Owned(loaded) :: host.Gone(id, host.now)
    ensures r.Ok? ==> (r.value == Graceful || r.value == Forced <==> RuntimeThere(host, dir, old(host.now) + 1))
    ensures Quiet(host, dir, old(host.now), host.now) && !dir.state.BadState? ==>
      r == Ok(if loaded.tunnel.Tunnel? || (loaded.registry.Loaded? && loaded.registry.document.processes != [])
              then StaleCleaned else AlreadyStopped)
    ensures Guarded(host.trace, PathScope(|old(host.trace)|, RuntimeOf(dir.state), loaded))
  {
    ghost var from, runtime, begun := |host.trace|, RuntimeOf(dir.state), host.now;
    loaded := NO_RECORDS;
    NothingYet(host.trace, runtime);
    var _ :- Fallible(host);
    if dir.state.BadState? {
      return Err, loaded;
    }
    var stopped := StopRecorded(host, dir, from);
    ghost var t := host.now;
    if stopped.Err? {
      QuietUpTo(host, dir, begun, begun + 1, host.now);
      return Err, loaded;
    }
    var resolved;
    resolved, loaded := ResolveOwned(host, dir, from, runtime);
    ghost var u := host.now;
    if resolved.Err? {
      QuietUpTo(host, dir, begun, t, u);
      return Err, loaded;
    }
    var tunnel, report := resolved.value.0, resolved.value.1;
    var outcome := stopped.value;
    if outcome == AlreadyStopped
       && (!tunnel.NoRecordedChild? || report.signaled > 0 || report.forceKilled > 0
           || report.descendantsSignaled > 0 || report.alreadyGone > 0)
    {
      outcome := StaleCleaned;
    }
    r := RemoveDirectory(host, dir, outcome);
    if Quiet(host, dir, begun, host.now) {
      QuietParts(host, dir, begun, begun + 1, t, host.now);
      QuietParts(host, dir, begun, t, u, host.now);
      QuietParts(host, dir, begun, u, host.now, host.now);
    }
  }

  lemma QuietUpTo(host: Host, dir: RuntimeDir, from: nat, a: nat, to: nat)
    requires from <= a <= to
    ensures Quiet(host, dir, from, to) ==> Quiet(host, dir, a, to)
  {
    if Quiet(host, dir, from, to) {
      QuietParts(host, dir, from, a, to, to);
    }
  }

  /** The recorded runtime, if any, is there at tick `t`. */
  ghost predicate RuntimeThere(host: Host, dir: RuntimeDir, t: nat) {
    exists id | id in RuntimeOf(dir.state) :: host.Alive(id, t)
  }

  method StopRecorded(host: Host, dir: RuntimeDir, ghost from: nat) returns (r: Result<StopOutcome>)
    requires Guarded(host.trace, PathScope(from, RuntimeOf(dir.state), NO_RECORDS))
    modifies host
    ensures Progress(host, PathScope(from, RuntimeOf(dir.state), NO_RECORDS))
    ensures r.Ok? ==> (r.value == Graceful || r.value == Forced <==> RuntimeThere(host, dir, old(host.now)))
    ensures r.Ok? ==> r.value != StaleCleaned
    ensures Quiet(host, dir, old(host.now), host.now) ==> r == Ok(AlreadyStopped)
  {
    if dir.state.State? && dir.state.process.Some? {
      ghost var id, begun := dir.state.process.value, host.now;
      assert id in RuntimeOf(dir.state);
      r := StopRuntime(host, dir.state.process.value, PathScope(from, RuntimeOf(dir.state), NO_RECORDS));
      if Quiet(host, dir, begun, host.now) {
        RuntimeIsAbsent(host, dir, id, begun, host.now);
      }
    } else {
      r := Ok(AlreadyStopped);
    }
  }

  lemma RuntimeIsAbsent(host: Host, dir: RuntimeDir, id: Identity, from: nat, to: nat)
    requires id in RuntimeOf(dir.state) && Quiet(host, dir, from, to)
    ensures forall t: nat | from <= t < to :: host.occupant(t, id.pid).None?
  {
  }

  /** `bootout`, and the deletion. */
  method RemoveDirectory(host: Host, dir: RuntimeDir, outcome: StopOutcome) returns (r: Result<StopOutcome>)
    modifies host, dir
    ensures dir.present == (old(dir.present) && r.Err?)
    ensures old(host.now) < host.now && host.trace == old(host.trace)
    ensures r.Ok? ==> r.value == outcome
    ensures r.Err? ==> FailedIn(host, old(host.now), host.now)
  {
    ghost var t := host.now;
    var booted := Fallible(host);
    if booted.Err? {
      assert host.fails(t);
      return Err;
    }
    var cleared := dir.Clear(host);
    assert cleared.Err? ==> host.fails(t + 1);
    return if cleared.Ok? then Ok(outcome) else Err;
  }

  /** Before a new runtime is published: nothing is deleted while the recorded
      runtime itself still runs. */
  method CleanupStaleRuntime(host: Host, dir: RuntimeDir) returns (r: Result<()>, ghost loaded: Records)
    requires host.LivesOnce() && dir.Truthful(host)
    requires forall id | id in RuntimeOf(dir.state) :: host.BornBy(id, host.now)
    modifies host, dir
    ensures dir.state.BadState? ==> r.Err?
    ensures dir.present == (old(dir.present) && r.Err?)
    ensures r.Ok? ==> LoadedDuring(dir, loaded, old(host.now), host.now)
    ensures r.Ok? ==> forall id | id in Owned(loaded) + RuntimeOf(dir.state) :: host.Gone(id, host.now)
    ensures Quiet(host, dir, old(host.now), host.now) && !dir.state.BadState? ==> r.Ok?
    ensures Guarded(host.trace, PathScope(|old(host.trace)|, RuntimeOf(dir.state), loaded))
  {
    ghost var from, runtime, born := |host.trace|, RuntimeOf(dir.state), host.now;
    loaded := NO_RECORDS;
    NothingYet(host.trace, runtime);
    if dir.state.BadState? {
      return Err, loaded;
    }
    if dir.state.State? && dir.state.process.Some? {
      assert dir.state.process.value in runtime;
      var running :- Matches(host, dir.state.process.value, PathScope(from, runtime, NO_RECORDS));
      if running {
        return Err, loaded;
      }
      host.DeadStaysDead(dir.state.process.value, born, born);
    }
    ghost var t := host.now;
    var resolved;
    resolved, loaded := ResolveOwned(host, dir, from, runtime);
    ghost var u := host.now;
    if resolved.Err? {
      QuietUpTo(host, dir, born, t, u);
      return Err, loaded;
    }
    var removed := RemoveDirectory(host, dir, AlreadyStopped);
    if removed.Err? {
      QuietUpTo(host, dir, born, u, host.now);
      return Err, loaded;
    }
    return Ok(()), loaded;
  }

  /** The runtime was only just told to stop, and may go on writing records. */
  method CleanupPartialStart(host: Host, dir: RuntimeDir) returns (r: Result<()>, ghost loaded: Records)
    requires host.LivesOnce() && dir.Truthful(host)
    modifies host, dir
    ensures dir.state.BadState? ==> r.Err?
    ensures dir.present == (old(dir.present) && r.Err?)
    ensures r.Ok? ==> LoadedDuring(dir, loaded, old(host.now), host.now)
    ensures r.Ok? ==> forall id | id in Owned(loaded) :: host.Gone(id, host.now)
    ensures r.Ok? ==> forall id | id in RuntimeOf(dir.state) :: ToldOrGone(host, id, old(host.now), |old(host.trace)|)
    ensures Quiet(host, dir, old(host.now), host.now) && !dir.state.BadState? ==> r.Ok?
    ensures Guarded(host.trace, PathScope(|old(host.trace)|, RuntimeOf(dir.state), loaded))
  {
    ghost var start, runtime, begun := host.trace, RuntimeOf(dir.state), host.now;
    loaded := NO_RECORDS;
    NothingYet(host.trace, runtime);
    if dir.state.BadState? {
      return Err, loaded;
    }
    var told := TellRecorded(host, dir, |start|);
    ghost var sent, t := host.trace, host.now;
    if told.Err? {
      return Err, loaded;
    }
    var _ :- Fallible(host);
    var resolved;
    resolved, loaded := ResolveOwned(host, dir, |start|, runtime);
    ghost var u := host.now;
    if resolved.Err? {
      QuietUpTo(host, dir, begun, t + 1, u);
      return Err, loaded;
    }
    var cleared := dir.Clear(host);
    if cleared.Err? {
      assert host.fails(u);
      return Err, loaded;
    }
    forall id | id in runtime ensures ToldOrGone(host, id, begun, |start|) {
      if host.Alive(id, begun) {
        SentStays(sent, host.trace, |start|, ProcessSignal(id, Terminate));
      }
    }
    return Ok(()), loaded;
  }

  /** What was there at `t` has been sent TERM since; of what was not, nobody
      held the PID right after. */
  ghost predicate ToldOrGone(host: Host, id: Identity, t: nat, from: nat)
    reads host
  {
    if host.Alive(id, t) then SentSince(host.trace, from, ProcessSignal(id, Terminate))
    else host.occupant(t + 1, id.pid).None?
  }

  /** Tell the recorded runtime to stop, without waiting for it. */
  method TellRecorded(host: Host, dir: RuntimeDir, ghost from: nat) returns (r: Result<()>)
    requires Guarded(host.trace, PathScope(from, RuntimeOf(dir.state), NO_RECORDS))
    modifies host
    ensures Progress(host, PathScope(from, RuntimeOf(dir.state), NO_RECORDS))
    ensures r.Ok? ==> forall id | id in RuntimeOf(dir.state) :: ToldOrGone(host, id, old(host.now), |old(host.trace)|)
    ensures Quiet(host, dir, old(host.now), host.now) ==> r.Ok?
  {
    if dir.state.State? && dir.state.process.Some? {
      var id := dir.state.process.value;
      ghost var begun := host.now;
      assert id in RuntimeOf(dir.state);
      var signaled :- SignalMatching(host, id, Terminate, PathScope(from, RuntimeOf(dir.state), NO_RECORDS));
      if !signaled {
        var current :- Holder(host, id.pid, PathScope(from, RuntimeOf(dir.state), NO_RECORDS));
        if current.Some? {
          if Quiet(host, dir, begun, host.now) {
            RuntimeIsAbsent(host, dir, id, begun, host.now);
          }
          return Err;
        }
      }
    }
    return Ok(());
  }

  lemma StillBorn(host: Host, ids: set<Identity>, born: nat, t: nat)
    requires born <= t && forall id | id in ids :: host.BornBy(id, born)
    ensures forall id | id in ids :: host.BornBy(id, t)
  {
    forall id | id in ids ensures host.BornBy(id, t) {
      assert host.BornBy(id, born);
    }
  }

  /** If the records do not change after they were loaded, everything the
      directory named when it was deleted is dead. */
  lemma StableRecordsAreDead(host: Host, dir: RuntimeDir, loaded: Records, from: nat, to: nat)
    requires LoadedDuring(dir, loaded, from, to)
    requires forall id | id in Owned(loaded) :: host.Gone(id, to)
    requires forall t: nat, u: nat | from <= t <= u <= to ::
      ChildOf(dir.tunnels(u)) <= ChildOf(dir.tunnels(t)) && dir.registries(u) == dir.registries(t)
    ensures forall id | id in Owned(Records(dir.tunnels(to), dir.registries(to))) :: host.Gone(id, to)
  {
    var t: nat, u: nat :| from <= t < u < to && loaded == Records(dir.tunnels(t), dir.registries(u));
    assert ChildOf(dir.tunnels(to)) <= ChildOf(dir.tunnels(t));
    assert dir.registries(to) == dir.registries(u);
  }
}
