/**
 The session manager as a protocol of interleaved steps
 (src/session/mod.rs, src/session/lifecycle.rs, src/session/shutdown.rs,
 src/service.rs).

 Any number of exec and write calls, one reaper for every admitted session and
 any number of shutdowns run side by side.  One action is one stretch that a
 thread runs under a lock or as one atomic access; everything the operating
 system decides is a parameter of the action.
 */
module Sessions {
  import opened Results

  type Tid = nat
  type Sid = nat
  type Handle = string

  // ----- one session -----

  datatype Reason = Timeout | Killed | Exit

  /** `members` counts the group members still to be waited for. */
  datatype Session = Session(
    reaped: bool, members: nat, lastUsed: int, timedOut: bool, killRequested: bool,
    forceKilled: bool, mustExit: bool, terminating: bool, owned: bool, released: bool, ends: nat)
  {
    /** Leader reaped and no group member left: `owned_process_end` is Some. */
    predicate Settled() { reaped && members == 0 }

    function TerminationReason(): Reason {
      if timedOut then Timeout else if killRequested || forceKilled then Killed else Exit
    }

    function Mark(): Session {
      this.(killRequested := true, mustExit := true, terminating := true)
    }

    /** `release_process_ownership`: the swap lets one caller through. */
    function Release(): Session {
      this.(released := true, ends := if !released && owned then ends + 1 else ends)
    }

    /** `reap_and_record_exit`.  Before the leader is reaped a scan replaces the
        members; afterwards members only leave.  (An error that loses the whole
        list is the case `r.members == 0`.) */
    function Reap(r: ReapResult): Session {
      this.(members := if !reaped || r.members < members then r.members else members,
            reaped := reaped || r.exited)
    }
  }

  /** What the operating system, and the registry, answer to one reap. */
  datatype ReapResult = ReapResult(ok: bool, members: nat, exited: bool)

  /** What a session keeps, whatever is done to it. */
  ghost predicate Advances(s: Session, s': Session) {
    && (s.Settled() ==> s'.Settled())
    && (s.reaped ==> s'.reaped)
    && (s.timedOut ==> s'.timedOut)
    && (s.killRequested ==> s'.killRequested)
    && (s.forceKilled ==> s'.forceKilled)
    && (s.mustExit ==> s'.mustExit)
    && (s.terminating ==> s'.terminating)
    && s'.owned == s.owned
    && (s.released ==> s'.released && s'.ends == s.ends)
  }

  // ----- one wait iteration -----

  /** The clock and the operating system during one iteration. */
  datatype PollInput = PollInput(now: int, idle: bool, elapsed: bool, graceOver: bool, reap: ReapResult,
                                 killFails: bool)

  datatype PollOutcome = Continue | Running | Exited(reason: Reason) | Failed

  /** The idle deadline: the first poll past it condemns the session. */
  function Expire(s: Session, idle: bool): Session {
    var now := idle && !s.timedOut;
    s.(timedOut := s.timedOut || now, mustExit := s.mustExit || now, terminating := s.terminating || now)
  }

  /** `maybe_force_kill`. */
  function Force(s: Session, graceOver: bool): Session {
    s.(forceKilled := s.forceKilled || (s.terminating && graceOver))
  }

  function Outcome(s: Session, elapsed: bool): PollOutcome {
    if s.reaped then
      if s.mustExit && s.members > 0 then Continue else Exited(s.TerminationReason())
    else if elapsed && !s.mustExit then Running
    else Continue
  }

  /** `wait_for_yield_or_exit_locked`, the part under the inner lock. */
  function PollSession(s: Session, p: PollInput): (Session, PollOutcome) {
    var reaped := Expire(s.(lastUsed := p.now), p.idle).Reap(p.reap);
    if !p.reap.ok then (reaped, Failed)
    else
      var forced := Force(reaped, p.graceOver);
      (forced, if forced.forceKilled && !reaped.forceKilled && p.killFails then Failed else Outcome(forced, p.elapsed))
  }

  // ----- program counters -----

  datatype Request = ExecRequest | WriteRequest(handle: Handle, kill: bool)

  datatype Probe = Probe(handle: Handle, sid: Sid, used: int, exited: bool)

  /** What follows `remove_session`: another eviction round, or nothing.  `left`
      is bookkeeping that no step depends on: the source's loop has no counter. */
  datatype After = Evicting(left: nat) | Leaving

  /** Where a thread is, with its locals.  An eviction probes the sessions in
      `order`, and is at the one after the last probe. */
  datatype Pc =
    | Done
    | ServiceCheck(request: Request) | ServiceLock(request: Request) | ServiceRecheck(request: Request)
    | ExecCheck | ExecLock | ExecRecheck
    | EvictCount(left: nat) | EvictCollect(left: nat)
    | EvictProbe(left: nat, order: seq<(Handle, Sid)>, probes: seq<Probe>, best: Option<Probe>)
    | EvictExit(left: nat, order: seq<(Handle, Sid)>, probes: seq<Probe>, best: Option<Probe>, used: int)
    | RemoveLookup(handle: Handle, after: After)
    | RemoveEnd(handle: Handle, sid: Sid, after: After)
    | RemoveTable(handle: Handle, sid: Sid, after: After)
    | RemoveRelease(sid: Sid, after: After)
    | ExecInsert | ExecUnlock(handle: Handle, sid: Sid)
    | WriteFind(handle: Handle, kill: bool) | WriteMark(handle: Handle, sid: Sid, kill: bool)
    | Waiting(handle: Handle, sid: Sid) | CheckExit(handle: Handle, sid: Sid)
    | Reaping(sid: Sid) | ReaperRelease(sid: Sid)
    | ShutService | ShutServiceLock | ShutServiceUnlock
    | ShutClose | ShutLock | ShutUnlock | ShutSnapshot
    | ShutSweep(runtimes: set<Sid>, settled: set<Sid>)

  predicate HoldsBarrier(pc: Pc) { pc.ServiceRecheck? || pc.ShutServiceUnlock? }

  /** Past the second admission check, not yet in the table. */
  predicate Admitted(pc: Pc) {
    || pc.EvictCount? || pc.EvictCollect? || pc.EvictProbe? || pc.EvictExit? || pc.ExecInsert?
    || ((pc.RemoveLookup? || pc.RemoveEnd? || pc.RemoveTable? || pc.RemoveRelease?) && pc.after.Evicting?)
  }

  predicate HoldsLock(pc: Pc) {
    Admitted(pc) || pc.ExecRecheck? || pc.ExecUnlock? || pc.ShutUnlock?
  }

  // ----- the state -----

  /** What the threads share, apart from the two locks.  `servicePassed` and
      `passed` record that some shutdown has come through the service barrier
      and the admission lock after closing them. */
  datatype Core = Core(
    maxSessions: nat, serviceClosed: bool, servicePassed: bool, closed: bool, passed: bool,
    table: map<Handle, Sid>, sessions: map<Sid, Session>)
  {
    function Put(sid: Sid, x: Session): Core {
      this.(sessions := sessions[sid := x])
    }

    predicate TableKnown() {
      forall h | h in table :: table[h] in sessions
    }
  }

  /** Everything a thread refers to exists. */
  predicate Known(c: Core, pc: Pc) {
    match pc
    case EvictProbe(_, order, _, _) => forall x | x in order :: x.1 in c.sessions
    case EvictExit(_, order, probes, _, _) => |probes| < |order| && forall x | x in order :: x.1 in c.sessions
    case RemoveEnd(_, sid, _) => sid in c.sessions
    case RemoveTable(_, sid, _) => sid in c.sessions
    case RemoveRelease(sid, _) => sid in c.sessions
    case ExecUnlock(_, sid) => sid in c.sessions
    case WriteMark(_, sid, _) => sid in c.sessions
    case Waiting(_, sid) => sid in c.sessions
    case CheckExit(_, sid) => sid in c.sessions
    case Reaping(sid) => sid in c.sessions
    case ReaperRelease(sid) => sid in c.sessions
    case ShutSweep(runtimes, _) => runtimes <= c.sessions.Keys
    case _ => true
  }

  // ----- what a thread does: the core and its place, before and after -----

  datatype Effect = Effect(core: Core, pc: Pc)

  function Resume(after: After): Pc {
    match after
    case Evicting(left) => EvictCount(if left == 0 then 0 else left - 1)
    case Leaving => Done
  }

  datatype Input =
    | StartCall(request: Request) | StartReaper(sid: Sid) | StartShutdown
    | Step
    | Collect(order: seq<(Handle, Sid)>)
    | Reaped(reap: ReapResult)
    | SpawnFails
    | Insert(handle: Handle, sid: Sid, owned: bool, now: int)
    | MarkInput(now: int, writes: bool)
    | Poll(poll: PollInput)
    | ShutMark(sid: Sid, reap: ReapResult)
    | ShutForce(sid: Sid, reap: ReapResult)
    | ShutPoll(sid: Sid, reap: ReapResult)
    | ShutGiveUp | ShutClear

  /** `order` is some listing of the table. */
  predicate Lists(order: seq<(Handle, Sid)>, table: map<Handle, Sid>) {
    && |order| == |table|
    && (forall x | x in order :: x.0 in table && table[x.0] == x.1)
    && (forall h | h in table :: (h, table[h]) in order)
  }

  /** The steps that need no answer from outside. */
  predicate Steps(pc: Pc) {
    || pc.ServiceCheck? || pc.ServiceLock? || pc.ServiceRecheck? || pc.ExecCheck? || pc.ExecLock? || pc.ExecRecheck?
    || pc.EvictCount? || pc.EvictProbe? || pc.RemoveLookup? || pc.RemoveEnd? || pc.RemoveTable? || pc.RemoveRelease?
    || pc.ExecUnlock? || pc.WriteFind? || pc.ReaperRelease?
    || pc.ShutService? || pc.ShutServiceLock? || pc.ShutServiceUnlock?
    || pc.ShutClose? || pc.ShutLock? || pc.ShutUnlock? || pc.ShutSnapshot?
  }

  predicate Ready(c: Core, pc: Pc, i: Input) {
    match i
    case StartCall(_) => pc.Done?
    case StartReaper(sid) => pc.Done? && sid in c.sessions
    case StartShutdown => pc.Done?
    case Step => Steps(pc)
    case Collect(order) => pc.EvictCollect? && Lists(order, c.table)
    case Reaped(_) => pc.EvictExit? || pc.CheckExit? || pc.Reaping?
    case SpawnFails => pc.ExecInsert?
    case Insert(_, sid, _, _) => pc.ExecInsert? && sid !in c.sessions
    case MarkInput(_, _) => pc.WriteMark?
    case Poll(_) => pc.Waiting?
    case ShutMark(sid, _) => pc.ShutSweep? && sid in pc.runtimes
    case ShutForce(sid, _) => pc.ShutSweep? && sid in pc.runtimes
    case ShutPoll(sid, _) => pc.ShutSweep? && sid in pc.runtimes
    case ShutGiveUp => pc.ShutSweep?
    case ShutClear => pc.ShutSweep? && pc.runtimes <= pc.settled
  }

  function StepEffect(c: Core, pc: Pc): Effect
    requires Steps(pc) && Known(c, pc) && c.TableKnown()
  {
    match pc
    case ServiceCheck(q) => Effect(c, if c.serviceClosed then Done else ServiceLock(q))
    case ServiceLock(q) => Effect(c, ServiceRecheck(q))
    case ServiceRecheck(q) =>
      Effect(c, if c.serviceClosed then Done else if q.ExecRequest? then ExecCheck else WriteFind(q.handle, q.kill))
    case ExecCheck => Effect(c, if c.closed then Done else ExecLock)
    case ExecLock => Effect(c, ExecRecheck)
    case ExecRecheck => Effect(c, if c.closed then Done else EvictCount(|c.table|))
    case EvictCount(left) => Effect(c, if |c.table| < c.maxSessions then ExecInsert else EvictCollect(left))
    case EvictProbe(left, order, probes, best) =>
      Effect(c, if |probes| < |order| then EvictExit(left, order, probes, best, c.sessions[order[|probes|].1].lastUsed)
                else if best.Some? then RemoveLookup(best.value.handle, Evicting(left))
                else Done)
    case RemoveLookup(h, after) => Effect(c, if h in c.table then RemoveEnd(h, c.table[h], after) else Resume(after))
    case RemoveEnd(h, sid, after) =>
      Effect(c, if c.sessions[sid].Settled() then RemoveTable(h, sid, after) else Resume(after))
    case RemoveTable(h, sid, after) =>
      if h in c.table then Effect(c.(table := c.table - {h}), RemoveRelease(c.table[h], after))
      else Effect(c, Resume(after))
    case RemoveRelease(sid, after) => Effect(c.Put(sid, c.sessions[sid].Release()), Resume(after))
    case ExecUnlock(h, sid) => Effect(c, Waiting(h, sid))
    case WriteFind(h, kill) => Effect(c, if h in c.table then WriteMark(h, c.table[h], kill) else Done)
    case ReaperRelease(sid) => Effect(c.Put(sid, c.sessions[sid].Release()), Done)
    case ShutService => Effect(c.(serviceClosed := true), ShutServiceLock)
    case ShutServiceLock => Effect(c.(servicePassed := true), ShutServiceUnlock)
    case ShutServiceUnlock => Effect(c, ShutClose)
    case ShutClose => Effect(c.(closed := true), ShutLock)
    case ShutLock => Effect(c.(passed := true), ShutUnlock)
    case ShutUnlock => Effect(c, ShutSnapshot)
    case ShutSnapshot => Effect(c, ShutSweep(c.table.Values, {}))
  }

  function Better(best: Option<Probe>, p: Probe): Option<Probe> {
    if p.exited && (best.None? || p.used < best.value.used) then Some(p) else best
  }

  /** `is_exited`, called by an eviction, after a wait, or by the reaper. */
  function ReapedEffect(c: Core, pc: Pc, r: ReapResult): Effect
    requires (pc.EvictExit? || pc.CheckExit? || pc.Reaping?) && Known(c, pc)
  {
    var sid := if pc.EvictExit? then pc.order[|pc.probes|].1 else pc.sid;
    var x := c.sessions[sid].Reap(r);
    Effect(c.Put(sid, x),
           if !r.ok then Done
           else if pc.EvictExit? then
             var p := Probe(pc.order[|pc.probes|].0, sid, pc.used, x.Settled());
             EvictProbe(pc.left, pc.order, pc.probes + [p], Better(pc.best, p))
           else if pc.CheckExit? then (if x.Settled() then RemoveLookup(pc.handle, Leaving) else Done)
           else if x.Settled() then ReaperRelease(sid) else pc)
  }

  function PollEffect(c: Core, pc: Pc, p: PollInput): Effect
    requires pc.Waiting? && Known(c, pc)
  {
    var (x, outcome) := PollSession(c.sessions[pc.sid], p);
    Effect(c.Put(pc.sid, x),
           match outcome
           case Continue => pc
           case Exited(_) => CheckExit(pc.handle, pc.sid)
           case _ => Done)
  }

  /** The shutdown's accesses to one runtime of its snapshot: mark or release,
      force, and look again. */
  function Swept(i: Input, x: Session): Session
    requires i.ShutMark? || i.ShutForce? || i.ShutPoll?
  {
    if !i.reap.ok then x
    else if x.Settled() then (if i.ShutForce? then x else x.Release())
    else if i.ShutMark? then x.Mark()
    else if i.ShutForce? then x.(forceKilled := true)
    else x
  }

  function SweepEffect(c: Core, pc: Pc, i: Input): Effect
    requires i.ShutMark? || i.ShutForce? || i.ShutPoll?
    requires Ready(c, pc, i) && Known(c, pc)
  {
    var x := c.sessions[i.sid].Reap(i.reap);
    Effect(c.Put(i.sid, Swept(i, x)),
           if !i.reap.ok then Done
           else if i.ShutPoll? && x.Settled() then ShutSweep(pc.runtimes, pc.settled + {i.sid})
           else pc)
  }

  function NewSession(owned: bool, now: int): Session {
    Session(false, 0, now, false, false, false, false, false, owned, false, 0)
  }

  function React(c: Core, pc: Pc, i: Input): Effect
    requires Ready(c, pc, i) && Known(c, pc) && c.TableKnown()
  {
    match i
    case StartCall(q) => Effect(c, ServiceCheck(q))
    case StartReaper(sid) => Effect(c, Reaping(sid))
    case StartShutdown => Effect(c, ShutService)
    case Step => StepEffect(c, pc)
    case Collect(order) => Effect(c, EvictProbe(pc.left, order, [], None))
    case Reaped(r) => ReapedEffect(c, pc, r)
    case SpawnFails => Effect(c, Done)
    case Insert(h, sid, owned, now) =>
      Effect(c.Put(sid, NewSession(owned, now)).(table := c.table[h := sid]), ExecUnlock(h, sid))
    case MarkInput(now, writes) =>
      var x := c.sessions[pc.sid].(lastUsed := now);
      Effect(c.Put(pc.sid, if pc.kill then x.Mark() else x),
             if pc.kill || writes then Waiting(pc.handle, pc.sid) else Done)
    case Poll(p) => PollEffect(c, pc, p)
    case ShutMark(_, _) => SweepEffect(c, pc, i)
    case ShutForce(_, _) => SweepEffect(c, pc, i)
    case ShutPoll(_, _) => SweepEffect(c, pc, i)
    case ShutGiveUp => Effect(c, Done)
    case ShutClear => Effect(c.(table := map[]), Done)
  }

  // ----- threads side by side -----

  /** A thread holds a lock exactly while its place says so. */
  datatype State = State(core: Core, barrier: Option<Tid>, lock: Option<Tid>, threads: map<Tid, Pc>) {
    function At(t: Tid): Pc {
      if t in threads then threads[t] else Done
    }
  }

  datatype Action = Action(t: Tid, input: Input)

  function Initial(maxSessions: nat): State {
    State(Core(maxSessions, false, false, false, false, map[], map[]), None, None, map[])
  }

  predicate Enabled(s: State, a: Action) {
    && Ready(s.core, s.At(a.t), a.input) && Known(s.core, s.At(a.t)) && s.core.TableKnown()
    && var e := React(s.core, s.At(a.t), a.input);
       && (HoldsLock(e.pc) && !HoldsLock(s.At(a.t)) ==> s.lock.None?)
       && (HoldsBarrier(e.pc) && !HoldsBarrier(s.At(a.t)) ==> s.barrier.None?)
  }

  function Held(before: Option<Tid>, t: Tid, had: bool, has: bool): Option<Tid> {
    if has then Some(t) else if had then None else before
  }

  function Apply(s: State, a: Action): State
    requires Enabled(s, a)
  {
    var pc := s.At(a.t);
    var e := React(s.core, pc, a.input);
    State(e.core,
          Held(s.barrier, a.t, HoldsBarrier(pc), HoldsBarrier(e.pc)),
          Held(s.lock, a.t, HoldsLock(pc), HoldsLock(e.pc)),
          s.threads[a.t := e.pc])
  }
}
