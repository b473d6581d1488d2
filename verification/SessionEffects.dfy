/**
 What the session manager's calls bring about, over every run: a kill and a
 timeout take hold, a shutdown marks and forces what it finds, a reaper that is
 done has ended ownership, calls are turned away only for a reason, and what an
 eviction reads is what the session was last used at.
 */
module SessionEffects {
  import opened Results
  import opened Sessions
  import opened SessionSafety
  import opened SessionTheorems

  lemma RunStep(states: seq<State>, actions: seq<Action>, i: nat)
    requires Run(states, actions) && i < |actions|
    ensures Inv(states[i]) && StepAt(states, actions, i)
    ensures Fine(states[i].core, states[i].At(actions[i].t)) && CoreOk(states[i].core)
  {
    RunInv(states, actions, i);
    assert StepAt(states, actions, i);
  }

  /** In every run a session must exit, and is being terminated, exactly when it
      timed out or was killed. */
  lemma FlagsAgree(states: seq<State>, actions: seq<Action>, i: nat, sid: Sid)
    requires Run(states, actions) && i < |states| && sid in states[i].core.sessions
    ensures var x := states[i].core.sessions[sid];
      (x.timedOut || x.killRequested <==> x.mustExit) && (x.mustExit <==> x.terminating)
  {
    RunInv(states, actions, i);
    assert SessionOk(states[i].core.sessions[sid]);
  }

  // ----- kill -----

  /** The action kills the session: `kill_process`, or a shutdown's first pass
      over a session that is not settled. */
  ghost predicate Kills(s: State, a: Action, sid: Sid) {
    || (a.input.MarkInput? && s.At(a.t).WriteMark? && s.At(a.t).sid == sid && s.At(a.t).kill)
    || (a.input.ShutMark? && a.input.sid == sid && a.input.reap.ok && sid in s.core.sessions
        && !s.core.sessions[sid].Reap(a.input.reap).Settled())
  }

  lemma KillMarks(s: State, a: Action, sid: Sid)
    requires Enabled(s, a) && Kills(s, a, sid)
    ensures sid in Apply(s, a).core.sessions
    ensures var x := Apply(s, a).core.sessions[sid]; x.killRequested && x.mustExit && x.terminating
  {
  }

  /** From a kill on the session is never again reported as running, and when its
      exit is reported its group is gone and the reason is not a plain exit. */
  lemma KillTakesHold(states: seq<State>, actions: seq<Action>, i: nat, j: nat, sid: Sid)
    requires Run(states, actions) && i < j < |actions| && Kills(states[i], actions[i], sid)
    ensures !Answers(states, actions, j, sid, Running)
    ensures forall reason :: Answers(states, actions, j, sid, Exited(reason)) ==>
      IsSettled(states[j + 1].core, sid) && reason != Exit
  {
    RunStep(states, actions, i);
    KillMarks(states[i], actions[i], sid);
    MustExitIsFinal(states, actions, i + 1, j, sid);
    forall reason | Answers(states, actions, j, sid, Exited(reason)) ensures reason != Exit {
      ReasonIsSticky(states, actions, i + 1, j, sid, reason);
    }
  }

  // ----- timeout -----

  /** The action polls the session, and finds it idle for too long. */
  ghost predicate PollsSession(s: State, a: Action, sid: Sid) {
    a.input.Poll? && s.At(a.t).Waiting? && s.At(a.t).sid == sid
  }

  lemma PollTakesEffect(s: State, a: Action, sid: Sid)
    requires Enabled(s, a) && PollsSession(s, a, sid)
    ensures sid in s.core.sessions && sid in Apply(s, a).core.sessions
    ensures Apply(s, a).core.sessions[sid] == PollSession(s.core.sessions[sid], a.input.poll).0
  {
  }

  /** The first poll past the idle deadline condemns the session: neither it nor
      any later one answers Running, and every exit is reported as a timeout. */
  lemma TimeoutTakesHold(states: seq<State>, actions: seq<Action>, i: nat, j: nat, sid: Sid)
    requires Run(states, actions) && i <= j < |actions|
    requires PollsSession(states[i], actions[i], sid) && actions[i].input.poll.idle
    ensures !Answers(states, actions, j, sid, Running)
    ensures forall reason :: Answers(states, actions, j, sid, Exited(reason)) ==>
      IsSettled(states[j + 1].core, sid) && reason == Timeout
  {
    RunStep(states, actions, i);
    PollTakesEffect(states[i], actions[i], sid);
    var x := states[i].core.sessions[sid];
    assert SessionOk(x);
    PollVerdict(x, actions[i].input.poll);
    PollKeeps(x, actions[i].input.poll);
    if i < j {
      RunInv(states, actions, i + 1);
      MustExitIsFinal(states, actions, i + 1, j, sid);
      forall reason | Answers(states, actions, j, sid, Exited(reason)) ensures reason == Timeout {
        ReasonIsSticky(states, actions, i + 1, j, sid, reason);
      }
    }
  }

  // ----- force -----

  /** A poll after the grace period forces what is being terminated. */
  lemma PollForces(x: Session, p: PollInput)
    requires p.reap.ok && p.graceOver && (x.terminating || (p.idle && !x.timedOut))
    ensures PollSession(x, p).0.forceKilled
  {
  }

  /** The action is a poll that goes through after the grace period, of a session
      that must exit; or a shutdown's second pass over one that is not settled. */
  ghost predicate Forces(s: State, a: Action, sid: Sid) {
    && sid in s.core.sessions
    && ((PollsSession(s, a, sid) && a.input.poll.reap.ok && a.input.poll.graceOver
         && (s.core.sessions[sid].mustExit || a.input.poll.idle))
        || (a.input.ShutForce? && a.input.sid == sid && a.input.reap.ok
            && !s.core.sessions[sid].Reap(a.input.reap).Settled()))
  }

  lemma ForcesNow(s: State, a: Action, sid: Sid)
    requires Enabled(s, a) && Forces(s, a, sid) && SessionOk(s.core.sessions[sid])
    ensures sid in Apply(s, a).core.sessions && Apply(s, a).core.sessions[sid].forceKilled
  {
    if a.input.Poll? {
      PollTakesEffect(s, a, sid);
      PollForces(s.core.sessions[sid], a.input.poll);
    } else {
      ForcedBySweep(s, a, sid);
    }
  }

  /** What must exit is forced once the grace period is over, and so is what a
      shutdown still finds running; and the flag stays. */
  lemma ForceTakesHold(states: seq<State>, actions: seq<Action>, i: nat, j: nat, sid: Sid)
    requires Run(states, actions) && i < j < |states| && Forces(states[i], actions[i], sid)
    ensures sid in states[j].core.sessions && states[j].core.sessions[sid].forceKilled
  {
    RunStep(states, actions, i);
    ForcesNow(states[i], actions[i], sid);
    RunLater(states, actions, i + 1, j);
  }

  lemma ForcedBySweep(s: State, a: Action, sid: Sid)
    requires Enabled(s, a) && a.input.ShutForce? && a.input.sid == sid && a.input.reap.ok && sid in s.core.sessions
    requires !s.core.sessions[sid].Reap(a.input.reap).Settled()
    ensures sid in Apply(s, a).core.sessions && Apply(s, a).core.sessions[sid].forceKilled
  {
  }

  // ----- the end of ownership -----

  predicate Reaps(pc: Pc, sid: Sid) {
    (pc.Reaping? || pc.ReaperRelease?) && pc.sid == sid
  }

  /** A reaper stops on an error, or when the session is settled and its ownership
      has ended. */
  lemma ReaperEndsOwnership(states: seq<State>, actions: seq<Action>, i: nat, j: nat, t: Tid, sid: Sid)
    requires Run(states, actions) && i < j < |states| && Reaps(states[i].At(t), sid) && !Reaps(states[i + 1].At(t), sid)
    ensures (actions[i].input.Reaped? && !actions[i].input.reap.ok)
         || (sid in states[j].core.sessions && OwnershipEnded(states[j].core.sessions[sid]))
  {
    RunStep(states, actions, i);
    if !(actions[i].input.Reaped? && !actions[i].input.reap.ok) {
      ReaperStopsAt(states[i], actions[i], t, sid);
      Released(states, actions, i + 1, j, sid);
    }
  }

  lemma ReaperStopsAt(s: State, a: Action, t: Tid, sid: Sid)
    requires Enabled(s, a) && Reaps(s.At(t), sid) && !Reaps(Apply(s, a).At(t), sid) && (a.input.Reaped? ==> a.input.reap.ok)
    ensures sid in Apply(s, a).core.sessions && Apply(s, a).core.sessions[sid].released
  {
    OwnMove(s, a, t);
    ReaperStops(s.core, s.At(t), a.input, sid);
  }

  ghost predicate OwnershipEnded(x: Session) {
    x.released && x.ends == if x.owned then 1 else 0
  }

  lemma ReaperStops(c: Core, pc: Pc, i: Input, sid: Sid)
    requires Known(c, pc) && Ready(c, pc, i) && c.TableKnown() && Reaps(pc, sid) && (i.Reaped? ==> i.reap.ok)
    requires !Reaps(React(c, pc, i).pc, sid)
    ensures sid in React(c, pc, i).core.sessions && React(c, pc, i).core.sessions[sid].released
  {
  }

  lemma Released(states: seq<State>, actions: seq<Action>, i: nat, j: nat, sid: Sid)
    requires Run(states, actions) && i <= j < |states|
    requires sid in states[i].core.sessions && states[i].core.sessions[sid].released
    ensures sid in states[j].core.sessions && OwnershipEnded(states[j].core.sessions[sid])
  {
    RunLater(states, actions, i, j);
    RunInv(states, actions, j);
    assert SessionOk(states[j].core.sessions[sid]);
  }

  /** A reaper that is asked again and again stays at its session until then. */
  lemma ReaperStays(states: seq<State>, actions: seq<Action>, i: nat, t: Tid, sid: Sid)
    requires Run(states, actions) && i < |actions| && states[i].At(t) == Reaping(sid)
    ensures actions[i].t != t ==> states[i + 1].At(t) == Reaping(sid)
    ensures actions[i].t == t && actions[i].input.Reaped? && actions[i].input.reap.ok ==>
      states[i + 1].At(t) == if IsSettled(states[i + 1].core, sid) then ReaperRelease(sid) else Reaping(sid)
  {
    RunStep(states, actions, i);
  }

  /** When a removal takes a session out of the table, its ownership ends with the
      same thread's next step. */
  lemma RemovalEndsOwnership(states: seq<State>, actions: seq<Action>, i: nat, j: nat, sid: Sid)
    requires Run(states, actions) && i < j < |states|
    requires states[i].At(actions[i].t).RemoveRelease? && states[i].At(actions[i].t).sid == sid
    ensures sid in states[j].core.sessions && OwnershipEnded(states[j].core.sessions[sid])
  {
    RunStep(states, actions, i);
    ReleaseStep(states[i].core, states[i].At(actions[i].t), actions[i].input);
    Released(states, actions, i + 1, j, sid);
  }

  lemma ReleaseStep(c: Core, pc: Pc, i: Input)
    requires pc.RemoveRelease? && Known(c, pc) && Ready(c, pc, i) && c.TableKnown()
    ensures pc.sid in React(c, pc, i).core.sessions && React(c, pc, i).core.sessions[pc.sid].released
  {
  }

  // ----- reasons -----

  /** Before anything has been done for it. */
  predicate AtTheGates(pc: Pc) {
    InServiceGate(pc) || pc.ExecCheck? || pc.ExecLock? || pc.ExecRecheck? || pc.WriteFind?
  }

  /** A call is turned away at the gates only when one of them is closed, or when
      it names no session. */
  lemma RefusalHasAReason(states: seq<State>, actions: seq<Action>, i: nat, t: Tid)
    requires Run(states, actions) && i < |actions| && AtTheGates(states[i].At(t)) && states[i + 1].At(t) == Done
    ensures var c, pc := states[i].core, states[i].At(t);
      || (InServiceGate(pc) && c.serviceClosed)
      || ((pc.ExecCheck? || pc.ExecRecheck?) && c.closed)
      || (pc.WriteFind? && pc.handle !in c.table)
  {
    RunStep(states, actions, i);
    OwnMove(states[i], actions[i], t);
    GateRefuses(states[i].core, states[i].At(t), actions[i].input);
  }

  lemma GateRefuses(c: Core, pc: Pc, i: Input)
    requires Known(c, pc) && Ready(c, pc, i) && c.TableKnown() && AtTheGates(pc) && React(c, pc, i).pc == Done
    ensures (InServiceGate(pc) && c.serviceClosed) || ((pc.ExecCheck? || pc.ExecRecheck?) && c.closed)
         || (pc.WriteFind? && pc.handle !in c.table)
  {
  }

  /** An admitted exec call ends in an insertion, or gives up because every
      session in the table answered that it is running, because asking failed, or
      because the command could not be started. */
  lemma GivingUpHasAReason(states: seq<State>, actions: seq<Action>, i: nat, t: Tid)
    requires Run(states, actions) && i < |actions| && Admitted(states[i].At(t)) && !Admitted(states[i + 1].At(t))
    ensures var c, pc, a := states[i].core, states[i].At(t), actions[i].input;
      || (pc.ExecInsert? && a.Insert? && |c.table| < c.maxSessions)
      || (pc.ExecInsert? && a.SpawnFails?)
      || (pc.EvictExit? && a.Reaped? && !a.reap.ok)
      || (pc.EvictProbe? && |pc.probes| == |pc.order| && AllRunning(c, pc.probes))
  {
    RunStep(states, actions, i);
    OwnMove(states[i], actions[i], t);
    AdmittedLeaves(states[i].core, states[i].At(t), actions[i].input);
  }

  /** A thread that is somewhere else moved. */
  lemma OwnMove(s: State, a: Action, t: Tid)
    requires Enabled(s, a) && Apply(s, a).At(t) != s.At(t)
    ensures a.t == t && Apply(s, a).At(t) == React(s.core, s.At(t), a.input).pc
  {
  }

  /** Every session in the table was asked, and none had exited. */
  ghost predicate AllRunning(c: Core, probes: seq<Probe>) {
    && (forall h | h in c.table :: Asked(probes, h, c.table[h]))
    && (forall p | p in probes :: !p.exited)
  }

  lemma AdmittedLeaves(c: Core, pc: Pc, i: Input)
    requires CoreOk(c) && Fine(c, pc) && Ready(c, pc, i)
    requires Admitted(pc) && !Admitted(React(c, pc, i).pc)
    ensures || (pc.ExecInsert? && i.Insert? && |c.table| < c.maxSessions)
            || (pc.ExecInsert? && i.SpawnFails?)
            || (pc.EvictExit? && i.Reaped? && !i.reap.ok)
            || (pc.EvictProbe? && |pc.probes| == |pc.order| && AllRunning(c, pc.probes))
  {
    if i.Step? {
      AdmittedStepLeaves(c, pc);
      RoundPicks(c, pc.left, pc.order, pc.probes, pc.best);
    }
  }

  lemma AdmittedStepLeaves(c: Core, pc: Pc)
    requires CoreOk(c) && Known(c, pc) && HolderPromise(c, pc) && Steps(pc)
    requires Admitted(pc) && !Admitted(StepEffect(c, pc).pc)
    ensures pc.EvictProbe? && |pc.probes| == |pc.order| && pc.best.None?
  {
  }

  // ----- when a session was last used -----

  /** When an action uses the session: an insertion, a write or a wait. */
  function UseBy(pc: Pc, i: Input, sid: Sid): Option<int> {
    if i.Insert? && i.sid == sid then Some(i.now)
    else if i.MarkInput? && pc.WriteMark? && pc.sid == sid then Some(i.now)
    else if i.Poll? && pc.Waiting? && pc.sid == sid then Some(i.poll.now)
    else None
  }

  function LastUse(states: seq<State>, actions: seq<Action>, i: nat, sid: Sid): int
    requires i < |states| && i <= |actions|
  {
    if i == 0 then 0
    else
      var use := UseBy(states[i - 1].At(actions[i - 1].t), actions[i - 1].input, sid);
      if use.Some? then use.value else LastUse(states, actions, i - 1, sid)
  }

  /** What an eviction compares is the time of the latest use. */
  lemma {:induction false} LastUsedIsLatest(states: seq<State>, actions: seq<Action>, i: nat, sid: Sid)
    requires Run(states, actions) && i < |states| && sid in states[i].core.sessions
    ensures states[i].core.sessions[sid].lastUsed == LastUse(states, actions, i, sid)
  {
    if i > 0 {
      UseAtIndex(states, actions, i - 1, sid);
      if sid in states[i - 1].core.sessions {
        LastUsedIsLatest(states, actions, i - 1, sid);
      }
    }
  }

  lemma UseAtIndex(states: seq<State>, actions: seq<Action>, i: nat, sid: Sid)
    requires Run(states, actions) && i < |actions| && sid in states[i + 1].core.sessions
    ensures var use := UseBy(states[i].At(actions[i].t), actions[i].input, sid);
      if use.Some? then states[i + 1].core.sessions[sid].lastUsed == use.value
      else sid in states[i].core.sessions
           && states[i + 1].core.sessions[sid].lastUsed == states[i].core.sessions[sid].lastUsed
  {
    RunStep(states, actions, i);
    UseOfAction(states[i], actions[i], sid);
  }

  lemma UseOfAction(s: State, a: Action, sid: Sid)
    requires Enabled(s, a) && sid in Apply(s, a).core.sessions
    ensures var use := UseBy(s.At(a.t), a.input, sid);
      if use.Some? then Apply(s, a).core.sessions[sid].lastUsed == use.value
      else sid in s.core.sessions && Apply(s, a).core.sessions[sid].lastUsed == s.core.sessions[sid].lastUsed
  {
    UseStep(s.core, s.At(a.t), a.input, sid);
  }

  lemma UseStep(c: Core, pc: Pc, i: Input, sid: Sid)
    requires c.TableKnown() && Known(c, pc) && Ready(c, pc, i) && sid in React(c, pc, i).core.sessions
    ensures var used, use := React(c, pc, i).core.sessions[sid].lastUsed, UseBy(pc, i, sid);
      if use.Some? then used == use.value else sid in c.sessions && used == c.sessions[sid].lastUsed
  {
    if TouchesSession(i) {
      TouchUses(c, pc, i, sid);
    } else if i.Step? {
      StepUses(c, pc, sid);
    }
  }

  lemma StepUses(c: Core, pc: Pc, sid: Sid)
    requires Steps(pc) && Known(c, pc) && c.TableKnown() && sid in StepEffect(c, pc).core.sessions
    ensures sid in c.sessions && StepEffect(c, pc).core.sessions[sid].lastUsed == c.sessions[sid].lastUsed
  {
  }

  lemma TouchUses(c: Core, pc: Pc, i: Input, sid: Sid)
    requires Known(c, pc) && c.TableKnown() && Ready(c, pc, i) && TouchesSession(i)
    requires sid in React(c, pc, i).core.sessions
    ensures var used, use := React(c, pc, i).core.sessions[sid].lastUsed, UseBy(pc, i, sid);
      if use.Some? then used == use.value else sid in c.sessions && used == c.sessions[sid].lastUsed
  {
    var x' := TouchKeeps(c, pc, i);
    if i.Poll? {
      PollVerdict(c.sessions[pc.sid], i.poll);
    }
  }

  /** The session was last used at `used`, as of some index up to `i`. */
  ghost predicate WasRead(states: seq<State>, i: nat, sid: Sid, used: int) {
    exists j: nat | j <= i && j < |states| ::
      sid in states[j].core.sessions && states[j].core.sessions[sid].lastUsed == used
  }

  ghost predicate AllRead(states: seq<State>, i: nat, pc: Pc) {
    && (pc.EvictProbe? || pc.EvictExit? ==> forall p | p in pc.probes :: WasRead(states, i, p.sid, p.used))
    && (pc.EvictExit? ==> |pc.probes| < |pc.order| && WasRead(states, i, pc.order[|pc.probes|].1, pc.used))
  }

  /** Every value an eviction compares was the session's own. */
  lemma {:induction false} ProbesWereRead(states: seq<State>, actions: seq<Action>, i: nat, t: Tid)
    requires Run(states, actions) && i < |states|
    ensures AllRead(states, i, states[i].At(t))
  {
    if i > 0 {
      ProbesWereRead(states, actions, i - 1, t);
      RunStep(states, actions, i - 1);
      var before, now := states[i - 1].At(t), states[i].At(t);
      StillRead(states, i - 1, before);
      if actions[i - 1].t == t {
        ReadStep(states, i, before, actions[i - 1].input);
      }
    }
  }

  lemma StillRead(states: seq<State>, i: nat, pc: Pc)
    requires AllRead(states, i, pc)
    ensures AllRead(states, i + 1, pc)
  {
  }

  lemma ReadStep(states: seq<State>, i: nat, pc: Pc, input: Input)
    requires 0 < i < |states| && AllRead(states, i, pc)
    requires var c := states[i - 1].core; Known(c, pc) && c.TableKnown() && Ready(c, pc, input)
    ensures AllRead(states, i, React(states[i - 1].core, pc, input).pc)
  {
    if input.Step? {
      ReadByStep(states, i, pc);
    }
  }

  lemma ReadByStep(states: seq<State>, i: nat, pc: Pc)
    requires 0 < i < |states| && AllRead(states, i, pc)
    requires var c := states[i - 1].core; Known(c, pc) && c.TableKnown() && Steps(pc)
    ensures AllRead(states, i, StepEffect(states[i - 1].core, pc).pc)
  {
    var c := states[i - 1].core;
    if pc.EvictProbe? && |pc.probes| < |pc.order| {
      var sid := pc.order[|pc.probes|].1;
      assert pc.order[|pc.probes|] in pc.order;
      assert c.sessions[sid].lastUsed == StepEffect(c, pc).pc.used;
    }
  }
}
