/**
 The promises of the session manager, over every run: any number of threads,
 any interleaving, any answers of the operating system.
 */
module SessionTheorems {
  import opened Results
  import opened Sessions
  import opened SessionSafety

  ghost predicate StepAt(states: seq<State>, actions: seq<Action>, i: nat)
    requires |states| == |actions| + 1 && i < |actions|
  {
    Enabled(states[i], actions[i]) && states[i + 1] == Apply(states[i], actions[i])
  }

  /** Steps from any state. */
  ghost predicate Path(states: seq<State>, actions: seq<Action>) {
    |states| == |actions| + 1 && forall i: nat | i < |actions| :: StepAt(states, actions, i)
  }

  ghost predicate Run(states: seq<State>, actions: seq<Action>) {
    Path(states, actions) && states[0] == Initial(states[0].core.maxSessions)
  }

  /** What is true of the core stays true of it. */
  ghost predicate Later(c: Core, c': Core) {
    && c'.maxSessions == c.maxSessions
    && SessionsAdvance(c, c')
    && (c.closed ==> c'.closed) && (c.serviceClosed ==> c'.serviceClosed)
    && (c.passed ==> c'.passed && Shrinks(c, c'))
  }

  lemma StepLater(s: State, a: Action)
    requires Inv(s) && Enabled(s, a)
    ensures Inv(Apply(s, a)) && Later(s.core, Apply(s, a).core)
  {
    InvStep(s, a);
  }

  lemma LaterChains(a: Core, b: Core, c: Core)
    requires Later(a, b) && Later(b, c)
    ensures Later(a, c)
  {
    forall sid | sid in a.sessions ensures sid in c.sessions && Advances(a.sessions[sid], c.sessions[sid]) {
      assert sid in b.sessions;
    }
  }

  lemma {:induction false} RunInv(states: seq<State>, actions: seq<Action>, i: nat)
    requires Run(states, actions) && i < |states|
    ensures Inv(states[i])
    ensures i > 0 ==> Later(states[i - 1].core, states[i].core)
  {
    if i > 0 {
      RunInv(states, actions, i - 1);
      assert StepAt(states, actions, i - 1);
      StepLater(states[i - 1], actions[i - 1]);
    }
  }

  lemma {:induction false} RunLater(states: seq<State>, actions: seq<Action>, i: nat, j: nat)
    requires Run(states, actions) && i <= j < |states|
    ensures Later(states[i].core, states[j].core)
    decreases j
  {
    if i < j {
      RunLater(states, actions, i, j - 1);
      RunInv(states, actions, j);
      LaterChains(states[i].core, states[j - 1].core, states[j].core);
    }
  }

  // ----- admission and shutdown -----

  /** Once a shutdown has come through the admission lock, no call inserts a
      session, not even one that had passed every earlier check; the table only
      shrinks. */
  lemma NoInsertAfterBarrier(states: seq<State>, actions: seq<Action>, i: nat, j: nat)
    requires Run(states, actions) && i <= j < |actions| && states[i].core.passed
    ensures !actions[j].input.Insert?
    ensures Shrinks(states[i].core, states[j].core)
  {
    RunInv(states, actions, j);
    RunLater(states, actions, i, j);
    assert StepAt(states, actions, j);
    assert Fine(states[j].core, states[j].At(actions[j].t));
  }

  predicate InServiceGate(pc: Pc) { pc.ServiceCheck? || pc.ServiceLock? || pc.ServiceRecheck? }

  /** Once a shutdown has come through the service barrier, no call ever again
      comes out of the service gate, other than turned away. */
  lemma NoAdmissionAfterServiceBarrier(states: seq<State>, actions: seq<Action>, i: nat, j: nat, t: Tid)
    requires Run(states, actions) && i <= j < |actions| && states[i].core.servicePassed
    ensures InServiceGate(states[j].At(t)) ==> InServiceGate(states[j + 1].At(t)) || states[j + 1].At(t) == Done
    ensures states[j + 1].At(t).ExecCheck? || states[j + 1].At(t).WriteFind? ==>
              states[j].At(t) == states[j + 1].At(t)
  {
    RunInv(states, actions, i);
    RunLater(states, actions, i, j);
    RunInv(states, actions, j);
    assert StepAt(states, actions, j);
    if actions[j].t == t {
      GateIsShut(states[j].core, states[j].At(t), actions[j].input);
    }
  }

  lemma GateIsShut(c: Core, pc: Pc, i: Input)
    requires c.serviceClosed && Ready(c, pc, i) && Known(c, pc) && c.TableKnown()
    ensures var pc' := React(c, pc, i).pc;
            && (InServiceGate(pc) ==> InServiceGate(pc') || pc' == Done)
            && !pc'.ExecCheck? && !pc'.WriteFind?
  {
    if i.Step? {
      GateStepIsShut(c, pc);
    }
  }

  lemma GateStepIsShut(c: Core, pc: Pc)
    requires c.serviceClosed && Steps(pc) && Known(c, pc) && c.TableKnown()
    ensures var pc' := StepEffect(c, pc).pc;
            && (InServiceGate(pc) ==> InServiceGate(pc') || pc' == Done)
            && !pc'.ExecCheck? && !pc'.WriteFind?
  {
  }

  /** A shutdown's snapshot contains every session still in the table, for as
      long as the shutdown runs. */
  lemma SnapshotIsComplete(states: seq<State>, actions: seq<Action>, i: nat, t: Tid)
    requires Run(states, actions) && i < |states| && states[i].At(t).ShutSweep?
    ensures forall h | h in states[i].core.table :: states[i].core.table[h] in states[i].At(t).runtimes
  {
    RunInv(states, actions, i);
    assert Fine(states[i].core, states[i].At(t));
  }

  // ----- capacity and eviction -----

  lemma CapacityIsNeverExceeded(states: seq<State>, actions: seq<Action>, i: nat)
    requires Run(states, actions) && i < |states|
    ensures |states[i].core.table| <= states[0].core.maxSessions
  {
    RunInv(states, actions, i);
    RunLater(states, actions, 0, i);
  }

  /** At the end of a round every session still in the table has been asked.
      The victim is one that has fully exited, with the least last-used value
      read; without a victim every answer was "still running". */
  ghost predicate PicksOldestExited(c: Core, probes: seq<Probe>, best: Option<Probe>) {
    && (forall h | h in c.table :: Asked(probes, h, c.table[h]))
    && (best.None? ==> forall p | p in probes :: !p.exited)
    && (best.Some? ==>
          && best.value in probes && IsSettled(c, best.value.sid)
          && forall p | p in probes && p.exited :: best.value.used <= p.used)
  }

  ghost predicate Asked(probes: seq<Probe>, h: Handle, sid: Sid) {
    exists p | p in probes :: p.handle == h && p.sid == sid
  }

  lemma RoundPicks(c: Core, left: nat, order: seq<(Handle, Sid)>, probes: seq<Probe>, best: Option<Probe>)
    requires RoundOk(c, left, order, probes, best) && |probes| == |order|
    ensures PicksOldestExited(c, probes, best)
  {
    forall h | h in c.table ensures Asked(probes, h, c.table[h]) {
      var k :| 0 <= k < |order| && order[k] == (h, c.table[h]);
      assert ProbeOf(c, probes[k], order[k]) && probes[k] in probes;
    }
    if best.Some? {
      var k :| 0 <= k < |probes| && probes[k] == best.value;
      assert ProbeOf(c, probes[k], order[k]);
    }
  }

  lemma EvictionPicksOldestExited(states: seq<State>, actions: seq<Action>, i: nat, t: Tid)
    requires Run(states, actions) && i < |states|
    requires var pc := states[i].At(t); pc.EvictProbe? && |pc.probes| == |pc.order|
    ensures PicksOldestExited(states[i].core, states[i].At(t).probes, states[i].At(t).best)
  {
    RunInv(states, actions, i);
    var pc, c := states[i].At(t), states[i].core;
    assert Fine(c, pc);
    RoundPicks(c, pc.left, pc.order, pc.probes, pc.best);
  }

  /** Bounds the steps a thread may still take inside the eviction loop. */
  function RoundWork(left: nat): nat {
    if left == 0 then 10 else RoundWork(left - 1) + 4 * left + 8
  }

  function NextRound(left: nat): nat { if left == 0 then 0 else RoundWork(left - 1) + 2 }

  ghost function Work(pc: Pc): int {
    match pc
    case EvictCount(left) => RoundWork(left) + 2
    case EvictCollect(left) => RoundWork(left) + 1
    case EvictProbe(left, order, probes, _) => NextRound(left) + 7 + 2 * (|order| - |probes|)
    case EvictExit(left, order, probes, _, _) => NextRound(left) + 6 + 2 * (|order| - |probes|)
    case RemoveLookup(_, after) => RemoveWork(after, 5)
    case RemoveEnd(_, _, after) => RemoveWork(after, 4)
    case RemoveTable(_, _, after) => RemoveWork(after, 3)
    case RemoveRelease(_, after) => RemoveWork(after, 2)
    case _ => 0
  }

  function RemoveWork(after: After, stage: nat): nat {
    if after.Evicting? then NextRound(after.left) + stage else 0
  }

  lemma RoundDrops(left: nat, n: nat)
    requires n <= left
    ensures NextRound(left) + 7 + 2 * n < RoundWork(left) + 1
  {
  }

  lemma ResumeWork(left: nat)
    requires left > 0
    ensures 0 <= Work(Resume(Evicting(left))) <= NextRound(left)
  {
  }

  lemma LookupWork(c: Core, h: Handle, left: nat)
    requires c.TableKnown() && HolderPromise(c, RemoveLookup(h, Evicting(left)))
    ensures 0 <= Work(StepEffect(c, RemoveLookup(h, Evicting(left))).pc) < NextRound(left) + 5
  {
    if h !in c.table {
      ResumeFine(c, h, left);
      ResumeWork(left);
    }
  }

  lemma EndWork(c: Core, h: Handle, sid: Sid, left: nat)
    requires c.TableKnown() && HolderPromise(c, RemoveEnd(h, sid, Evicting(left)))
    ensures 0 <= Work(StepEffect(c, RemoveEnd(h, sid, Evicting(left))).pc) < NextRound(left) + 4
  {
    assert c.sessions[sid].Settled();
  }

  lemma TableWork(c: Core, h: Handle, sid: Sid, left: nat)
    requires c.TableKnown() && sid in c.sessions && HolderPromise(c, RemoveTable(h, sid, Evicting(left)))
    ensures 0 <= Work(StepEffect(c, RemoveTable(h, sid, Evicting(left))).pc) < NextRound(left) + 3
  {
    var e := StepEffect(c, RemoveTable(h, sid, Evicting(left)));
    if h in c.table {
      assert e.pc == RemoveRelease(c.table[h], Evicting(left));
    } else {
      ResumeFine(c, h, left);
      ResumeWork(left);
    }
  }

  lemma ReleaseWork(c: Core, sid: Sid, left: nat)
    requires c.TableKnown() && sid in c.sessions && HolderPromise(c, RemoveRelease(sid, Evicting(left)))
    ensures 0 <= Work(StepEffect(c, RemoveRelease(sid, Evicting(left))).pc) < NextRound(left) + 2
  {
    ResumeWork(left);
  }

  lemma RemovalWork(c: Core, pc: Pc)
    requires c.TableKnown() && Known(c, pc) && HolderPromise(c, pc) && Admitted(pc)
    requires pc.RemoveLookup? || pc.RemoveEnd? || pc.RemoveTable? || pc.RemoveRelease?
    ensures 0 <= Work(StepEffect(c, pc).pc) < Work(pc)
  {
    match pc
    case RemoveLookup(h, after) => LookupWork(c, h, after.left);
    case RemoveEnd(h, sid, after) => EndWork(c, h, sid, after.left);
    case RemoveTable(h, sid, after) => TableWork(c, h, sid, after.left);
    case RemoveRelease(sid, after) => ReleaseWork(c, sid, after.left);
  }

  lemma RoundStepWork(c: Core, pc: Pc)
    requires c.TableKnown() && Known(c, pc) && HolderPromise(c, pc) && (pc.EvictCount? || pc.EvictProbe?)
    ensures var pc' := StepEffect(c, pc).pc; Admitted(pc') ==> 0 <= Work(pc') < Work(pc)
  {
  }

  lemma ProbeWork(c: Core, pc: Pc, r: ReapResult)
    requires pc.EvictExit? && Known(c, pc)
    ensures var pc' := ReapedEffect(c, pc, r).pc; Admitted(pc') ==> 0 <= Work(pc') < Work(pc)
  {
  }

  lemma WorkStep(c: Core, pc: Pc, i: Input)
    requires c.TableKnown() && Known(c, pc) && HolderPromise(c, pc) && Ready(c, pc, i) && Admitted(pc)
    ensures var pc' := React(c, pc, i).pc; Admitted(pc') ==> 0 <= Work(pc') < Work(pc)
  {
    match i
    case Step =>
      if pc.EvictCount? || pc.EvictProbe? {
        RoundStepWork(c, pc);
      } else {
        RemovalWork(c, pc);
      }
    case Collect(order) => RoundDrops(pc.left, |order|);
    case Reaped(r) => ProbeWork(c, pc, r);
    case _ =>
  }

  /** The eviction loop terminates whatever the other threads do: each of its
      own steps lowers a bound that no other thread's step touches. */
  lemma EvictionTerminates(states: seq<State>, actions: seq<Action>, i: nat, t: Tid)
    requires Run(states, actions) && i < |actions| && Admitted(states[i].At(t)) && Admitted(states[i + 1].At(t))
    ensures 0 <= Work(states[i + 1].At(t))
    ensures actions[i].t == t ==> Work(states[i + 1].At(t)) < Work(states[i].At(t))
    ensures actions[i].t != t ==> states[i + 1].At(t) == states[i].At(t)
  {
    RunInv(states, actions, i);
    RunInv(states, actions, i + 1);
    WorkIsNat(states[i + 1].core, states[i + 1].At(t));
    assert StepAt(states, actions, i);
    if actions[i].t == t {
      assert Fine(states[i].core, states[i].At(t));
      WorkStep(states[i].core, states[i].At(t), actions[i].input);
    }
  }

  lemma WorkIsNat(c: Core, pc: Pc)
    requires Fine(c, pc) && Admitted(pc)
    ensures 0 <= Work(pc)
  {
    assert HolderPromise(c, pc);
  }

  /** The bookkeeping is sound: a round that begins has at most `left` sessions
      in the table, and every removal leaves fewer than `left`, so it is never
      `left` that ends the loop. */
  lemma EachRoundShrinksTheTable(states: seq<State>, actions: seq<Action>, i: nat, t: Tid)
    requires Run(states, actions) && i < |states|
    ensures var pc, c := states[i].At(t), states[i].core;
            && (pc.EvictCount? || pc.EvictCollect? ==> |c.table| <= pc.left)
            && (pc.RemoveLookup? || pc.RemoveEnd? || pc.RemoveTable? ==>
                  (pc.after.Evicting? ==> |c.table.Keys - {pc.handle}| < pc.after.left))
            && (pc.RemoveRelease? && pc.after.Evicting? ==> |c.table| < pc.after.left)
  {
    RunInv(states, actions, i);
    assert Fine(states[i].core, states[i].At(t));
  }

  /** How often `t` moves from index `i` up to `j`. */
  function OwnSteps(actions: seq<Action>, t: Tid, i: nat, j: nat): nat
    requires i <= j <= |actions|
    decreases j
  {
    if i == j then 0 else OwnSteps(actions, t, i, j - 1) + if actions[j - 1].t == t then 1 else 0
  }

  ghost predicate StaysAdmitted(states: seq<State>, t: Tid, i: nat, j: nat)
    requires i <= j < |states|
  {
    forall k | i <= k <= j :: Admitted(states[k].At(t))
  }

  /** A bound that own steps lower and other steps leave alone. */
  ghost predicate Falls(actions: seq<Action>, t: Tid, bound: nat -> int, k: nat)
    requires k < |actions|
  {
    if actions[k].t == t then bound(k + 1) < bound(k) else bound(k + 1) == bound(k)
  }

  lemma {:induction false} CountDown(actions: seq<Action>, t: Tid, bound: nat -> int, i: nat, j: nat)
    requires i <= j <= |actions| && forall k: nat | i <= k < j :: Falls(actions, t, bound, k)
    ensures OwnSteps(actions, t, i, j) + bound(j) <= bound(i)
    decreases j
  {
    if i < j {
      CountDown(actions, t, bound, i, j - 1);
      assert Falls(actions, t, bound, j - 1);
    }
  }

  lemma OwnStepsAreBounded(states: seq<State>, actions: seq<Action>, i: nat, j: nat, t: Tid)
    requires Run(states, actions) && i <= j < |states| && StaysAdmitted(states, t, i, j)
    ensures OwnSteps(actions, t, i, j) <= Work(states[i].At(t))
  {
    var bound: nat -> int := (k: nat) => if k < |states| then Work(states[k].At(t)) else 0;
    forall k: nat | i <= k < j ensures Falls(actions, t, bound, k) {
      EvictionTerminates(states, actions, k, t);
    }
    CountDown(actions, t, bound, i, j);
    RunInv(states, actions, j);
    WorkIsNat(states[j].core, states[j].At(t));
  }

  lemma {:induction false} RoundWorkIs(n: nat)
    ensures RoundWork(n) == 2 * n * n + 10 * n + 10
  {
    if n > 0 {
      RoundWorkIs(n - 1);
    }
  }

  /** The whole loop: from its start with `n` sessions in the table until the
      thread leaves it, it takes at most 2n^2 + 10n + 12 steps of its own,
      whatever the other threads do meanwhile. */
  lemma EvictionLoopIsBounded(states: seq<State>, actions: seq<Action>, i: nat, j: nat, t: Tid)
    requires Run(states, actions) && i < j < |states| && actions[i].t == t
    requires states[i].At(t).ExecRecheck? && StaysAdmitted(states, t, i + 1, j)
    ensures var n := |states[i].core.table|;
            OwnSteps(actions, t, i + 1, j) <= 2 * n * n + 10 * n + 12 && n <= states[0].core.maxSessions
  {
    assert StepAt(states, actions, i);
    assert states[i + 1].At(t) == EvictCount(|states[i].core.table|) by {
      assert Admitted(states[i + 1].At(t));
    }
    OwnStepsAreBounded(states, actions, i + 1, j, t);
    RoundWorkIs(|states[i].core.table|);
    CapacityIsNeverExceeded(states, actions, i);
  }

  // ----- kill, timeout and what a wait may answer -----

  /** What one wait iteration at index `j` told its caller. */
  ghost predicate Answers(states: seq<State>, actions: seq<Action>, j: nat, sid: Sid, outcome: PollOutcome)
    requires Run(states, actions)
  {
    && j < |actions| && actions[j].input.Poll?
    && var pc := states[j].At(actions[j].t);
       && pc.Waiting? && pc.sid == sid && sid in states[j].core.sessions
       && PollSession(states[j].core.sessions[sid], actions[j].input.poll).1 == outcome
  }

  /** One iteration, seen from the session it polls: an iteration without an
      error reports Exited exactly when the leader is reaped and, if the session
      must exit, its group is gone; and Running exactly when the time is up and
      the session need not exit.  A timeout outranks a kill, that a plain exit. */
  lemma PollVerdict(x: Session, p: PollInput)
    ensures var (x', outcome) := PollSession(x, p);
            && (outcome.Failed? ==> !p.reap.ok || p.killFails)
            && (!p.reap.ok ==> outcome.Failed?)
            && (!outcome.Failed? ==>
                  && (outcome.Exited? <==> x'.reaped && (x'.members == 0 || !x'.mustExit))
                  && (outcome.Running? <==> !x'.reaped && p.elapsed && !x'.mustExit))
            && (x.mustExit || (p.idle && !x.timedOut) ==> !outcome.Running?)
            && (outcome.Exited? ==> (outcome.reason == Timeout <==> x'.timedOut))
            && (outcome.Exited? ==> (outcome.reason == Exit <==> !(x'.timedOut || x'.killRequested || x'.forceKilled)))
            && (p.idle ==> x'.timedOut)
            && x'.lastUsed == p.now
  {
  }

  /** A session that must exit is never again reported as running, and when its
      exit is reported no group member is left. */
  lemma MustExitIsFinal(states: seq<State>, actions: seq<Action>, i: nat, j: nat, sid: Sid)
    requires Run(states, actions) && i <= j < |actions|
    requires sid in states[i].core.sessions && states[i].core.sessions[sid].mustExit
    ensures !Answers(states, actions, j, sid, Running)
    ensures forall reason :: Answers(states, actions, j, sid, Exited(reason)) ==> IsSettled(states[j + 1].core, sid)
  {
    RunLater(states, actions, i, j);
    if actions[j].input.Poll? {
      PollVerdict(states[j].core.sessions[sid], actions[j].input.poll);
      assert StepAt(states, actions, j);
    }
  }

  /** A timeout outranks a kill, and a kill outranks a plain exit, whenever the
      flag was set. */
  lemma ReasonIsSticky(states: seq<State>, actions: seq<Action>, i: nat, j: nat, sid: Sid, reason: Reason)
    requires Run(states, actions) && i <= j < |actions| && sid in states[i].core.sessions
    requires Answers(states, actions, j, sid, Exited(reason))
    ensures states[i].core.sessions[sid].timedOut ==> reason == Timeout
    ensures states[i].core.sessions[sid].killRequested || states[i].core.sessions[sid].forceKilled ==> reason != Exit
  {
    RunLater(states, actions, i, j);
    var x := states[j].core.sessions[sid];
    PollVerdict(x, actions[j].input.poll);
    PollKeeps(x, actions[j].input.poll);
  }
}
