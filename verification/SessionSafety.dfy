/**
 What every interleaving of the session protocol keeps.
 */
module SessionSafety {
  import opened Results
  import opened Sessions

  // ----- the invariant -----

  /** Even if `h` is still in the table, this round leaves fewer than `left`. */
  ghost predicate Slack(c: Core, left: nat, h: Handle) {
    |c.table.Keys - {h}| < left
  }

  ghost predicate Candidate(c: Core, left: nat, h: Handle, sid: Sid) {
    sid in c.sessions && (h in c.table ==> c.table[h] == sid) && Slack(c, left, h)
  }

  ghost predicate IsSettled(c: Core, sid: Sid) {
    sid in c.sessions && c.sessions[sid].Settled()
  }

  /** `best` is an exited probe with the least last-used value read so far. */
  ghost predicate Oldest(probes: seq<Probe>, best: Option<Probe>) {
    && (best.None? ==> forall p | p in probes :: !p.exited)
    && (best.Some? ==> best.value in probes && best.value.exited
                       && forall p | p in probes && p.exited :: best.value.used <= p.used)
  }

  /** A round under way: it listed every session still in the table, and has
      probed a beginning of the list. */
  ghost predicate RoundOk(c: Core, left: nat, order: seq<(Handle, Sid)>, probes: seq<Probe>, best: Option<Probe>) {
    && |probes| <= |order| <= left
    && (forall x | x in order :: Candidate(c, left, x.0, x.1))
    && (forall h | h in c.table :: (h, c.table[h]) in order)
    && (forall k | 0 <= k < |probes| :: ProbeOf(c, probes[k], order[k]))
    && Oldest(probes, best)
  }

  ghost predicate ProbeOf(c: Core, p: Probe, x: (Handle, Sid)) {
    p.handle == x.0 && p.sid == x.1 && (p.exited ==> IsSettled(c, p.sid))
  }

  /** What the core owes to a thread past the second admission check. */
  ghost predicate HolderPromise(c: Core, pc: Pc) {
    && !c.passed
    && match pc
       case ExecInsert => |c.table| < c.maxSessions
       case EvictCount(left) => |c.table| <= left
       case EvictCollect(left) => |c.table| <= left
       case EvictProbe(left, order, probes, best) => RoundOk(c, left, order, probes, best)
       case EvictExit(left, order, probes, best, _) => RoundOk(c, left, order, probes, best)
       case RemoveLookup(h, Evicting(left)) => Slack(c, left, h) && (h in c.table ==> IsSettled(c, c.table[h]))
       case RemoveEnd(h, sid, Evicting(left)) => Slack(c, left, h) && IsSettled(c, sid)
       case RemoveTable(h, sid, Evicting(left)) => Slack(c, left, h) && IsSettled(c, sid)
       case RemoveRelease(_, Evicting(left)) => |c.table| < left
       case _ => true
  }

  /** What the core owes to a shutdown. */
  ghost predicate ShutPromise(c: Core, pc: Pc) {
    match pc
    case ShutServiceLock => c.serviceClosed
    case ShutLock => c.closed
    case ShutUnlock => c.passed
    case ShutSnapshot => c.passed
    case ShutSweep(runtimes, settled) =>
      c.passed && Covers(c, runtimes) && forall sid | sid in settled :: IsSettled(c, sid)
    case _ => true
  }

  /** Every session still in the table is in the snapshot. */
  ghost predicate Covers(c: Core, runtimes: set<Sid>) {
    forall h | h in c.table :: c.table[h] in runtimes
  }

  ghost predicate Fine(c: Core, pc: Pc) {
    Known(c, pc) && (Admitted(pc) ==> HolderPromise(c, pc)) && ShutPromise(c, pc)
  }

  /** Ownership ends with the swap, once, if there was any; and a session must
      exit, and is being terminated, exactly when it timed out or was killed. */
  ghost predicate SessionOk(x: Session) {
    && x.ends == (if x.released && x.owned then 1 else 0)
    && (x.mustExit <==> x.timedOut || x.killRequested)
    && (x.terminating <==> x.mustExit)
  }

  ghost predicate CoreOk(c: Core) {
    && (c.passed ==> c.closed) && (c.servicePassed ==> c.serviceClosed)
    && |c.table| <= c.maxSessions
    && c.TableKnown()
    && forall sid | sid in c.sessions :: SessionOk(c.sessions[sid])
  }

  ghost predicate LockOk(s: State) {
    forall t: nat ::
      && (HoldsLock(s.At(t)) <==> s.lock == Some(t))
      && (HoldsBarrier(s.At(t)) <==> s.barrier == Some(t))
  }

  ghost predicate Inv(s: State) {
    CoreOk(s.core) && LockOk(s) && forall t: nat :: Fine(s.core, s.At(t))
  }

  // ----- how the core moves -----

  ghost predicate Shrinks(c: Core, c': Core) {
    forall h | h in c'.table :: h in c.table && c'.table[h] == c.table[h]
  }

  ghost predicate SessionsAdvance(c: Core, c': Core) {
    forall sid | sid in c.sessions :: sid in c'.sessions && Advances(c.sessions[sid], c'.sessions[sid])
  }

  /** The table grows only under the admission lock, and never once a shutdown
      has passed; a shutdown passes only by taking the lock. */
  ghost predicate CoreEvolves(c: Core, c': Core, had: bool, has: bool) {
    && c'.maxSessions == c.maxSessions
    && SessionsAdvance(c, c')
    && (c.closed ==> c'.closed) && (c.serviceClosed ==> c'.serviceClosed)
    && (c.passed ==> c'.passed) && (c'.passed && !c.passed ==> has && !had)
    && (!had || c.passed ==> Shrinks(c, c'))
  }

  lemma SmallerSet<T>(a: set<T>, b: set<T>)
    requires a <= b
    ensures |a| <= |b|
  {
    assert b == a + (b - a);
  }

  lemma ShrinkCard(c: Core, c': Core)
    requires Shrinks(c, c')
    ensures |c'.table| <= |c.table|
    ensures forall left: nat, h :: Slack(c, left, h) ==> Slack(c', left, h)
  {
    SmallerSet(c'.table.Keys, c.table.Keys);
    forall left: nat, h | Slack(c, left, h) ensures Slack(c', left, h) {
      SmallerSet(c'.table.Keys - {h}, c.table.Keys - {h});
    }
  }

  /** One session of the core changes. */
  lemma PutEvolves(c: Core, sid: Sid, x: Session, had: bool, has: bool)
    requires CoreOk(c) && sid in c.sessions && Advances(c.sessions[sid], x) && SessionOk(x)
    ensures CoreOk(c.Put(sid, x)) && CoreEvolves(c, c.Put(sid, x), had, has)
  {
  }

  lemma SameEvolves(c: Core, had: bool, has: bool)
    ensures CoreEvolves(c, c, had, has)
  {
  }

  lemma DropEvolves(c: Core, h: Handle, had: bool, has: bool)
    requires CoreOk(c)
    ensures var c' := c.(table := c.table - {h}); CoreOk(c') && CoreEvolves(c, c', had, has)
  {
    SmallerSet((c.table - {h}).Keys, c.table.Keys);
  }

  lemma FlagEvolves(c: Core, c': Core, had: bool, has: bool)
    requires CoreOk(c) && (c.passed ==> c.closed)
    requires c' == c.(serviceClosed := true) || c' == c.(closed := true)
          || (c.serviceClosed && c' == c.(servicePassed := true))
          || (c.closed && has && !had && c' == c.(passed := true))
    ensures CoreOk(c') && CoreEvolves(c, c', had, has)
  {
  }

  /** What every access to a session keeps; it releases only what is settled. */
  ghost predicate Keeps(x: Session, x': Session) {
    && Advances(x, x') && (SessionOk(x) ==> SessionOk(x'))
    && (x'.released ==> x.released || x'.Settled())
  }

  lemma ReapKeeps(x: Session, r: ReapResult)
    ensures Keeps(x, x.Reap(r))
  {
  }

  lemma SweptKeeps(x: Session, i: Input)
    requires i.ShutMark? || i.ShutForce? || i.ShutPoll?
    ensures Keeps(x, Swept(i, x))
  {
  }

  lemma PollKeeps(x: Session, p: PollInput)
    ensures Keeps(x, PollSession(x, p).0)
  {
    var a := Expire(x.(lastUsed := p.now), p.idle);
    assert Keeps(x, a);
    ReapKeeps(a, p.reap);
    assert Keeps(a.Reap(p.reap), Force(a.Reap(p.reap), p.graceOver));
  }

  lemma StepEvolves(c: Core, pc: Pc, had: bool, has: bool)
    requires Steps(pc) && CoreOk(c) && Known(c, pc) && ShutPromise(c, pc)
    requires pc.ShutLock? ==> has && !had
    ensures var c' := StepEffect(c, pc).core; CoreOk(c') && CoreEvolves(c, c', had, has)
  {
    var c' := StepEffect(c, pc).core;
    match pc
    case RemoveTable(h, _, _) =>
      if h in c.table {
        DropEvolves(c, h, had, has);
      } else {
        SameEvolves(c, had, has);
      }
    case RemoveRelease(sid, _) => PutEvolves(c, sid, c.sessions[sid].Release(), had, has);
    case ReaperRelease(sid) => PutEvolves(c, sid, c.sessions[sid].Release(), had, has);
    case ShutService => FlagEvolves(c, c', had, has);
    case ShutServiceLock => FlagEvolves(c, c', had, has);
    case ShutClose => FlagEvolves(c, c', had, has);
    case ShutLock => FlagEvolves(c, c', had, has);
    case _ => SameEvolves(c, had, has);
  }

  lemma InsertEvolves(c: Core, h: Handle, sid: Sid, x: Session, had: bool, has: bool)
    requires CoreOk(c) && !c.passed && |c.table| < c.maxSessions && sid !in c.sessions && SessionOk(x) && had
    ensures var c' := c.Put(sid, x).(table := c.table[h := sid]);
            CoreOk(c') && CoreEvolves(c, c', had, has)
  {
    assert c.table[h := sid].Keys == c.table.Keys + {h};
  }

  predicate TouchesSession(i: Input) {
    i.Reaped? || i.MarkInput? || i.Poll? || i.ShutMark? || i.ShutForce? || i.ShutPoll?
  }

  /** The session an input is about. */
  function Target(pc: Pc, i: Input): Sid
    requires TouchesSession(i)
    requires pc.EvictExit? ==> |pc.probes| < |pc.order|
    requires pc.EvictExit? || pc.CheckExit? || pc.Reaping? || pc.WriteMark? || pc.Waiting?
          || i.ShutMark? || i.ShutForce? || i.ShutPoll?
  {
    if i.ShutMark? || i.ShutForce? || i.ShutPoll? then i.sid
    else if pc.EvictExit? then pc.order[|pc.probes|].1
    else pc.sid
  }

  lemma TouchKeeps(c: Core, pc: Pc, i: Input) returns (x': Session)
    requires Known(c, pc) && c.TableKnown() && Ready(c, pc, i) && TouchesSession(i)
    ensures Target(pc, i) in c.sessions && Keeps(c.sessions[Target(pc, i)], x')
    ensures React(c, pc, i).core == c.Put(Target(pc, i), x')
  {
    var x := c.sessions[Target(pc, i)];
    if i.Poll? {
      PollKeeps(x, i.poll);
      x' := PollSession(x, i.poll).0;
    } else if i.Reaped? {
      ReapKeeps(x, i.reap);
      x' := x.Reap(i.reap);
    } else if i.MarkInput? {
      x' := x.(lastUsed := i.now);
      x' := if pc.kill then x'.Mark() else x';
    } else {
      ReapKeeps(x, i.reap);
      SweptKeeps(x.Reap(i.reap), i);
      x' := Swept(i, x.Reap(i.reap));
    }
  }

  lemma TouchEvolves(c: Core, pc: Pc, i: Input, had: bool, has: bool)
    requires CoreOk(c) && Known(c, pc) && Ready(c, pc, i) && TouchesSession(i)
    ensures var c' := React(c, pc, i).core; CoreOk(c') && CoreEvolves(c, c', had, has)
  {
    var x' := TouchKeeps(c, pc, i);
    PutEvolves(c, Target(pc, i), x', had, has);
  }

  lemma CoreStep(c: Core, pc: Pc, i: Input, had: bool, has: bool)
    requires CoreOk(c) && Fine(c, pc) && Ready(c, pc, i)
    requires (had <==> HoldsLock(pc)) && (pc.ShutLock? ==> has)
    ensures var c' := React(c, pc, i).core; CoreOk(c') && CoreEvolves(c, c', had, has)
  {
    if TouchesSession(i) {
      TouchEvolves(c, pc, i, had, has);
    } else {
      match i
      case Step => StepEvolves(c, pc, had, has);
      case Insert(h, sid, owned, now) => InsertEvolves(c, h, sid, NewSession(owned, now), had, has);
      case ShutClear =>
      case _ => SameEvolves(c, had, has);
    }
  }

  // ----- promises to the threads that did not move -----

  lemma CandidateKept(c: Core, c': Core, left: nat, h: Handle, sid: Sid)
    requires SessionsAdvance(c, c') && Shrinks(c, c') && Candidate(c, left, h, sid)
    ensures Candidate(c', left, h, sid)
  {
    SmallerSet(c'.table.Keys - {h}, c.table.Keys - {h});
  }

  lemma RoundKept(c: Core, c': Core, left: nat, order: seq<(Handle, Sid)>, probes: seq<Probe>, best: Option<Probe>)
    requires SessionsAdvance(c, c') && Shrinks(c, c') && RoundOk(c, left, order, probes, best)
    ensures RoundOk(c', left, order, probes, best)
  {
    forall x | x in order ensures Candidate(c', left, x.0, x.1) {
      CandidateKept(c, c', left, x.0, x.1);
    }
    forall k | 0 <= k < |probes| ensures ProbeOf(c', probes[k], order[k]) {
      assert ProbeOf(c, probes[k], order[k]);
    }
  }

  lemma HolderKept(c: Core, c': Core, pc: Pc)
    requires SessionsAdvance(c, c') && Shrinks(c, c') && c'.maxSessions == c.maxSessions
    requires Admitted(pc) && HolderPromise(c, pc) && !c'.passed
    ensures HolderPromise(c', pc)
  {
    ShrinkCard(c, c');
    match pc
    case EvictProbe(left, order, probes, best) => RoundKept(c, c', left, order, probes, best);
    case EvictExit(left, order, probes, best, _) => RoundKept(c, c', left, order, probes, best);
    case _ =>
  }

  lemma FineKept(c: Core, c': Core, pc: Pc, had: bool, has: bool)
    requires CoreEvolves(c, c', had, has) && Fine(c, pc)
    requires HoldsLock(pc) ==> !had && !has
    ensures Fine(c', pc)
  {
    assert Known(c', pc);
    if Admitted(pc) {
      HolderKept(c, c', pc);
    }
  }

  // ----- promises to the thread that moved -----

  lemma Without<T>(a: set<T>, x: T)
    ensures x in a ==> |a - {x}| == |a| - 1
    ensures x !in a ==> a - {x} == a
  {
  }

  lemma CollectFine(c: Core, left: nat, order: seq<(Handle, Sid)>)
    requires Lists(order, c.table) && |c.table| <= left && c.TableKnown()
    ensures RoundOk(c, left, order, [], None)
  {
    forall x | x in order ensures Candidate(c, left, x.0, x.1) {
      Without(c.table.Keys, x.0);
    }
  }

  lemma ResumeFine(c: Core, h: Handle, left: nat)
    requires !c.passed && Slack(c, left, h) && h !in c.table
    ensures left > 0 && |c.table| <= left - 1
  {
    Without(c.table.Keys, h);
  }

  lemma CountFine(c: Core, left: nat)
    requires CoreOk(c) && Fine(c, EvictCount(left))
    ensures Fine(c, ExecInsert) || |c.table| >= c.maxSessions
    ensures Fine(c, EvictCollect(left))
  {
  }

  /** The victim of a complete round is settled, and its handle is listed. */
  lemma VictimFine(c: Core, left: nat, order: seq<(Handle, Sid)>, probes: seq<Probe>, best: Probe)
    requires CoreOk(c) && Fine(c, EvictProbe(left, order, probes, Some(best)))
    ensures Fine(c, RemoveLookup(best.handle, Evicting(left)))
  {
    var k :| 0 <= k < |probes| && probes[k] == best;
    assert ProbeOf(c, best, order[k]) && order[k] in order;
    assert Candidate(c, left, best.handle, best.sid) && IsSettled(c, best.sid);
  }

  lemma NextProbeFine(c: Core, left: nat, order: seq<(Handle, Sid)>, probes: seq<Probe>, best: Option<Probe>, used: int)
    requires Fine(c, EvictProbe(left, order, probes, best)) && |probes| < |order|
    ensures Fine(c, EvictExit(left, order, probes, best, used))
  {
  }

  lemma EvictStepFine(c: Core, pc: Pc)
    requires CoreOk(c) && Fine(c, pc) && (pc.EvictCount? || pc.EvictProbe?)
    ensures var e := StepEffect(c, pc); Fine(e.core, e.pc)
  {
    match pc
    case EvictCount(left) => CountFine(c, left);
    case EvictProbe(left, order, probes, best) =>
      if |probes| < |order| {
        NextProbeFine(c, left, order, probes, best, c.sessions[order[|probes|].1].lastUsed);
      } else if best.Some? {
        VictimFine(c, left, order, probes, best.value);
      }
  }

  lemma LookupFine(c: Core, h: Handle, left: nat)
    requires CoreOk(c) && Fine(c, RemoveLookup(h, Evicting(left)))
    ensures var e := StepEffect(c, RemoveLookup(h, Evicting(left))); Fine(e.core, e.pc)
  {
    if h !in c.table {
      ResumeFine(c, h, left);
    }
  }

  lemma TableFine(c: Core, h: Handle, sid: Sid, left: nat)
    requires CoreOk(c) && Fine(c, RemoveTable(h, sid, Evicting(left)))
    ensures var e := StepEffect(c, RemoveTable(h, sid, Evicting(left))); Fine(e.core, e.pc)
  {
    if h !in c.table {
      ResumeFine(c, h, left);
    } else {
      assert (c.table - {h}).Keys == c.table.Keys - {h};
    }
  }

  lemma EndFine(c: Core, pc: Pc)
    requires CoreOk(c) && Fine(c, pc) && (pc.RemoveEnd? || pc.RemoveRelease?) && pc.after.Evicting?
    ensures var e := StepEffect(c, pc); Fine(e.core, e.pc)
  {
  }

  lemma RemoveStepFine(c: Core, pc: Pc)
    requires CoreOk(c) && Fine(c, pc) && (pc.RemoveLookup? || pc.RemoveEnd? || pc.RemoveTable? || pc.RemoveRelease?)
    requires pc.after.Evicting?
    ensures var e := StepEffect(c, pc); Fine(e.core, e.pc)
  {
    match pc
    case RemoveLookup(h, after) => LookupFine(c, h, after.left);
    case RemoveTable(h, sid, after) => TableFine(c, h, sid, after.left);
    case RemoveEnd(_, _, _) => EndFine(c, pc);
    case RemoveRelease(_, _) => EndFine(c, pc);
  }

  lemma GateStepFine(c: Core, pc: Pc)
    requires CoreOk(c) && Fine(c, pc) && (HoldsBarrier(pc) || pc.ExecRecheck? || pc.ExecUnlock?)
    ensures var e := StepEffect(c, pc); Fine(e.core, e.pc)
  {
  }

  lemma ShutStepFine(c: Core, pc: Pc)
    requires CoreOk(c) && Fine(c, pc)
    requires pc.ShutService? || pc.ShutServiceLock? || pc.ShutClose? || pc.ShutLock? || pc.ShutUnlock? || pc.ShutSnapshot?
    ensures var e := StepEffect(c, pc); Fine(e.core, e.pc)
  {
  }

  /** Steps that end where the core owes nothing. */
  lemma FreeStepFine(c: Core, pc: Pc)
    requires CoreOk(c) && Fine(c, pc) && Steps(pc)
    requires !HoldsLock(pc) && !HoldsBarrier(pc)
    requires !(pc.ShutService? || pc.ShutServiceLock? || pc.ShutClose? || pc.ShutLock? || pc.ShutSnapshot?)
    ensures var e := StepEffect(c, pc); Fine(e.core, e.pc)
  {
    var e := StepEffect(c, pc);
    assert !Admitted(e.pc) && ShutPromise(e.core, e.pc);
    assert e.core.sessions.Keys == c.sessions.Keys;
    assert Known(e.core, e.pc);
  }

  lemma StepFine(c: Core, pc: Pc)
    requires CoreOk(c) && Fine(c, pc) && Steps(pc)
    ensures var e := StepEffect(c, pc); Fine(e.core, e.pc)
  {
    if pc.EvictCount? || pc.EvictProbe? {
      EvictStepFine(c, pc);
    } else if Admitted(pc) {
      RemoveStepFine(c, pc);
    } else if pc.ShutService? || pc.ShutServiceLock? || pc.ShutClose? || pc.ShutLock? || pc.ShutUnlock? || pc.ShutSnapshot? {
      ShutStepFine(c, pc);
    } else if HoldsBarrier(pc) || HoldsLock(pc) {
      GateStepFine(c, pc);
    } else {
      FreeStepFine(c, pc);
    }
  }

  lemma RoundGrows(
    c: Core, left: nat, order: seq<(Handle, Sid)>, probes: seq<Probe>, best: Option<Probe>, p: Probe)
    requires RoundOk(c, left, order, probes, best) && |probes| < |order| && ProbeOf(c, p, order[|probes|])
    ensures RoundOk(c, left, order, probes + [p], Better(best, p))
  {
    OldestKept(probes, best, p);
  }

  /** The candidate in hand has been asked whether it exited. */
  lemma ProbeFine(c: Core, pc: Pc, r: ReapResult)
    requires CoreOk(c) && Fine(c, pc) && pc.EvictExit? && r.ok
    ensures var e := ReapedEffect(c, pc, r); Fine(e.core, e.pc)
  {
    var (h, sid) := pc.order[|pc.probes|];
    ReapKeeps(c.sessions[sid], r);
    var c' := c.Put(sid, c.sessions[sid].Reap(r));
    RoundKept(c, c', pc.left, pc.order, pc.probes, pc.best);
    var p := Probe(h, sid, pc.used, c'.sessions[sid].Settled());
    RoundGrows(c', pc.left, pc.order, pc.probes, pc.best, p);
    var pc' := EvictProbe(pc.left, pc.order, pc.probes + [p], Better(pc.best, p));
    assert Known(c', pc') && HolderPromise(c', pc');
    assert ReapedEffect(c, pc, r) == Effect(c', pc');
  }

  lemma OldestKept(probes: seq<Probe>, best: Option<Probe>, p: Probe)
    requires Oldest(probes, best)
    ensures Oldest(probes + [p], Better(best, p))
  {
  }

  lemma SettledGrows(c: Core, runtimes: set<Sid>, settled: set<Sid>, sid: Sid)
    requires Fine(c, ShutSweep(runtimes, settled)) && IsSettled(c, sid)
    ensures Fine(c, ShutSweep(runtimes, settled + {sid}))
  {
  }

  lemma SweepLands(c: Core, pc: Pc, i: Input)
    requires (i.ShutMark? || i.ShutForce? || i.ShutPoll?) && Ready(c, pc, i) && Known(c, pc)
    ensures var e := SweepEffect(c, pc, i);
            || e.pc == Done || e.pc == pc
            || (e.pc == ShutSweep(pc.runtimes, pc.settled + {i.sid}) && IsSettled(e.core, i.sid))
  {
  }

  lemma DoneFine(c: Core)
    ensures Fine(c, Done)
  {
  }

  lemma SweepFine(c: Core, c': Core, pc: Pc, pc': Pc, sid: Sid)
    requires Fine(c, pc) && pc.ShutSweep? && CoreEvolves(c, c', false, false)
    requires pc' == Done || pc' == pc || (pc' == ShutSweep(pc.runtimes, pc.settled + {sid}) && IsSettled(c', sid))
    ensures Fine(c', pc')
  {
    FineKept(c, c', pc, false, false);
    if pc' == Done {
      DoneFine(c');
    } else if pc' != pc {
      SettledGrows(c', pc.runtimes, pc.settled, sid);
    }
  }

  lemma PlainFine(c: Core, pc: Pc, i: Input)
    requires CoreOk(c) && Fine(c, pc) && Ready(c, pc, i)
    requires !i.Step? && !i.Collect? && !pc.ShutSweep? && (pc.EvictExit? ==> !i.reap.ok)
    ensures var e := React(c, pc, i); Fine(e.core, e.pc)
  {
    var e := React(c, pc, i);
    assert !Admitted(e.pc) && ShutPromise(e.core, e.pc);
    assert Known(e.core, e.pc);
  }

  lemma MovedFine(c: Core, pc: Pc, i: Input)
    requires CoreOk(c) && Fine(c, pc) && Ready(c, pc, i)
    requires CoreEvolves(c, React(c, pc, i).core, HoldsLock(pc), HoldsLock(React(c, pc, i).pc))
    ensures var e := React(c, pc, i); Fine(e.core, e.pc)
  {
    var e := React(c, pc, i);
    if i.Step? {
      StepFine(c, pc);
    } else if i.Collect? {
      CollectFine(c, pc.left, i.order);
    } else if pc.ShutSweep? {
      if i.ShutMark? || i.ShutForce? || i.ShutPoll? {
        SweepLands(c, pc, i);
        SweepFine(c, e.core, pc, e.pc, i.sid);
      }
    } else if pc.EvictExit? && i.reap.ok {
      ProbeFine(c, pc, i.reap);
    } else {
      PlainFine(c, pc, i);
    }
  }

  // ----- the invariant is kept -----

  lemma LockKept(s: State, s': State, t: Tid, pc: Pc)
    requires LockOk(s) && s'.threads == s.threads[t := pc]
    requires HoldsLock(pc) && !HoldsLock(s.At(t)) ==> s.lock.None?
    requires HoldsBarrier(pc) && !HoldsBarrier(s.At(t)) ==> s.barrier.None?
    requires s'.lock == Held(s.lock, t, HoldsLock(s.At(t)), HoldsLock(pc))
    requires s'.barrier == Held(s.barrier, t, HoldsBarrier(s.At(t)), HoldsBarrier(pc))
    ensures LockOk(s')
  {
    forall u: nat
      ensures (HoldsLock(s'.At(u)) <==> s'.lock == Some(u)) && (HoldsBarrier(s'.At(u)) <==> s'.barrier == Some(u))
    {
      assert u != t ==> s'.At(u) == s.At(u);
    }
  }

  lemma Assemble(s: State, s': State, t: Tid, e: Effect)
    requires Inv(s) && CoreOk(e.core) && Fine(e.core, e.pc)
    requires CoreEvolves(s.core, e.core, HoldsLock(s.At(t)), HoldsLock(e.pc))
    requires HoldsLock(e.pc) && !HoldsLock(s.At(t)) ==> s.lock.None?
    requires s'.core == e.core && s'.threads == s.threads[t := e.pc] && LockOk(s')
    ensures Inv(s')
  {
    var had, has := HoldsLock(s.At(t)), HoldsLock(e.pc);
    forall u: nat ensures Fine(s'.core, s'.At(u)) {
      if u != t {
        assert s'.At(u) == s.At(u);
        assert HoldsLock(s.At(u)) ==> s.lock == Some(u);
        assert had ==> s.lock == Some(t);
        FineKept(s.core, s'.core, s.At(u), had, has);
      }
    }
  }

  /** Every step of every thread keeps the invariant, and moves the core only
      forward. */
  lemma InvStep(s: State, a: Action)
    requires Inv(s) && Enabled(s, a)
    ensures Inv(Apply(s, a))
    ensures CoreEvolves(s.core, Apply(s, a).core, HoldsLock(s.At(a.t)), HoldsLock(Apply(s, a).At(a.t)))
  {
    var pc := s.At(a.t);
    var e := React(s.core, pc, a.input);
    CoreStep(s.core, pc, a.input, HoldsLock(pc), HoldsLock(e.pc));
    MovedFine(s.core, pc, a.input);
    LockKept(s, Apply(s, a), a.t, e.pc);
    Assemble(s, Apply(s, a), a.t, e);
  }
}
