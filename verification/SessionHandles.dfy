/**
 What becomes of a run in which a command is given a handle that is in use: the
 assumptions of SessionOwnership are exact.  From an insertion on, some
 continuation ends the ownership of a running command if and only if the handle
 was under removal; and some continuation lets a shutdown succeed over a running
 command if and only if the handle was under removal or named an unsettled
 session.  Both kinds of insertion are reachable.
 */
module SessionHandles {
  import opened Results
  import opened Sessions
  import opened SessionSafety
  import opened SessionTheorems
  import opened SessionOwnership

  // ----- going on from a state -----

  /** `s` comes after `p` on a path that takes only free handles. */
  ghost predicate Leads(p: State, s: State, tracked: bool) {
    exists states, actions ::
      Path(states, actions) && FreeHandles(states, actions, tracked) && states[0] == p && states[|actions|] == s
  }

  lemma LeadsNowhere(p: State, tracked: bool)
    ensures Leads(p, p, tracked)
  {
    var states: seq<State>, actions: seq<Action> := [p], [];
    assert Path(states, actions) && FreeHandles(states, actions, tracked) && states[|actions|] == p;
  }

  lemma Extend(states: seq<State>, actions: seq<Action>, a: Action, tracked: bool)
    requires Path(states, actions) && FreeHandles(states, actions, tracked)
    requires Enabled(states[|actions|], a) && TakesFree(states[|actions|], a.input, tracked)
    ensures Path(states + [Apply(states[|actions|], a)], actions + [a])
    ensures FreeHandles(states + [Apply(states[|actions|], a)], actions + [a], tracked)
  {
    var states', actions' := states + [Apply(states[|actions|], a)], actions + [a];
    forall i: nat | i < |actions'| ensures StepAt(states', actions', i) {
      if i < |actions| {
        assert StepAt(states, actions, i);
      }
    }
    forall i | 0 <= i < |actions'| ensures TakesFree(states'[i], actions'[i].input, tracked) {
      if i < |actions| {
        assert TakesFree(states[i], actions[i].input, tracked);
      }
    }
  }

  lemma LeadsOn(start: State, p: State, a: Action, tracked: bool)
    requires Leads(start, p, tracked) && Enabled(p, a) && TakesFree(p, a.input, tracked)
    ensures Leads(start, Apply(p, a), tracked)
  {
    var states, actions :| Path(states, actions) && FreeHandles(states, actions, tracked)
      && states[0] == start && states[|actions|] == p;
    Extend(states, actions, a, tracked);
    var states', actions' := states + [Apply(p, a)], actions + [a];
    assert states'[0] == start && states'[|actions'|] == Apply(p, a);
  }

  lemma LeadsOwn(p: State, s: State, tracked: bool)
    requires Inv(p) && OwnInv(p, tracked) && Leads(p, s, tracked)
    ensures Inv(s) && OwnInv(s, tracked)
  {
    var states, actions :| Path(states, actions) && FreeHandles(states, actions, tracked)
      && states[0] == p && states[|actions|] == s;
    PathOwn(states, actions, |actions|, tracked);
  }

  /** The states that can be reached from somewhere, whatever they are. */
  type Reach = State -> bool

  ghost predicate Closes(reach: Reach, p: State, a: Action) {
    reach(p) && Enabled(p, a) && TakesFree(p, a.input, true) ==> reach(Apply(p, a))
  }

  ghost predicate Steady(reach: Reach) {
    forall p, a :: Closes(reach, p, a)
  }

  ghost function LeadsFrom(start: State, tracked: bool): (reach: Reach)
    ensures Steady(reach) && reach(start)
    ensures forall s :: reach(s) <==> Leads(start, s, tracked)
  {
    var reach: Reach := s => Leads(start, s, tracked);
    LeadsNowhere(start, tracked);
    assert Steady(reach) by {
      forall p, a ensures Closes(reach, p, a) {
        if reach(p) && Enabled(p, a) && TakesFree(p, a.input, true) {
          LeadsOn(start, p, a, tracked);
        }
      }
    }
    reach
  }

  /** One more step of `t`, whose effect is known. */
  lemma Go(reach: Reach, p: State, t: Tid, i: Input, e: Effect) returns (s: State)
    requires Steady(reach) && reach(p) && TakesFree(p, i, true)
    requires Ready(p.core, p.At(t), i) && Known(p.core, p.At(t)) && p.core.TableKnown()
    requires React(p.core, p.At(t), i) == e
    requires HoldsLock(e.pc) && !HoldsLock(p.At(t)) ==> p.lock.None?
    requires HoldsBarrier(e.pc) && !HoldsBarrier(p.At(t)) ==> p.barrier.None?
    ensures reach(s) && s.core == e.core && s.At(t) == e.pc
    ensures s.lock == Held(p.lock, t, HoldsLock(p.At(t)), HoldsLock(e.pc))
    ensures s.barrier == Held(p.barrier, t, HoldsBarrier(p.At(t)), HoldsBarrier(e.pc))
    ensures forall u: nat | u != t :: s.At(u) == p.At(u)
  {
    s := Apply(p, Action(t, i));
    assert Closes(reach, p, Action(t, i));
  }

  lemma GoStep(reach: Reach, p: State, t: Tid, pc: Pc, c': Core, pc': Pc) returns (s: State)
    requires Steady(reach) && reach(p) && p.At(t) == pc && Steps(pc) && Known(p.core, pc) && p.core.TableKnown()
    requires StepEffect(p.core, pc) == Effect(c', pc')
    requires HoldsLock(pc') && !HoldsLock(pc) ==> p.lock.None?
    requires HoldsBarrier(pc') && !HoldsBarrier(pc) ==> p.barrier.None?
    ensures reach(s) && s.core == c' && s.At(t) == pc'
    ensures s.lock == Held(p.lock, t, HoldsLock(pc), HoldsLock(pc'))
    ensures s.barrier == Held(p.barrier, t, HoldsBarrier(pc), HoldsBarrier(pc'))
    ensures forall u: nat | u != t :: s.At(u) == p.At(u)
  {
    s := Go(reach, p, t, Step, Effect(c', pc'));
  }

  // ----- a handle under removal -----

  /** The newcomer `sid` is in the table under a handle whose removal goes on. */
  ghost predicate Exposed(s: State, u: Tid, h: Handle, sid: Sid, x: Session) {
    && s.core.TableKnown() && h in s.core.table && s.core.table[h] == sid
    && (forall g | g in s.core.table && s.core.table[g] == sid :: g == h)
    && s.core.sessions[sid] == x
    && Removes(s.At(u), h) && s.At(u).after == Leaving && s.At(u).sid in s.core.sessions && s.At(u).sid != sid
  }

  /** It was released and is in no table. */
  ghost predicate Dropped(p: State, s: State, sid: Sid, x: Session) {
    && s.core.TableKnown() && sid !in s.core.table.Values
    && sid in s.core.sessions && s.core.sessions[sid] == x.Release()
    && s.lock == p.lock && s.barrier == p.barrier
  }

  lemma TakenOut(c: Core, h: Handle, sid: Sid)
    requires c.TableKnown() && forall g | g in c.table && c.table[g] == sid :: g == h
    ensures var c' := c.(table := c.table - {h}); c'.TableKnown() && sid !in c'.table.Values
  {
  }

  lemma TableReleases(reach: Reach, p: State, u: Tid, h: Handle, sid: Sid, x: Session) returns (s: State)
    requires Steady(reach) && reach(p) && Exposed(p, u, h, sid, x) && p.At(u).RemoveTable?
    ensures reach(s) && Dropped(p, s, sid, x)
  {
    var c := p.core.(table := p.core.table - {h});
    TakenOut(p.core, h, sid);
    var q := GoStep(reach, p, u, RemoveTable(h, p.At(u).sid, Leaving), c, RemoveRelease(sid, Leaving));
    s := ReleaseFollows(reach, q, u, sid, x);
  }

  lemma ReleaseFollows(reach: Reach, p: State, u: Tid, sid: Sid, x: Session) returns (s: State)
    requires Steady(reach) && reach(p) && p.At(u) == RemoveRelease(sid, Leaving) && p.core.TableKnown()
    requires sid in p.core.sessions && p.core.sessions[sid] == x && sid !in p.core.table.Values
    ensures reach(s) && Dropped(p, s, sid, x)
  {
    s := GoStep(reach, p, u, RemoveRelease(sid, Leaving), p.core.Put(sid, x.Release()), Done);
  }

  lemma EndReleases(reach: Reach, p: State, u: Tid, h: Handle, sid: Sid, x: Session) returns (s: State)
    requires Steady(reach) && reach(p) && Exposed(p, u, h, sid, x)
    requires p.At(u).RemoveEnd? && IsSettled(p.core, p.At(u).sid)
    ensures reach(s) && Dropped(p, s, sid, x)
  {
    var q := GoStep(reach, p, u, RemoveEnd(h, p.At(u).sid, Leaving), p.core, RemoveTable(h, p.At(u).sid, Leaving));
    s := TableReleases(reach, q, u, h, sid, x);
  }

  lemma FreeThread(s: State) returns (t: Tid)
    ensures t !in s.threads
  {
    t := Above(s.threads.Keys);
  }

  lemma {:induction false} Above(a: set<nat>) returns (n: nat)
    ensures forall x | x in a :: x < n
    decreases a
  {
    n := 0;
    if a != {} {
      var x :| x in a;
      var m := Above(a - {x});
      n := if m > x then m else x + 1;
      forall y | y in a ensures y < n {
        assert y == x || y in a - {x};
      }
    }
  }

  /** A reaper finds a session gone, with its group. */
  lemma ReaperSettles(reach: Reach, p: State, k: Tid, was: Sid) returns (s: State)
    requires Steady(reach) && reach(p) && p.core.TableKnown() && was in p.core.sessions && k !in p.threads
    ensures reach(s) && s.lock == p.lock && s.barrier == p.barrier && forall v: nat | v != k :: s.At(v) == p.At(v)
    ensures s.core == p.core.Put(was, p.core.sessions[was].Reap(ReapResult(true, 0, true)))
  {
    s := Go(reach, p, k, StartReaper(was), Effect(p.core, Reaping(was)));
    s := ReaperFinds(reach, s, k, was);
  }

  lemma ReaperFinds(reach: Reach, p: State, k: Tid, was: Sid) returns (s: State)
    requires Steady(reach) && reach(p) && p.core.TableKnown() && was in p.core.sessions && p.At(k) == Reaping(was)
    ensures reach(s) && s.lock == p.lock && s.barrier == p.barrier && forall v: nat | v != k :: s.At(v) == p.At(v)
    ensures s.core == p.core.Put(was, p.core.sessions[was].Reap(ReapResult(true, 0, true)))
  {
    var r := ReapResult(true, 0, true);
    s := Go(reach, p, k, Reaped(r), Effect(p.core.Put(was, p.core.sessions[was].Reap(r)), ReaperRelease(was)));
  }

  lemma Settle(reach: Reach, p: State, u: Tid, h: Handle, sid: Sid, x: Session) returns (s: State)
    requires Steady(reach) && reach(p) && Exposed(p, u, h, sid, x)
    ensures reach(s) && Exposed(s, u, h, sid, x) && s.At(u) == p.At(u) && IsSettled(s.core, s.At(u).sid)
    ensures s.lock == p.lock && s.barrier == p.barrier
  {
    var k := FreeThread(p);
    assert u != k;
    s := ReaperSettles(reach, p, k, p.At(u).sid);
  }

  lemma Undone(reach: Reach, p: State, u: Tid, h: Handle, sid: Sid, x: Session) returns (s: State)
    requires Steady(reach) && reach(p) && Exposed(p, u, h, sid, x)
    ensures reach(s) && Dropped(p, s, sid, x)
  {
    if p.At(u).RemoveTable? {
      s := TableReleases(reach, p, u, h, sid, x);
    } else {
      var q := Settle(reach, p, u, h, sid, x);
      s := EndReleases(reach, q, u, h, sid, x);
    }
  }

  lemma InsertExposes(p: State, a: Action, u: Tid)
    requires Inv(p) && Enabled(p, a) && a.input.Insert? && Removes(p.At(u), a.input.handle)
    ensures Exposed(Apply(p, a), u, a.input.handle, a.input.sid, NewSession(a.input.owned, a.input.now))
  {
    assert Fine(p.core, p.At(u));
    assert HoldsLock(p.At(a.t)) && !Removes(p.At(a.t), a.input.handle);
    assert p.At(u).after == Leaving by {
      assert HoldsLock(p.At(u)) <==> p.lock == Some(u);
      assert HoldsLock(p.At(a.t)) <==> p.lock == Some(a.t);
    }
  }

  /** Inserting a command can end the ownership of a running command, on a path
      that is careful from then on, exactly when its handle is under removal. */
  lemma InsertionGoesWrongIffUnderRemoval(p: State, a: Action)
    requires Inv(p) && OwnInv(p, false) && Enabled(p, a) && a.input.Insert? && a.input.owned
    ensures Removing(p, a.input.handle)
       <==> exists s, sid :: Leads(Apply(p, a), s, false) && sid in s.core.sessions && !EndsLast(s.core.sessions[sid])
  {
    var q := Apply(p, a);
    if Removing(p, a.input.handle) {
      var u: nat :| Removes(p.At(u), a.input.handle);
      InsertExposes(p, a, u);
      var s := Undone(LeadsFrom(q, false), q, u, a.input.handle, a.input.sid, NewSession(true, a.input.now));
      assert !EndsLast(s.core.sessions[a.input.sid]);
    } else {
      InvStep(p, a);
      OwnStep(p, a, false);
      forall s, sid | Leads(q, s, false) && sid in s.core.sessions ensures EndsLast(s.core.sessions[sid]) {
        LeadsOwn(q, s, false);
        assert SessionOk(s.core.sessions[sid]);
      }
    }
  }

  // ----- a session in no table -----

  /** Unsettled, and out of sight of every shutdown to come. */
  ghost predicate Astray(c: Core, sid: Sid) {
    sid in c.sessions && !c.sessions[sid].Settled() && sid !in c.table.Values
  }

  /** The holder of the service barrier moves on. */
  lemma BarrierReleased(reach: Reach, p: State) returns (s: State)
    requires Steady(reach) && reach(p) && Inv(p)
    ensures reach(s) && s.core == p.core && s.lock == p.lock && s.barrier.None?
    ensures forall v: nat | !HoldsBarrier(p.At(v)) :: s.At(v) == p.At(v)
  {
    s := p;
    if p.barrier.Some? {
      var u := p.barrier.value;
      assert HoldsBarrier(p.At(u)) <==> p.barrier == Some(u);
      if p.At(u).ShutServiceUnlock? {
        s := GoStep(reach, p, u, ShutServiceUnlock, p.core, ShutClose);
      } else {
        s := CallPassesService(reach, p, u, p.At(u).request);
      }
    }
  }

  lemma CallPassesService(reach: Reach, p: State, u: Tid, q: Request) returns (s: State)
    requires Steady(reach) && reach(p) && p.core.TableKnown() && p.At(u) == ServiceRecheck(q)
    ensures reach(s) && s.core == p.core && s.lock == p.lock && s.barrier.None?
    ensures forall v: nat | v != u :: s.At(v) == p.At(v)
  {
    var next := if p.core.serviceClosed then Done else if q.ExecRequest? then ExecCheck else WriteFind(q.handle, q.kill);
    s := GoStep(reach, p, u, ServiceRecheck(q), p.core, next);
  }

  lemma LockReleased(reach: Reach, p: State, t: Tid, h: Handle, sid: Sid) returns (s: State)
    requires Steady(reach) && reach(p) && p.core.TableKnown() && p.At(t) == ExecUnlock(h, sid) && sid in p.core.sessions
    ensures reach(s) && s.core == p.core && s.lock.None? && s.barrier == p.barrier
    ensures forall v: nat | v != t :: s.At(v) == p.At(v)
  {
    s := GoStep(reach, p, t, ExecUnlock(h, sid), p.core, Waiting(h, sid));
  }

  lemma RemovalsHoldNothing(pc: Pc, h: Handle)
    requires Removes(pc, h)
    ensures !HoldsBarrier(pc) && !pc.ExecUnlock?
  {
  }

  /** After an insertion both gates can be free with nothing else changed. */
  lemma Quietened(reach: Reach, p: State, t: Tid, h: Handle, sid: Sid) returns (s: State)
    requires Steady(reach) && reach(p) && Inv(p) && p.At(t) == ExecUnlock(h, sid)
    ensures reach(s) && s.core == p.core && s.lock.None? && s.barrier.None?
    ensures forall v: nat | Removes(p.At(v), h) :: s.At(v) == p.At(v)
  {
    assert Fine(p.core, p.At(t));
    var q := BarrierReleased(reach, p);
    s := LockReleased(reach, q, t, h, sid);
    forall v: nat | Removes(p.At(v), h) ensures s.At(v) == p.At(v) {
      RemovalsHoldNothing(p.At(v), h);
    }
  }

  lemma ServiceCloses(reach: Reach, p: State, k: Tid) returns (s: State)
    requires Steady(reach) && reach(p) && p.core.TableKnown() && p.At(k) == Done
    ensures reach(s) && s.lock == p.lock && s.barrier == p.barrier && s.At(k) == ShutServiceLock
    ensures s.core == p.core.(serviceClosed := true)
  {
    s := Go(reach, p, k, StartShutdown, Effect(p.core, ShutService));
    s := GoStep(reach, s, k, ShutService, p.core.(serviceClosed := true), ShutServiceLock);
  }

  lemma ServicePassed(reach: Reach, p: State, k: Tid) returns (s: State)
    requires Steady(reach) && reach(p) && p.core.TableKnown() && p.barrier.None? && p.At(k) == ShutServiceLock
    ensures reach(s) && s.lock == p.lock && s.At(k) == ShutClose
    ensures s.core == p.core.(servicePassed := true)
  {
    var c := p.core.(servicePassed := true);
    s := GoStep(reach, p, k, ShutServiceLock, c, ShutServiceUnlock);
    s := GoStep(reach, s, k, ShutServiceUnlock, c, ShutClose);
  }

  lemma AdmissionCloses(reach: Reach, p: State, k: Tid) returns (s: State)
    requires Steady(reach) && reach(p) && p.core.TableKnown() && p.lock.None? && p.At(k) == ShutClose
    ensures reach(s) && s.At(k) == ShutUnlock && s.core == p.core.(closed := true, passed := true)
  {
    s := GoStep(reach, p, k, ShutClose, p.core.(closed := true), ShutLock);
    s := GoStep(reach, s, k, ShutLock, p.core.(closed := true, passed := true), ShutUnlock);
  }

  lemma SnapshotTaken(reach: Reach, p: State, k: Tid) returns (s: State)
    requires Steady(reach) && reach(p) && p.core.TableKnown() && p.At(k) == ShutUnlock
    ensures reach(s) && s.At(k) == ShutSweep(p.core.table.Values, {}) && s.core == p.core
  {
    s := GoStep(reach, p, k, ShutUnlock, p.core, ShutSnapshot);
    s := GoStep(reach, s, k, ShutSnapshot, p.core, ShutSweep(p.core.table.Values, {}));
  }

  /** A shutdown sweeps sessions that do not include `x`. */
  ghost predicate Sweeps(s: State, k: Tid, runtimes: set<Sid>, settled: set<Sid>, x: Sid) {
    && s.core.TableKnown() && s.At(k) == ShutSweep(runtimes, settled) && runtimes <= s.core.sessions.Keys
    && x !in runtimes && x in s.core.sessions && !s.core.sessions[x].Settled()
  }

  lemma SweepOne(reach: Reach, p: State, k: Tid, runtimes: set<Sid>, settled: set<Sid>, x: Sid, sid: Sid)
    returns (s: State)
    requires Steady(reach) && reach(p) && Sweeps(p, k, runtimes, settled, x) && sid in runtimes
    ensures reach(s) && Sweeps(s, k, runtimes, settled + {sid}, x)
  {
    var r := ReapResult(true, 0, true);
    var y := p.core.sessions[sid].Reap(r);
    s := Go(reach, p, k, ShutPoll(sid, r), Effect(p.core.Put(sid, y.Release()), ShutSweep(runtimes, settled + {sid})));
  }

  lemma {:induction false} SweepAll(
    reach: Reach, p: State, k: Tid, runtimes: set<Sid>, settled: set<Sid>, x: Sid) returns (s: State)
    requires Steady(reach) && reach(p) && Sweeps(p, k, runtimes, settled, x)
    ensures reach(s) && MisledBy(s, k, x)
    decreases runtimes - settled
  {
    if runtimes <= settled {
      s := p;
      CanClear(p, k, runtimes, settled);
    } else {
      var sid :| sid in runtimes && sid !in settled;
      var q := SweepOne(reach, p, k, runtimes, settled, x, sid);
      assert sid in runtimes - settled && sid !in runtimes - (settled + {sid});
      s := SweepAll(reach, q, k, runtimes, settled + {sid}, x);
    }
  }

  lemma CanClear(p: State, k: Tid, runtimes: set<Sid>, settled: set<Sid>)
    requires p.core.TableKnown() && p.At(k) == ShutSweep(runtimes, settled) && runtimes <= p.core.sessions.Keys
    requires runtimes <= settled
    ensures Enabled(p, Action(k, ShutClear))
  {
  }

  /** A shutdown may report success, and `sid` is not settled. */
  ghost predicate MisledBy(s: State, k: Tid, sid: Sid) {
    Enabled(s, Action(k, ShutClear)) && sid in s.core.sessions && !s.core.sessions[sid].Settled()
  }

  /** A session in no table outlives a shutdown that sweeps all the others. */
  lemma ShutDownOver(reach: Reach, p: State, x: Sid) returns (s: State, k: Tid)
    requires Steady(reach) && reach(p) && p.core.TableKnown() && p.lock.None? && p.barrier.None? && Astray(p.core, x)
    ensures reach(s) && MisledBy(s, k, x)
  {
    k := FreeThread(p);
    s := SnapshotReached(reach, p, k);
    s := SweepAll(reach, s, k, p.core.table.Values, {}, x);
  }

  lemma SnapshotReached(reach: Reach, p: State, k: Tid) returns (s: State)
    requires Steady(reach) && reach(p) && p.core.TableKnown() && p.lock.None? && p.barrier.None? && p.At(k) == Done
    ensures reach(s) && s.At(k) == ShutSweep(p.core.table.Values, {})
    ensures s.core.table == p.core.table && s.core.sessions == p.core.sessions
  {
    s := ServiceCloses(reach, p, k);
    s := ServicePassed(reach, s, k);
    s := AdmissionCloses(reach, s, k);
    s := SnapshotTaken(reach, s, k);
  }

  lemma OverwriteLeavesAstray(p: State, a: Action)
    requires Inv(p) && OwnInv(p, true) && Enabled(p, a) && a.input.Insert? && NamesUnsettled(p.core, a.input.handle)
    ensures Astray(Apply(p, a).core, p.core.table[a.input.handle])
  {
    var c, h := p.core, a.input.handle;
    var c' := Apply(p, a).core;
    assert c'.table == c.table[h := a.input.sid];
    forall g | g in c'.table ensures c'.table[g] != c.table[h] {
      if g != h {
        assert g in c.table && c.table[g] == c'.table[g];
      }
    }
  }

  /** Some careful continuation lets a shutdown succeed over a running command. */
  ghost predicate CanMislead(q: State) {
    exists s, k: nat, sid: nat :: Leads(q, s, true) && MisledBy(s, k, sid)
  }

  lemma OverwriteMisleads(p: State, a: Action)
    requires Inv(p) && OwnInv(p, true) && Enabled(p, a) && a.input.Insert? && NamesUnsettled(p.core, a.input.handle)
    ensures CanMislead(Apply(p, a))
  {
    var q := Apply(p, a);
    InvStep(p, a);
    OverwriteLeavesAstray(p, a);
    var reach := LeadsFrom(q, true);
    var s := Quietened(reach, q, a.t, a.input.handle, a.input.sid);
    var end, k := ShutDownOver(reach, s, p.core.table[a.input.handle]);
    assert Leads(q, end, true);
  }

  lemma RemovalMisleads(p: State, a: Action, u: Tid)
    requires Inv(p) && Enabled(p, a) && a.input.Insert? && Removes(p.At(u), a.input.handle)
    ensures CanMislead(Apply(p, a))
  {
    var q, x := Apply(p, a), NewSession(a.input.owned, a.input.now);
    InvStep(p, a);
    InsertExposes(p, a, u);
    var reach := LeadsFrom(q, true);
    var s := Quietened(reach, q, a.t, a.input.handle, a.input.sid);
    assert s.At(u) == q.At(u);
    s := Undone(reach, s, u, a.input.handle, a.input.sid, x);
    var end, k := ShutDownOver(reach, s, a.input.sid);
    assert Leads(q, end, true);
  }

  lemma NotMisledHere(s: State, k: Tid, sid: Sid)
    requires Inv(s) && OwnInv(s, true)
    ensures !MisledBy(s, k, sid)
  {
    assert Fine(s.core, s.At(k));
    if s.At(k).ShutSweep? && s.At(k).runtimes <= s.At(k).settled {
      AllSettled(s.core, s.At(k));
    } else {
      CannotClear(s, k);
    }
  }

  lemma CannotClear(s: State, k: Tid)
    requires !(s.At(k).ShutSweep? && s.At(k).runtimes <= s.At(k).settled)
    ensures !Enabled(s, Action(k, ShutClear))
  {
  }

  lemma CarefulIsNotMisled(q: State)
    requires Inv(q) && OwnInv(q, true)
    ensures !CanMislead(q)
  {
    forall s, k: nat, sid: nat | Leads(q, s, true) ensures !MisledBy(s, k, sid) {
      LeadsOwn(q, s, true);
      NotMisledHere(s, k, sid);
    }
  }

  /** From an insertion on, some continuation that is careful from then on lets
      a shutdown succeed over a running command if and only if the handle was
      under removal or named an unsettled session. */
  lemma ShutdownMisleadsIffHandleInUse(p: State, a: Action)
    requires Inv(p) && OwnInv(p, true) && Enabled(p, a) && a.input.Insert?
    ensures Removing(p, a.input.handle) || NamesUnsettled(p.core, a.input.handle) <==> CanMislead(Apply(p, a))
  {
    if Removing(p, a.input.handle) {
      var u: nat :| Removes(p.At(u), a.input.handle);
      RemovalMisleads(p, a, u);
    } else if NamesUnsettled(p.core, a.input.handle) {
      OverwriteMisleads(p, a);
    } else {
      InvStep(p, a);
      OwnStep(p, a, true);
      CarefulIsNotMisled(Apply(p, a));
    }
  }

  // ----- such insertions are reachable -----

  const START: State := Initial(2)

  /** No thread is in a gate, and there is room. */
  ghost predicate Quiet(s: State) {
    && s.lock.None? && s.barrier.None? && !s.core.serviceClosed && !s.core.closed
    && |s.core.table| < s.core.maxSessions && s.core.TableKnown()
  }

  ghost predicate SameBut(s: State, s': State, t: Tid) {
    s'.core == s.core && forall u: nat | u != t :: s'.At(u) == s.At(u)
  }

  lemma ThroughService(reach: Reach, p: State, t: Tid, q: Request) returns (s: State)
    requires Steady(reach) && reach(p) && Quiet(p) && p.At(t) == ServiceCheck(q)
    ensures reach(s) && SameBut(p, s, t) && Quiet(s)
    ensures s.At(t) == if q.ExecRequest? then ExecCheck else WriteFind(q.handle, q.kill)
  {
    s := GoStep(reach, p, t, ServiceCheck(q), p.core, ServiceLock(q));
    s := GoStep(reach, s, t, ServiceLock(q), p.core, ServiceRecheck(q));
    s := GoStep(reach, s, t, ServiceRecheck(q), p.core, if q.ExecRequest? then ExecCheck else WriteFind(q.handle, q.kill));
  }

  lemma ThroughAdmission(reach: Reach, p: State, t: Tid) returns (s: State)
    requires Steady(reach) && reach(p) && Quiet(p) && p.At(t) == ExecCheck
    ensures reach(s) && SameBut(p, s, t) && s.At(t) == ExecInsert && s.lock == Some(t) && s.barrier.None?
  {
    s := GoStep(reach, p, t, ExecCheck, p.core, ExecLock);
    s := GoStep(reach, s, t, ExecLock, p.core, ExecRecheck);
    s := GoStep(reach, s, t, ExecRecheck, p.core, EvictCount(|p.core.table|));
    s := GoStep(reach, s, t, EvictCount(|p.core.table|), p.core, ExecInsert);
  }

  const H: Handle := "h"

  /** Undisturbed, an exec call reaches its insertion. */
  lemma Prepare(reach: Reach, p: State, t: Tid) returns (s: State)
    requires Steady(reach) && reach(p) && Quiet(p) && p.At(t) == Done
    ensures reach(s) && SameBut(p, s, t) && s.At(t) == ExecInsert && s.lock == Some(t) && s.barrier.None?
  {
    s := Go(reach, p, t, StartCall(ExecRequest), Effect(p.core, ServiceCheck(ExecRequest)));
    s := ThroughService(reach, s, t, ExecRequest);
    s := ThroughAdmission(reach, s, t);
  }

  /** Undisturbed, a write reaches the session its handle names, and kills it if
      it is to. */
  lemma WriteArrives(reach: Reach, p: State, t: Tid, h: Handle, kill: bool, now: int) returns (s: State)
    requires Steady(reach) && reach(p) && Quiet(p) && p.At(t) == Done && h in p.core.table
    ensures reach(s) && s.At(t) == Waiting(h, p.core.table[h]) && forall u: nat | u != t :: s.At(u) == p.At(u)
    ensures var x := p.core.sessions[p.core.table[h]].(lastUsed := now);
            s.core == p.core.Put(p.core.table[h], if kill then x.Mark() else x)
  {
    var q := WriteRequest(h, kill);
    s := Go(reach, p, t, StartCall(q), Effect(p.core, ServiceCheck(q)));
    s := ThroughService(reach, s, t, q);
    s := WriteMarks(reach, s, t, h, kill, now);
  }

  lemma WriteMarks(reach: Reach, p: State, t: Tid, h: Handle, kill: bool, now: int) returns (s: State)
    requires Steady(reach) && reach(p) && p.core.TableKnown() && p.At(t) == WriteFind(h, kill) && h in p.core.table
    ensures reach(s) && s.At(t) == Waiting(h, p.core.table[h]) && forall u: nat | u != t :: s.At(u) == p.At(u)
    ensures var x := p.core.sessions[p.core.table[h]].(lastUsed := now);
            s.core == p.core.Put(p.core.table[h], if kill then x.Mark() else x)
  {
    var sid := p.core.table[h];
    var x := p.core.sessions[sid].(lastUsed := now);
    s := GoStep(reach, p, t, WriteFind(h, kill), p.core, WriteMark(h, sid, kill));
    s := Go(reach, s, t, MarkInput(now, true), Effect(p.core.Put(sid, if kill then x.Mark() else x), Waiting(h, sid)));
  }

  function WithFirst(c: Core): Core {
    c.Put(0, NewSession(true, 0)).(table := c.table[H := 0])
  }

  lemma FirstInserted(reach: Reach) returns (s: State)
    requires Steady(reach) && reach(START)
    ensures reach(s) && s.core == WithFirst(START.core) && s.At(0) == ExecUnlock(H, 0)
    ensures s.lock == Some(0) && s.barrier.None? && forall u: nat | u != 0 :: s.At(u) == Done
  {
    s := Prepare(reach, START, 0);
    forall u: nat ensures !Removes(s.At(u), H) {
      assert u != 0 ==> s.At(u) == START.At(u);
    }
    s := Go(reach, s, 0, Insert(H, 0, true, 0), Effect(WithFirst(START.core), ExecUnlock(H, 0)));
  }

  /** The first command exits at once, and its caller sees that. */
  lemma FirstExits(reach: Reach, p: State) returns (s: State)
    requires Steady(reach) && reach(p) && Quiet(p) && p.At(0) == Waiting(H, 0)
    requires 0 in p.core.sessions && p.core.sessions[0] == NewSession(true, 0)
    ensures reach(s) && s.At(0) == CheckExit(H, 0) && s.lock.None? && s.barrier.None?
    ensures s.core == p.core.Put(0, NewSession(true, 0).(reaped := true))
    ensures forall u: nat | u != 0 :: s.At(u) == p.At(u)
  {
    var input := PollInput(0, false, false, false, ReapResult(true, 0, true), false);
    var x := NewSession(true, 0);
    assert PollSession(x, input) == (x.(reaped := true), Exited(Exit));
    s := Go(reach, p, 0, Poll(input), Effect(p.core.Put(0, x.(reaped := true)), CheckExit(H, 0)));
  }

  /** The first command is still in the table, settled. */
  ghost predicate FirstSettled(c: Core) {
    && c.TableKnown() && H in c.table && c.table[H] == 0
    && c.sessions[0] == NewSession(true, 0).(reaped := true)
  }

  lemma FirstChecked(reach: Reach, p: State) returns (s: State)
    requires Steady(reach) && reach(p) && FirstSettled(p.core) && p.At(0) == CheckExit(H, 0)
    ensures reach(s) && SameBut(p, s, 0) && s.At(0) == RemoveLookup(H, Leaving)
    ensures s.lock == p.lock && s.barrier == p.barrier
  {
    var r, y := ReapResult(true, 0, true), p.core.sessions[0];
    assert y.Reap(r) == y && p.core.Put(0, y) == p.core;
    s := Go(reach, p, 0, Reaped(r), Effect(p.core, RemoveLookup(H, Leaving)));
  }

  /** The caller is about to take the handle out of the table. */
  lemma FirstLeaves(reach: Reach, p: State) returns (s: State)
    requires Steady(reach) && reach(p) && FirstSettled(p.core) && p.At(0) == RemoveLookup(H, Leaving)
    ensures reach(s) && SameBut(p, s, 0) && s.At(0) == RemoveTable(H, 0, Leaving)
    ensures s.lock == p.lock && s.barrier == p.barrier
  {
    s := GoStep(reach, p, 0, RemoveLookup(H, Leaving), p.core, RemoveEnd(H, 0, Leaving));
    s := GoStep(reach, s, 0, RemoveEnd(H, 0, Leaving), p.core, RemoveTable(H, 0, Leaving));
  }

  lemma FirstAdmitted(reach: Reach) returns (s: State)
    requires Steady(reach) && reach(START)
    ensures reach(s) && Quiet(s) && s.At(0) == Waiting(H, 0) && forall u: nat | u != 0 :: s.At(u) == Done
    ensures s.core.table == map[H := 0] && s.core.sessions == map[0 := NewSession(true, 0)]
  {
    s := FirstInserted(reach);
    FirstCore(s.core);
    s := FirstUnlocks(reach, s);
  }

  lemma FirstCore(c: Core)
    requires c == WithFirst(START.core)
    ensures c.table == map[H := 0] && c.sessions == map[0 := NewSession(true, 0)]
    ensures c.TableKnown() && !c.closed && !c.serviceClosed && c.maxSessions == 2
  {
  }

  lemma FirstUnlocks(reach: Reach, p: State) returns (s: State)
    requires Steady(reach) && reach(p) && p.core.TableKnown() && 0 in p.core.sessions && p.At(0) == ExecUnlock(H, 0) && p.lock == Some(0)
    ensures reach(s) && SameBut(p, s, 0) && s.At(0) == Waiting(H, 0) && s.lock.None? && s.barrier == p.barrier
  {
    s := GoStep(reach, p, 0, ExecUnlock(H, 0), p.core, Waiting(H, 0));
  }

  lemma FirstGone(reach: Reach) returns (s: State)
    requires Steady(reach) && reach(START)
    ensures reach(s) && Quiet(s) && s.At(0) == CheckExit(H, 0) && s.At(1) == Done
    ensures FirstSettled(s.core) && 1 !in s.core.sessions
  {
    s := FirstAdmitted(reach);
    s := FirstExits(reach, s);
  }

  lemma FirstCommand(reach: Reach) returns (s: State)
    requires Steady(reach) && reach(START)
    ensures reach(s) && Quiet(s) && s.At(0) == RemoveTable(H, 0, Leaving) && s.At(1) == Done
    ensures 0 in s.core.sessions && 1 !in s.core.sessions
  {
    s := FirstGone(reach);
    s := FirstChecked(reach, s);
    s := FirstLeaves(reach, s);
  }

  /** Ownership of a running command ends when a second command is given the
      handle of a first one that is just being removed: `remove_session` takes
      out whatever the handle names by then. */
  lemma RepeatedHandleReleasesRunningCommand() returns (p: State, s: State)
    ensures Leads(START, p, true) && Removing(p, H) && Enabled(p, Action(1, Insert(H, 1, true, 0)))
    ensures Leads(Apply(p, Action(1, Insert(H, 1, true, 0))), s, true)
    ensures 1 in s.core.sessions && s.core.sessions[1].ends == 1 && !s.core.sessions[1].reaped
  {
    p := SecondAtTheDoor(LeadsFrom(START, true));
    var q := Apply(p, Action(1, Insert(H, 1, true, 0)));
    s := Undone(LeadsFrom(q, true), q, 0, H, 1, NewSession(true, 0));
  }

  lemma SecondAtTheDoor(reach: Reach) returns (p: State)
    requires Steady(reach) && reach(START)
    ensures reach(p) && Removing(p, H) && Enabled(p, Action(1, Insert(H, 1, true, 0)))
    ensures Exposed(Apply(p, Action(1, Insert(H, 1, true, 0))), 0, H, 1, NewSession(true, 0))
  {
    p := FirstCommand(reach);
    p := Prepare(reach, p, 1);
    assert Removes(p.At(0), H);
  }

  lemma SecondPrepared(reach: Reach) returns (s: State)
    requires Steady(reach) && reach(START)
    ensures reach(s) && s.core.TableKnown() && NamesUnsettled(s.core, H)
    ensures Enabled(s, Action(1, Insert(H, 1, true, 0)))
  {
    s := FirstAdmitted(reach);
    s := Prepare(reach, s, 1);
  }

  lemma StartIsFine()
    ensures Inv(START) && OwnInv(START, true)
  {
  }

  /** A shutdown can report success while a command is still running, if its
      handle is given to a second command. */
  lemma OverwrittenSessionOutlivesShutdown() returns (p: State)
    ensures Leads(START, p, true) && NamesUnsettled(p.core, H)
    ensures Enabled(p, Action(1, Insert(H, 1, true, 0))) && CanMislead(Apply(p, Action(1, Insert(H, 1, true, 0))))
  {
    p := SecondPrepared(LeadsFrom(START, true));
    StartIsFine();
    LeadsOwn(START, p, true);
    OverwriteMisleads(p, Action(1, Insert(H, 1, true, 0)));
  }
}
