/**
 Ownership of command processes: it ends at most once in every run, and only on
 final evidence in every run in which no command is given a handle that is just
 being removed.  If no handle of an unsettled session is given away either, a
 shutdown that succeeds has left nothing behind.  Handles are random and never
 checked, so these are assumptions; SessionHandles shows that they are exact.
 */
module SessionOwnership {
  import opened Results
  import opened Sessions
  import opened SessionSafety
  import opened SessionTheorems

  // ----- the invariant -----

  /** What is not settled is in the table, under one handle. */
  ghost predicate Tracked(c: Core) {
    && (forall sid | sid in c.sessions :: c.sessions[sid].Settled() || sid in c.table.Values)
    && (forall g, h | g in c.table && h in c.table && c.table[g] == c.table[h] :: g == h)
  }

  /** Released means settled; and the table can be relied upon, if it is to. */
  ghost predicate OwnCore(c: Core, tracked: bool) {
    && (forall sid | sid in c.sessions :: c.sessions[sid].released ==> c.sessions[sid].Settled())
    && (tracked ==> Tracked(c))
  }

  /** A removal under way still names the session it looked up. */
  ghost predicate OwnPc(c: Core, pc: Pc) {
    match pc
    case RemoveEnd(h, sid, _) => h in c.table ==> c.table[h] == sid
    case RemoveTable(h, sid, _) => (h in c.table ==> c.table[h] == sid) && IsSettled(c, sid)
    case RemoveRelease(sid, _) => IsSettled(c, sid)
    case ReaperRelease(sid) => IsSettled(c, sid)
    case _ => true
  }

  ghost predicate OwnInv(s: State, tracked: bool) {
    OwnCore(s.core, tracked) && forall t: nat :: OwnPc(s.core, s.At(t))
  }

  /** Past the lookup of `remove_session`, not yet past the removal. */
  predicate Removes(pc: Pc, h: Handle) {
    (pc.RemoveEnd? || pc.RemoveTable?) && pc.handle == h
  }

  ghost predicate Removing(s: State, h: Handle) {
    exists t: nat :: Removes(s.At(t), h)
  }

  /** The handle names a session that is not settled. */
  ghost predicate NamesUnsettled(c: Core, h: Handle) {
    h in c.table && !IsSettled(c, c.table[h])
  }

  /** An insertion, if it is one, takes a handle that is not under removal, nor,
      if the table is to be relied upon, that of an unsettled session. */
  ghost predicate TakesFree(s: State, i: Input, tracked: bool) {
    i.Insert? ==> !Removing(s, i.handle) && (tracked ==> !NamesUnsettled(s.core, i.handle))
  }

  /** Table entries are old ones, except under `taken`. */
  ghost predicate TableFrom(c: Core, c': Core, taken: Option<Handle>) {
    && SessionsAdvance(c, c')
    && forall h | h in c'.table && Some(h) != taken :: h in c.table && c'.table[h] == c.table[h]
  }

  function Taken(i: Input): Option<Handle> { if i.Insert? then Some(i.handle) else None }

  lemma OwnPcKept(c: Core, c': Core, pc: Pc, taken: Option<Handle>)
    requires TableFrom(c, c', taken) && OwnPc(c, pc) && (taken.Some? ==> !Removes(pc, taken.value))
    ensures OwnPc(c', pc)
  {
  }

  // ----- one step -----

  /** One session changes, the table stays. */
  lemma PutOwn(c: Core, sid: Sid, x: Session, tracked: bool)
    requires OwnCore(c, tracked) && sid in c.sessions && Advances(c.sessions[sid], x) && (x.released ==> x.Settled())
    ensures OwnCore(c.Put(sid, x), tracked) && TableFrom(c, c.Put(sid, x), None)
  {
  }

  lemma DropOwn(c: Core, h: Handle, tracked: bool)
    requires OwnCore(c, tracked) && c.TableKnown() && (h in c.table ==> IsSettled(c, c.table[h]))
    ensures var c' := c.(table := c.table - {h}); OwnCore(c', tracked) && TableFrom(c, c', None)
  {
    var c' := c.(table := c.table - {h});
    forall sid | tracked && sid in c.sessions && !c.sessions[sid].Settled() ensures sid in c'.table.Values {
      var g :| g in c.table && c.table[g] == sid;
      assert g in c'.table && c'.table[g] == sid;
    }
  }

  lemma InsertOwn(c: Core, h: Handle, sid: Sid, x: Session, tracked: bool)
    requires OwnCore(c, tracked) && c.TableKnown() && sid !in c.sessions && !x.released
    requires tracked ==> !NamesUnsettled(c, h)
    ensures var c' := c.Put(sid, x).(table := c.table[h := sid]);
            OwnCore(c', tracked) && TableFrom(c, c', Some(h))
  {
    var c' := c.Put(sid, x).(table := c.table[h := sid]);
    if tracked {
      InsertTracked(c, h, sid, x);
    }
  }

  lemma InsertTracked(c: Core, h: Handle, sid: Sid, x: Session)
    requires Tracked(c) && c.TableKnown() && sid !in c.sessions && !NamesUnsettled(c, h)
    ensures Tracked(c.Put(sid, x).(table := c.table[h := sid]))
  {
    var c' := c.Put(sid, x).(table := c.table[h := sid]);
    assert c'.table[h] == sid;
    forall other | other in c.sessions && !c.sessions[other].Settled() ensures other in c'.table.Values {
      var g :| g in c.table && c.table[g] == other;
      assert g in c'.table && c'.table[g] == other;
    }
  }

  lemma AllSettled(c: Core, pc: Pc)
    requires OwnCore(c, true) && Fine(c, pc) && pc.ShutSweep? && pc.runtimes <= pc.settled
    ensures forall sid | sid in c.sessions :: c.sessions[sid].Settled()
  {
    forall sid | sid in c.sessions ensures c.sessions[sid].Settled() {
      if sid in c.table.Values {
        var h :| h in c.table && c.table[h] == sid;
        assert IsSettled(c, sid);
      }
    }
  }

  lemma ClearOwn(c: Core, pc: Pc, tracked: bool)
    requires OwnCore(c, tracked) && Fine(c, pc) && pc.ShutSweep? && pc.runtimes <= pc.settled
    ensures var c' := c.(table := map[]); OwnCore(c', tracked) && TableFrom(c, c', None)
  {
    if tracked {
      AllSettled(c, pc);
    }
  }

  lemma SameOwn(c: Core)
    ensures TableFrom(c, c, None)
  {
  }

  lemma FlagOwn(c: Core, c': Core, tracked: bool)
    requires OwnCore(c, tracked) && c'.sessions == c.sessions && c'.table == c.table
    ensures OwnCore(c', tracked) && TableFrom(c, c', None)
  {
  }

  lemma StepOwnCore(c: Core, pc: Pc, tracked: bool)
    requires Steps(pc) && CoreOk(c) && Known(c, pc) && OwnCore(c, tracked) && OwnPc(c, pc)
    ensures var c' := StepEffect(c, pc).core; OwnCore(c', tracked) && TableFrom(c, c', None)
  {
    if pc.RemoveTable? && pc.handle in c.table {
      DropOwn(c, pc.handle, tracked);
    } else if pc.RemoveRelease? || pc.ReaperRelease? {
      PutOwn(c, pc.sid, c.sessions[pc.sid].Release(), tracked);
    } else {
      FlagOwn(c, StepEffect(c, pc).core, tracked);
    }
  }

  lemma TouchOwn(c: Core, pc: Pc, i: Input, tracked: bool)
    requires CoreOk(c) && Known(c, pc) && Ready(c, pc, i) && TouchesSession(i) && OwnCore(c, tracked)
    ensures var c' := React(c, pc, i).core; OwnCore(c', tracked) && TableFrom(c, c', None)
  {
    var x' := TouchKeeps(c, pc, i);
    PutOwn(c, Target(pc, i), x', tracked);
  }

  lemma OwnCoreStep(c: Core, pc: Pc, i: Input, tracked: bool)
    requires CoreOk(c) && Fine(c, pc) && Ready(c, pc, i) && OwnCore(c, tracked) && OwnPc(c, pc)
    requires i.Insert? && tracked ==> !NamesUnsettled(c, i.handle)
    ensures var c' := React(c, pc, i).core; OwnCore(c', tracked) && TableFrom(c, c', Taken(i))
  {
    if TouchesSession(i) {
      TouchOwn(c, pc, i, tracked);
    } else {
      match i
      case Step => StepOwnCore(c, pc, tracked);
      case Insert(h, sid, owned, now) => InsertOwn(c, h, sid, NewSession(owned, now), tracked);
      case ShutClear => ClearOwn(c, pc, tracked);
      case _ => SameOwn(c);
    }
  }

  lemma StepOwnPc(c: Core, pc: Pc)
    requires Steps(pc) && CoreOk(c) && Known(c, pc) && OwnPc(c, pc)
    ensures var e := StepEffect(c, pc); OwnPc(e.core, e.pc)
  {
    var e := StepEffect(c, pc);
    if !(pc.RemoveLookup? || pc.RemoveEnd? || pc.RemoveTable? || pc.RemoveRelease?) {
      assert !(e.pc.RemoveEnd? || e.pc.RemoveTable? || e.pc.RemoveRelease? || e.pc.ReaperRelease?);
    }
  }

  lemma OwnPcStep(c: Core, pc: Pc, i: Input)
    requires CoreOk(c) && Fine(c, pc) && Ready(c, pc, i) && OwnPc(c, pc)
    ensures var e := React(c, pc, i); OwnPc(e.core, e.pc)
  {
    var e := React(c, pc, i);
    if i.Step? {
      StepOwnPc(c, pc);
    } else {
      assert !(e.pc.RemoveEnd? || e.pc.RemoveTable? || e.pc.RemoveRelease?);
      assert e.pc.ReaperRelease? ==> IsSettled(e.core, e.pc.sid);
    }
  }

  lemma OwnStep(s: State, a: Action, tracked: bool)
    requires Inv(s) && OwnInv(s, tracked) && Enabled(s, a) && TakesFree(s, a.input, tracked)
    ensures OwnInv(Apply(s, a), tracked)
  {
    var pc := s.At(a.t);
    assert Fine(s.core, pc) && OwnPc(s.core, pc);
    OwnCoreStep(s.core, pc, a.input, tracked);
    OwnPcStep(s.core, pc, a.input);
    OwnAssemble(s, Apply(s, a), a.t, React(s.core, pc, a.input), Taken(a.input), tracked);
  }

  lemma OwnAssemble(s: State, s': State, t: Tid, e: Effect, taken: Option<Handle>, tracked: bool)
    requires OwnInv(s, tracked) && OwnCore(e.core, tracked) && OwnPc(e.core, e.pc) && TableFrom(s.core, e.core, taken)
    requires taken.Some? ==> !Removing(s, taken.value)
    requires s'.core == e.core && s'.threads == s.threads[t := e.pc]
    ensures OwnInv(s', tracked)
  {
    forall u: nat ensures OwnPc(s'.core, s'.At(u)) {
      if u != t {
        assert s'.At(u) == s.At(u);
        assert taken.Some? ==> !Removes(s.At(u), taken.value);
        OwnPcKept(s.core, s'.core, s.At(u), taken);
      }
    }
  }

  // ----- every path on which handles are free -----

  ghost predicate FreeHandles(states: seq<State>, actions: seq<Action>, tracked: bool)
    requires |states| == |actions| + 1
  {
    forall i | 0 <= i < |actions| :: TakesFree(states[i], actions[i].input, tracked)
  }

  lemma {:induction false} PathOwn(states: seq<State>, actions: seq<Action>, i: nat, tracked: bool)
    requires Path(states, actions) && FreeHandles(states, actions, tracked) && i < |states|
    requires Inv(states[0]) && OwnInv(states[0], tracked)
    ensures Inv(states[i]) && OwnInv(states[i], tracked)
  {
    if i > 0 {
      PathOwn(states, actions, i - 1, tracked);
      assert StepAt(states, actions, i - 1);
      InvStep(states[i - 1], actions[i - 1]);
      OwnStep(states[i - 1], actions[i - 1], tracked);
    }
  }

  lemma RunOwn(states: seq<State>, actions: seq<Action>, i: nat, tracked: bool)
    requires Run(states, actions) && FreeHandles(states, actions, tracked) && i < |states|
    ensures OwnInv(states[i], tracked)
  {
    RunInv(states, actions, 0);
    PathOwn(states, actions, i, tracked);
  }

  /** Ownership of a session ends at most once, in every run: it has ended, for
      an owned one, exactly when it was released. */
  lemma OwnershipEndsAtMostOnce(states: seq<State>, actions: seq<Action>, i: nat, sid: Sid)
    requires Run(states, actions) && i < |states| && sid in states[i].core.sessions
    ensures var x := states[i].core.sessions[sid]; x.ends == if x.released && x.owned then 1 else 0
  {
    RunInv(states, actions, i);
    assert SessionOk(states[i].core.sessions[sid]);
  }

  /** When ownership of a session has ended, its leader is reaped and no group
      member is left. */
  ghost predicate EndsLast(x: Session) {
    x.ends > 0 ==> x.Settled()
  }

  lemma OwnershipEndsLast(states: seq<State>, actions: seq<Action>, i: nat, sid: Sid)
    requires Run(states, actions) && FreeHandles(states, actions, false)
    requires i < |states| && sid in states[i].core.sessions
    ensures EndsLast(states[i].core.sessions[sid])
  {
    RunOwn(states, actions, i, false);
    OwnershipEndsAtMostOnce(states, actions, i, sid);
    RunInv(states, actions, i);
    assert SessionOk(states[i].core.sessions[sid]);
  }

  /** When a shutdown reports success, every command ever admitted has been
      reaped with its whole group, and no session is added or revived later. */
  lemma CleanShutdown(states: seq<State>, actions: seq<Action>, i: nat, j: nat)
    requires Run(states, actions) && FreeHandles(states, actions, true)
    requires i < j < |states| && actions[i].input.ShutClear?
    ensures states[j].core.table == map[]
    ensures forall sid | sid in states[i].core.sessions :: IsSettled(states[j].core, sid)
  {
    RunInv(states, actions, i);
    RunOwn(states, actions, i, true);
    assert StepAt(states, actions, i);
    var pc := states[i].At(actions[i].t);
    assert Fine(states[i].core, pc) && Ready(states[i].core, pc, ShutClear);
    ClearEffect(states[i].core, pc);
    RunLater(states, actions, i + 1, j);
  }

  lemma ClearEffect(c: Core, pc: Pc)
    requires OwnCore(c, true) && Fine(c, pc) && pc.ShutSweep? && pc.runtimes <= pc.settled && c.TableKnown()
    ensures React(c, pc, ShutClear) == Effect(c.(table := map[]), Done) && c.passed
    ensures forall sid | sid in c.sessions :: c.sessions[sid].Settled()
  {
    AllSettled(c, pc);
  }
}
