/**
 The registry of owned command processes that a runtime keeps on disk for its
 successor (src/local/process_registry.rs).

 Publishing the file may fail before or after the rename, so after an error the
 file is the old one or the next one while the memory keeps the old records.
 Whatever fails, the file vouches for every process still owed to it, and a
 successor's cleanup accounts for all of them.
 */
module ProcessRegistry {
  import opened Results
  import opened Processes
  import opened StaleProcesses
  import opened Whitespace

  datatype Entry = Entry(session: nat, record: Record)

  datatype Fault = NoFault | BeforeRename | AfterRename

  /** What was promised for a session: its leader, and the group members last
      published, unless a later publication of members failed. */
  datatype Owed = Owed(leader: Identity, members: Option<seq<Identity>>)

  /** Every entry but the session's. */
  function Retain(entries: seq<Entry>, session: nat): (r: seq<Entry>)
    ensures forall e :: e in r <==> e in entries && e.session != session
    ensures DistinctSessions(entries) ==> DistinctSessions(r)
  {
    if entries == [] then []
    else if entries[0].session == session then Retain(entries[1..], session)
    else [entries[0]] + Retain(entries[1..], session)
  }

  predicate DistinctSessions(entries: seq<Entry>) {
    forall i, j | 0 <= i < j < |entries| :: entries[i].session != entries[j].session
  }

  /** `next` has the entries of the other sessions, and the session's own with
      new members. */
  ghost predicate Renewed(entries: seq<Entry>, next: seq<Entry>, session: nat, members: seq<Identity>) {
    && (forall e | e in entries && e.session != session :: e in next)
    && forall e | e in entries && e.session == session :: Entry(session, e.record.(groupMembers := members)) in next
  }

  /** Set the group members of the first entry for the session. */
  function WithMembers(entries: seq<Entry>, session: nat, members: seq<Identity>): (r: seq<Entry>)
    ensures |r| == |entries| && forall i | 0 <= i < |r| :: r[i].session == entries[i].session
    ensures DistinctSessions(entries) ==> DistinctSessions(r) && Renewed(entries, r, session, members)
    ensures DistinctSessions(entries) ==> forall i | 0 <= i < |r| ::
      r[i] == if entries[i].session == session then Entry(session, entries[i].record.(groupMembers := members)) else entries[i]
  {
    if entries == [] then []
    else if entries[0].session == session then
      [Entry(session, entries[0].record.(groupMembers := members))] + entries[1..]
    else [entries[0]] + WithMembers(entries[1..], session, members)
  }

  function RecordsOf(entries: seq<Entry>): (r: seq<Record>)
    ensures |r| == |entries| && forall i | 0 <= i < |r| :: r[i] == entries[i].record
  {
    seq(|entries|, i requires 0 <= i < |entries| => entries[i].record)
  }

  ghost predicate Vouches(entries: seq<Entry>, session: nat, owed: Owed) {
    exists e | e in entries ::
      && e.session == session && e.record.identity == owed.leader
      && (owed.members.Some? ==> e.record.groupMembers == owed.members.value)
  }

  ghost predicate VouchesAll(entries: seq<Entry>, owed: map<nat, Owed>) {
    forall s | s in owed :: Vouches(entries, s, owed[s])
  }

  class Registry {
    const runtimeId: string
    const fault: nat -> Fault
    var records: seq<Entry>
    /** The file, which is absent when there is nothing to record. */
    var file: Option<seq<Entry>>
    var now: nat
    ghost var owed: map<nat, Owed>

    function OnDisk(): seq<Entry>
      reads this
    {
      if file.Some? then file.value else []
    }

    ghost predicate Valid()
      reads this
    {
      DistinctSessions(records) && VouchesAll(records, owed) && VouchesAll(OnDisk(), owed)
    }

    constructor (runtimeId: string, fault: nat -> Fault)
      ensures this.runtimeId == runtimeId && this.fault == fault
      ensures Valid() && records == [] && file.None? && owed == map[]
    {
      this.runtimeId, this.fault := runtimeId, fault;
      records, file, now, owed := [], None, 0, map[];
    }

    /** A failure before the rename leaves the file, one after it does not. */
    method PersistRecords(next: seq<Entry>) returns (r: Result<()>)
      modifies this`file, this`now
      ensures next == [] && old(file).None? ==> r.Ok? && file.None? && now == old(now)
      ensures !(next == [] && old(file).None?) ==>
        && now == old(now) + 1
        && (r.Err? <==> fault(old(now)).BeforeRename? || (fault(old(now)).AfterRename? && next != []))
        && file == if fault(old(now)).BeforeRename? then old(file) else if next == [] then None else Some(next)
    {
      if next == [] && file.None? {
        return Ok(());
      }
      var f := fault(now);
      now := now + 1;
      if f.BeforeRename? {
        return Err;
      }
      file := if next == [] then None else Some(next);
      return if f.NoFault? || next == [] then Ok(()) else Err;
    }

    /** The memory follows the file only on success. */
    method Update(next: seq<Entry>) returns (r: Result<()>)
      modifies this`records, this`file, this`now
      ensures fault(old(now)).NoFault? ==> r.Ok?
      ensures r.Ok? ==> records == next && OnDisk() == next && (file.None? <==> next == [])
      ensures r.Err? ==> records == old(records)
      ensures r.Err? ==> OnDisk() == if fault(old(now)).BeforeRename? then old(OnDisk()) else next
    {
      var _ :- PersistRecords(next);
      records := next;
      return Ok(());
    }

    /** Once this succeeds the process is owed; a failure owes nothing. */
    method ProcessStarted(session: nat, leader: Identity) returns (r: Result<()>)
      requires Valid()
      modifies this
      ensures Valid()
      ensures owed == if r.Ok? then old(owed)[session := Owed(leader, Some([]))] else old(owed) - {session}
      ensures fault(old(now)).NoFault? ==> r.Ok?
      ensures records == if r.Ok? then Retain(old(records), session) + [Entry(session, Record(leader, []))] else old(records)
      ensures r.Ok? ==> OnDisk() == records
    {
      var next := Retain(records, session) + [Entry(session, Record(leader, []))];
      Replaced(records, next, session, leader, owed);
      Fewer(records, session, owed);
      Fewer(OnDisk(), session, owed);
      r := Update(next);
      owed := if r.Ok? then owed[session := Owed(leader, Some([]))] else owed - {session};
    }

    /** A failure leaves the leader owed, and the members in doubt. */
    method ProcessGroupMembersUpdated(session: nat, members: seq<Identity>) returns (r: Result<()>)
      requires Valid()
      modifies this
      ensures Valid()
      ensures owed == Amend(old(owed), session, if r.Ok? then Some(members) else None)
      ensures fault(old(now)).NoFault? ==> r.Ok?
      ensures records == if r.Ok? then WithMembers(old(records), session, members) else old(records)
      ensures r.Ok? ==> OnDisk() == records
    {
      var next := WithMembers(records, session, members);
      Amended(records, next, session, members, owed);
      if session in owed {
        Weaker(OnDisk(), session, owed);
        Weaker(records, session, owed);
      }
      r := Update(next);
      owed := Amend(owed, session, if r.Ok? then Some(members) else None);
    }

    method ProcessEnded(session: nat) returns (r: Result<()>)
      requires Valid()
      modifies this
      ensures Valid()
      ensures owed == old(owed) - {session}
      ensures fault(old(now)).NoFault? ==> r.Ok?
      ensures records == if r.Ok? then Retain(old(records), session) else old(records)
      ensures r.Ok? ==> OnDisk() == records && forall e | e in OnDisk() :: e.session != session
    {
      var next := Retain(records, session);
      owed := owed - {session};
      OthersKept(records, next, session, owed);
      r := Update(next);
    }

    /** What a successor finds. */
    function File(): (f: RegistryFile)
      reads this
      ensures f.Missing? <==> file.None?
      ensures file.Some? ==> f == Loaded(Document(runtimeId, RecordsOf(OnDisk())))
    {
      if file.None? then Missing
      else Loaded(Document(runtimeId, RecordsOf(file.value)))
    }
  }

  lemma Fewer(entries: seq<Entry>, session: nat, owed: map<nat, Owed>)
    requires VouchesAll(entries, owed)
    ensures VouchesAll(entries, owed - {session})
  {
    forall s | s in owed - {session} ensures Vouches(entries, s, owed[s]) {
    }
  }

  lemma Replaced(entries: seq<Entry>, next: seq<Entry>, session: nat, leader: Identity, owed: map<nat, Owed>)
    requires VouchesAll(entries, owed) && Entry(session, Record(leader, [])) in next
    requires forall e | e in entries && e.session != session :: e in next
    ensures VouchesAll(next, owed - {session}) && VouchesAll(next, owed[session := Owed(leader, Some([]))])
  {
    Fewer(entries, session, owed);
    OthersKept(entries, next, session, owed - {session});
    var more := owed[session := Owed(leader, Some([]))];
    forall s | s in more ensures Vouches(next, s, more[s]) {
      assert s != session ==> s in owed - {session};
    }
  }

  lemma OthersKept(entries: seq<Entry>, next: seq<Entry>, session: nat, owed: map<nat, Owed>)
    requires VouchesAll(entries, owed) && session !in owed
    requires forall e | e in entries && e.session != session :: e in next
    ensures VouchesAll(next, owed)
  {
    forall s | s in owed ensures Vouches(next, s, owed[s]) {
      assert Vouches(entries, s, owed[s]);
    }
  }

  /** Owing only the leader is owing less. */
  lemma Weaker(entries: seq<Entry>, session: nat, owed: map<nat, Owed>)
    requires VouchesAll(entries, owed) && session in owed
    ensures VouchesAll(entries, owed[session := Owed(owed[session].leader, None)])
  {
    var less := owed[session := Owed(owed[session].leader, None)];
    forall s | s in less ensures Vouches(entries, s, less[s]) {
      assert Vouches(entries, s, owed[s]);
    }
  }

  lemma MembersKept(
    entries: seq<Entry>, next: seq<Entry>, session: nat, members: seq<Identity>, owed: map<nat, Owed>)
    requires VouchesAll(entries, owed) && session in owed
    requires Renewed(entries, next, session, members)
    ensures VouchesAll(next, owed[session := Owed(owed[session].leader, Some(members))])
  {
    var more := owed[session := Owed(owed[session].leader, Some(members))];
    forall s | s in more ensures Vouches(next, s, more[s]) {
      assert Vouches(entries, s, owed[s]);
      if s == session {
        var e :| e in entries && e.session == s && e.record.identity == owed[s].leader;
        assert Entry(session, e.record.(groupMembers := members)) in next;
      }
    }
  }

  /** What is owed after the members of a session were published, or not. */
  ghost function Amend(owed: map<nat, Owed>, session: nat, members: Option<seq<Identity>>): map<nat, Owed> {
    if session in owed then owed[session := Owed(owed[session].leader, members)] else owed
  }

  lemma Amended(entries: seq<Entry>, next: seq<Entry>, session: nat, members: seq<Identity>, owed: map<nat, Owed>)
    requires VouchesAll(entries, owed) && Renewed(entries, next, session, members)
    ensures VouchesAll(next, Amend(owed, session, Some(members))) && VouchesAll(next, Amend(owed, session, None))
  {
    if session in owed {
      MembersKept(entries, next, session, members, owed);
      var more := Amend(owed, session, Some(members));
      Weaker(next, session, more);
      assert more[session := Owed(more[session].leader, None)] == Amend(owed, session, None);
    } else {
      OthersKept(entries, next, session, owed);
    }
  }

  /** A new runtime starts only over a registry with nothing left in it. */
  method Fresh(existing: RegistryFile, removeFails: bool, runtimeId: string, fault: nat -> Fault)
    returns (r: Result<Registry>)
    ensures r.Ok? <==>
      Trim(runtimeId) != "" && (existing.Missing? || (existing.Loaded? && existing.document.processes == [] && !removeFails))
    ensures r.Ok? ==> fresh(r.value) && r.value.Valid() && r.value.file.None? && r.value.owed == map[]
  {
    if Trim(runtimeId) == "" {
      return Err;
    }
    if !existing.Missing? {
      if existing.Unreadable? || existing.document.processes != [] || removeFails {
        return Err;
      }
    }
    var registry := new Registry(runtimeId, fault);
    return Ok(registry);
  }

  /** A runtime dies at any point; its successor cleans up from the file.  When
      the report is resolved, every process still owed is dead, with every group
      member last published. */
  method CleanUpAfterCrash(host: Host, registry: Registry, expected: Option<string>) returns (r: Result<Report>)
    requires registry.Valid() && host.LivesOnce()
    requires forall e | e in registry.OnDisk() :: AllBorn(host, [e.record], host.now)
    modifies host
    ensures r.Ok? && r.value.Resolved() ==> forall s | s in registry.owed ::
      && host.Gone(registry.owed[s].leader, host.now)
      && (registry.owed[s].members.Some? ==>
            forall m | m in registry.owed[s].members.value :: host.Gone(m, host.now))
    ensures registry.File().Missing? ==> registry.owed == map[]
    ensures r.Err? ==>
      FailedIn(host, old(host.now), host.now)
      || (registry.file.Some? && expected.Some? && registry.runtimeId != "" && registry.runtimeId != expected.value)
    ensures registry.file.Some? && expected.Some? && registry.runtimeId != "" && registry.runtimeId != expected.value ==>
      r.Err? && host.trace == old(host.trace)
  {
    var file := registry.File();
    if file.Loaded? {
      BornOnDisk(host, registry.OnDisk(), file.document.processes, host.now);
    }
    assert file.Missing? ==> registry.owed == map[] by {
      if s :| s in registry.owed {
        assert Vouches(registry.OnDisk(), s, registry.owed[s]);
      }
    }
    r := TerminateMatchingStaleProcesses(host, file, expected);
    if r.Ok? && r.value.Resolved() {
      forall s | s in registry.owed
        ensures Covered(file, registry.owed[s].leader)
        ensures registry.owed[s].members.Some? ==> forall m | m in registry.owed[s].members.value :: Covered(file, m)
      {
        OwedIsRecorded(registry, s);
      }
    }
  }

  ghost predicate Covered(file: RegistryFile, id: Identity) {
    file.Loaded? && id in Recorded(file.document.processes)
  }

  lemma OwedIsRecorded(registry: Registry, s: nat)
    requires registry.Valid() && s in registry.owed
    ensures Covered(registry.File(), registry.owed[s].leader)
    ensures registry.owed[s].members.Some? ==>
      forall m | m in registry.owed[s].members.value :: Covered(registry.File(), m)
  {
    assert Vouches(registry.OnDisk(), s, registry.owed[s]);
    var i :| 0 <= i < |registry.OnDisk()| && registry.OnDisk()[i].record.identity == registry.owed[s].leader
      && (registry.owed[s].members.Some? ==> registry.OnDisk()[i].record.groupMembers == registry.owed[s].members.value);
    var processes := registry.File().document.processes;
    assert processes[i] == registry.OnDisk()[i].record && processes[i] in processes;
  }

  lemma BornOnDisk(host: Host, entries: seq<Entry>, processes: seq<Record>, t: nat)
    requires |processes| == |entries| && forall i | 0 <= i < |entries| :: processes[i] == entries[i].record
    requires forall e | e in entries :: AllBorn(host, [e.record], t)
    ensures AllBorn(host, processes, t)
  {
    forall id | id in Recorded(processes) ensures host.BornBy(id, t) {
      var i :| 0 <= i < |processes| && (id == processes[i].identity || id in processes[i].groupMembers);
      assert entries[i] in entries && processes[i] in [entries[i].record];
      assert id in Recorded([entries[i].record]);
    }
  }
}
