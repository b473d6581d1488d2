/**
 The evidence that ends a session: `reap_exit_code` against the host
 (src/session/shutdown.rs, src/session/lifecycle.rs).
 */
module SessionReap {
  import opened Results
  import opened Processes

  class SessionInner {
    const pid: int
    const leader: Option<Identity>
    /** What `try_wait` answers at a tick. */
    const waits: nat -> Option<int>

    var reaped: Option<int>
    var members: seq<Identity>

    constructor (pid: int, leader: Option<Identity>, waits: nat -> Option<int>)
      ensures this.pid == pid && this.leader == leader && this.waits == waits
      ensures reaped.None? && members == []
    {
      this.pid, this.leader, this.waits := pid, leader, waits;
      reaped, members := None, [];
    }

    /** `owned_process_end` is Some. */
    predicate Ended()
      reads this
    {
      reaped.Some? && members == []
    }

    /** Keep the members that still have their identity.  The list is drained
        while it is checked, so a failed check loses all of it.  The sweep goes
        through if and only if none of its reads fails; what is then left out is
        dead.  Otherwise the empty list is true evidence if and only if every
        member happens to be dead. */
    method Sweep(host: Host) returns (r: Result<()>)
      requires host.LivesOnce() && forall m | m in members :: host.BornBy(m, host.now)
      modifies host, this`members
      ensures r.Ok? <==> Undisturbed(host, old(host.now), |old(members)|)
      ensures r.Ok? ==> members == Survivors(host, old(members), old(host.now))
      ensures r.Ok? ==> host.now == old(host.now) + |old(members)|
      ensures r.Err? ==> members == [] && old(host.now) < host.now && FirstFailure(host, old(host.now), host.now - 1)
      ensures r.Err? ==> host.now <= old(host.now) + |old(members)|
      ensures (forall m | m in old(members) :: m in members || host.Gone(m, host.now))
         <==> Undisturbed(host, old(host.now), |old(members)|) || forall m | m in old(members) :: !host.Alive(m, host.now)
    {
      var draining, surviving := members, [];
      ghost var born := host.now;
      members := [];
      for i := 0 to |draining|
        invariant host.now == born + i && members == [] && Undisturbed(host, born, i)
        invariant surviving == Survivors(host, draining[..i], born)
      {
        SurvivorsSnoc(host, draining[..i], draining[i], born);
        assert draining[..i + 1] == draining[..i] + [draining[i]];
        var there := host.IdentityMatches(draining[i]);
        if there.Err? {
          DeadOrAlive(host, draining, born, host.now);
          return Err;
        }
        if there.value {
          surviving := surviving + [draining[i]];
        }
      }
      assert draining[..|draining|] == draining;
      OthersAreDead(host, draining, born, born);
      members := surviving;
      return Ok(());
    }

    /** `reap_exit_code`. */
    method ReapExitCode(host: Host) returns (r: Result<Option<int>>)
      requires host.LivesOnce() && forall m | m in members :: host.BornBy(m, host.now)
      modifies host, this
      ensures old(host.now) <= host.now
      ensures r.Ok? ==> r.value == reaped
      ensures old(reaped).Some? ==> reaped == old(reaped) && forall m | m in members :: m in old(members)
      ensures old(Ended()) ==> Ended() && r.Ok?
      ensures old(reaped).Some? ==> (r.Ok? <==> Undisturbed(host, old(host.now), |old(members)|))
      ensures old(reaped).Some? && r.Ok? ==>
        members == Survivors(host, old(members), old(host.now)) && host.now == old(host.now) + |old(members)|
      ensures old(reaped).Some? && r.Ok? ==> forall m | m in old(members) :: m in members || host.Gone(m, host.now)
      ensures old(reaped).Some? && r.Err? ==>
        members == [] && old(host.now) < host.now && FirstFailure(host, old(host.now), host.now - 1)
      ensures old(reaped).Some? && r.Err? ==> host.now <= old(host.now) + |old(members)|
      ensures old(reaped).None? ==> FirstReap(host, old(host.now), old(members), r)
    {
      if reaped.None? {
        r := ReapLeader(host);
        return;
      }
      if members != [] {
        var _ :- Sweep(host);
      }
      return Ok(reaped);
    }

    method ReapLeader(host: Host) returns (r: Result<Option<int>>)
      requires reaped.None?
      modifies host, this
      ensures FirstReap(host, old(host.now), old(members), r)
    {
      var listed :- host.Scan(pid);
      members := OtherThan(listed, pid);
      var status :- TryWait(host);
      if status.None? {
        return Ok(None);
      }
      if members == [] {
        var found :- host.Scan(pid);
        if !LeaderReused(found) {
          members := OtherThan(found, pid);
        }
      }
      reaped := status;
      return Ok(reaped);
    }

    method TryWait(host: Host) returns (r: Result<Option<int>>)
      modifies host
      ensures host.now == old(host.now) + 1
      ensures r == if host.fails(old(host.now)) then Err else Ok(waits(old(host.now)))
    {
      r := if host.fails(host.now) then Err else Ok(waits(host.now));
      host.now := host.now + 1;
    }

    /** A reap of a leader not yet reaped, begun at tick `t`: the group is listed;
        if the leader has exited and nobody was listed, it is listed again, and
        left out if the leader's PID has been reused.  A failed call leaves the
        leader to be reaped later. */
    ghost predicate FirstReap(host: Host, t: nat, before: seq<Identity>, r: Result<Option<int>>)
      reads this, host
    {
      var listed, again, status := OtherThan(host.scanned(t), pid), OtherThan(host.scanned(t + 2), pid), waits(t + 1);
      if host.fails(t) then r.Err? && reaped.None? && members == before && host.now == t + 1
      else if host.fails(t + 1) then r.Err? && reaped.None? && members == listed && host.now == t + 2
      else if status.None? then r == Ok(None) && reaped.None? && members == listed && host.now == t + 2
      else if listed != [] then r == Ok(status) && reaped == status && members == listed && host.now == t + 2
      else if host.fails(t + 2) then r.Err? && reaped.None? && members == [] && host.now == t + 3
      else
        && r == Ok(status) && reaped == status && host.now == t + 3
        && members == if LeaderReused(host.scanned(t + 2)) then [] else again
    }

    /** The first process listed under the group's PID is not the leader. */
    predicate LeaderReused(found: seq<Identity>) {
      if found == [] then false
      else if found[0].pid == pid then leader != Some(found[0])
      else LeaderReused(found[1..])
    }

    lemma {:induction false} ReusedMeans(found: seq<Identity>)
      ensures LeaderReused(found) <==> exists k | 0 <= k < |found| ::
        found[k].pid == pid && leader != Some(found[k]) && forall j | 0 <= j < k :: found[j].pid != pid
    {
      if found != [] && found[0].pid != pid {
        var rest := found[1..];
        ReusedMeans(rest);
        if LeaderReused(rest) {
          var k :| 0 <= k < |rest| && rest[k].pid == pid && leader != Some(rest[k]) && forall j | 0 <= j < k :: rest[j].pid != pid;
          assert found[k + 1] == rest[k] && forall j | 0 < j < k + 1 :: found[j] == rest[j - 1];
        }
        if k :| 0 <= k < |found| && found[k].pid == pid && leader != Some(found[k]) && forall j | 0 <= j < k :: found[j].pid != pid {
          assert rest[k - 1] == found[k] && forall j | 0 <= j < k - 1 :: rest[j] == found[j + 1];
        }
      }
    }
  }

  function OtherThan(found: seq<Identity>, pid: int): (r: seq<Identity>)
    ensures forall m :: m in r <==> m in found && m.pid != pid
  {
    if found == [] then []
    else if found[0].pid == pid then OtherThan(found[1..], pid)
    else [found[0]] + OtherThan(found[1..], pid)
  }

  // ----- what the host does to a sweep, known before it starts -----

  /** None of the next `n` calls fails. */
  ghost predicate Undisturbed(host: Host, t: nat, n: nat) {
    forall u: nat | t <= u < t + n :: !host.fails(u)
  }

  ghost predicate FirstFailure(host: Host, t: nat, f: nat) {
    t <= f && host.fails(f) && forall u: nat | t <= u < f :: !host.fails(u)
  }

  /** The members that are alive when, one tick each, they are asked. */
  ghost function Survivors(host: Host, members: seq<Identity>, t: nat): (r: seq<Identity>)
    ensures forall m | m in r :: m in members
    ensures |r| <= |members|
  {
    if members == [] then []
    else
      var last := |members| - 1;
      Survivors(host, members[..last], t) + if host.Alive(members[last], t + last) then [members[last]] else []
  }

  lemma SurvivorsSnoc(host: Host, members: seq<Identity>, m: Identity, t: nat)
    ensures Survivors(host, members + [m], t)
         == Survivors(host, members, t) + if host.Alive(m, t + |members|) then [m] else []
  {
    assert (members + [m])[..|members|] == members;
  }

  lemma {:induction false} OthersAreDead(host: Host, members: seq<Identity>, born: nat, t: nat)
    requires host.LivesOnce() && born <= t && forall m | m in members :: host.BornBy(m, born)
    ensures forall m | m in members :: m in Survivors(host, members, t) || host.Gone(m, t + |members|)
  {
    if members != [] {
      var last := |members| - 1;
      OthersAreDead(host, members[..last], born, t);
      if !host.Alive(members[last], t + last) {
        host.DeadStaysDead(members[last], born, t + last);
      }
      forall m | m in members ensures m in Survivors(host, members, t) || host.Gone(m, t + |members|) {
        assert m in members[..last] || m == members[last];
      }
    }
  }

  /** How many reads it takes to follow the members for so many rounds. */
  ghost function Reads(host: Host, members: seq<Identity>, t: nat, rounds: nat): nat
    decreases rounds
  {
    if rounds == 0 then 0
    else |members| + Reads(host, Survivors(host, members, t), t + |members|, rounds - 1)
  }

  /** No read of any round fails. */
  ghost predicate GoesThrough(host: Host, members: seq<Identity>, t: nat, rounds: nat)
    decreases rounds
  {
    rounds == 0 ||
    (Undisturbed(host, t, |members|)
     && GoesThrough(host, Survivors(host, members, t), t + |members|, rounds - 1))
  }

  /** The rounds go through exactly when the host fails at no tick they take. */
  lemma {:induction false} GoesThroughIs(host: Host, members: seq<Identity>, t: nat, rounds: nat)
    ensures GoesThrough(host, members, t, rounds) <==> Undisturbed(host, t, Reads(host, members, t, rounds))
    decreases rounds
  {
    if rounds > 0 {
      GoesThroughIs(host, Survivors(host, members, t), t + |members|, rounds - 1);
    }
  }

  lemma DeadOrAlive(host: Host, ids: seq<Identity>, born: nat, t: nat)
    requires host.LivesOnce() && born <= t && forall m | m in ids :: host.BornBy(m, born)
    ensures forall m | m in ids :: host.Gone(m, t) <==> !host.Alive(m, t)
  {
    forall m | m in ids && !host.Alive(m, t) ensures host.Gone(m, t) {
      host.DeadStaysDead(m, born, t);
    }
  }

  /** Some read of those rounds fails, and a member outlives the first such. */
  ghost predicate Misled(host: Host, members: seq<Identity>, t: nat, rounds: nat) {
    exists f: nat | FirstFailure(host, t, f) ::
      f < t + Reads(host, members, t, rounds) && exists m | m in members :: host.Alive(m, f + 1)
  }

  lemma JudgeFailure(host: Host, members: seq<Identity>, t: nat, rounds: nat, f: nat)
    requires !GoesThrough(host, members, t, rounds) && FirstFailure(host, t, f)
    ensures Misled(host, members, t, rounds) <==> exists m | m in members :: host.Alive(m, f + 1)
  {
    GoesThroughIs(host, members, t, rounds);
  }

  lemma JudgeSuccess(host: Host, members: seq<Identity>, t: nat, rounds: nat)
    requires GoesThrough(host, members, t, rounds)
    ensures !Misled(host, members, t, rounds)
  {
    GoesThroughIs(host, members, t, rounds);
  }

  /** Everyone in `start` is still followed, or dead. */
  ghost predicate Followed(host: Host, start: seq<Identity>, members: seq<Identity>, t: nat) {
    && (forall m | m in members :: m in start)
    && forall m | m in start :: m in members || host.Gone(m, t)
  }

  /** One more round. */
  method FollowOnce(host: Host, inner: SessionInner, ghost start: seq<Identity>, ghost born: nat) returns (ok: bool)
    requires host.LivesOnce() && inner.reaped.Some? && born <= host.now
    requires (forall m | m in start :: host.BornBy(m, born)) && Followed(host, start, inner.members, host.now)
    modifies host, inner
    ensures inner.reaped.Some?
    ensures ok <==> Undisturbed(host, old(host.now), |old(inner.members)|)
    ensures ok ==> host.now == old(host.now) + |old(inner.members)|
    ensures ok ==> inner.members == Survivors(host, old(inner.members), old(host.now))
    ensures ok ==> Followed(host, start, inner.members, host.now)
    ensures !ok ==> inner.Ended() && old(host.now) < host.now && FirstFailure(host, old(host.now), host.now - 1)
    ensures !ok ==> ((forall m | m in start :: host.Gone(m, host.now)) <==> forall m | m in start :: !host.Alive(m, host.now))
  {
    forall m | m in inner.members ensures host.BornBy(m, host.now) {
      StillBorn(host, m, born, host.now);
    }
    var r := inner.ReapExitCode(host);
    DeadOrAlive(host, start, born, host.now);
    ok := r.Ok?;
  }

  lemma StillBorn(host: Host, id: Identity, born: nat, t: nat)
    requires born <= t && host.BornBy(id, born)
    ensures host.BornBy(id, t)
  {
  }

  /** After the leader was reaped, repeated reaps follow its group.  They all go
      through if and only if none of the reads that takes fails, which is a
      matter of the host alone.  If so, an ended session is truly over: every
      member recorded at the reap is dead.  If not, the session counts as ended
      at the first failed read.  So a session is ended over a living member if
      and only if a read of those rounds fails and a member outlives the first
      that does. */
  method FollowToEnd(host: Host, inner: SessionInner, rounds: nat) returns (ok: bool)
    requires host.LivesOnce() && inner.reaped.Some? && forall m | m in inner.members :: host.BornBy(m, host.now)
    modifies host, inner
    ensures ok <==> GoesThrough(host, old(inner.members), old(host.now), rounds)
    ensures ok && inner.Ended() ==> forall m | m in old(inner.members) :: host.Gone(m, host.now)
    ensures !ok ==> inner.Ended() && old(host.now) < host.now && FirstFailure(host, old(host.now), host.now - 1)
    ensures inner.Ended() && (exists m | m in old(inner.members) :: !host.Gone(m, host.now))
       <==> Misled(host, old(inner.members), old(host.now), rounds)
  {
    ghost var start, born := inner.members, host.now;
    ghost var smooth := GoesThrough(host, start, born, rounds);
    for k := 0 to rounds
      invariant born <= host.now && inner.reaped.Some? && Undisturbed(host, born, host.now - born)
      invariant smooth <==> GoesThrough(host, inner.members, host.now, rounds - k)
      invariant Followed(host, start, inner.members, host.now)
    {
      var went := FollowOnce(host, inner, start, born);
      if !went {
        JudgeFailure(host, start, born, rounds, host.now - 1);
        return false;
      }
    }
    JudgeSuccess(host, start, born, rounds);
    return true;
  }

  /** One failed identity read is enough to break that: the member list is lost,
      and the session counts as ended while the member lives. */
  method FailedReadEndsLiveSession() returns (host: Host, inner: SessionInner, member: Identity)
    ensures host.LivesOnce() && inner.Ended() && host.Alive(member, host.now)
    ensures fresh(host) && fresh(inner)
  {
    member := Identity(7, LinuxProcStartTicks(1));
    var occupant := (t: nat, pid: int) => if pid == 7 then Some(Identity(7, LinuxProcStartTicks(1))) else None;
    host := new Host(occupant, (t: nat) => [Identity(7, LinuxProcStartTicks(1))], (t: nat) => t == 2, (t: nat) => 0);
    inner := new SessionInner(5, None, (t: nat) => Some(0));
    var _ := inner.ReapExitCode(host);
    assert host.Alive(member, 0) && OtherThan([member], 5) == [member];
    assert inner.members == [member] && inner.reaped == Some(0) && host.now == 2;
    assert host.fails(2) && !Undisturbed(host, 2, 1);
    var _ := inner.ReapExitCode(host);
  }
}
