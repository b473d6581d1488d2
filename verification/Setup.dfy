/**
 The transactional commit of Local setup (src/local/setup.rs).

 Any file or secret operation may fail, and a failed one may leave its target
 in any state whatever.
 */
module Setup {
  import opened Results

  datatype FileId = Config | TunnelClient | Cloudflared | CloudflaredManifest | Bearer

  datatype FileState = FileState(bytes: string, mode: nat)

  type Files = f: map<FileId, Option<FileState>> | f.Keys == ALL_FILES ghost witness NoFiles()

  const ALL_FILES: set<FileId> := {Config, TunnelClient, Cloudflared, CloudflaredManifest, Bearer}

  const USER_ONLY: nat := 0x180 // 0o600

  ghost function NoFiles(): map<FileId, Option<FileState>> {
    map id | id in ALL_FILES :: None
  }

  datatype Artefact = File(id: FileId) | Secret

  /** What setup is about to install. */
  datatype Plan = Plan(
    runtimeKey: string, config: string, staged: Option<Staged>, rotate: bool, newBearer: string)

  datatype Staged = Staged(manifest: FileState, cloudflared: FileState, client: FileState)

  datatype Outcome =
    | Committed(rotated: bool)
    | NotStarted
    | SecretRestored
    | SecretLost
    | RolledBack
    | RollbackFailed(failures: seq<Artefact>)

  class Installation {
    var files: Files
    var secret: Option<string>
    var now: nat
    /** Which operations fail, and what a failed one leaves behind. */
    const fails: nat -> bool
    const fileLeft: nat -> Option<FileState>
    const secretLeft: nat -> Option<string>
    /** Which bearers `ensure_observability_bearer` accepts. */
    const acceptable: string -> bool

    constructor (files: Files, secret: Option<string>, fails: nat -> bool, fileLeft: nat -> Option<FileState>,
                 secretLeft: nat -> Option<string>, acceptable: string -> bool)
      ensures this.files == files && this.secret == secret && this.fails == fails
      ensures this.fileLeft == fileLeft && this.secretLeft == secretLeft && this.acceptable == acceptable
    {
      this.files, this.secret, now := files, secret, 0;
      this.fails, this.fileLeft, this.secretLeft, this.acceptable := fails, fileLeft, secretLeft, acceptable;
    }

    /** No operation fails in this stretch. */
    ghost predicate Smooth(from: nat, to: nat) {
      forall t: nat | from <= t < to :: !fails(t)
    }

    /** At most one does. */
    ghost predicate OneFault(from: nat, to: nat) {
      forall t: nat, u: nat | from <= t < to && from <= u < to && fails(t) && fails(u) :: t == u
    }

    lemma SmoothAfterFault(from: nat, mid: nat, to: nat)
      requires from <= mid <= to && OneFault(from, to) && !Smooth(from, mid)
      ensures Smooth(mid, to)
    {
      var t: nat :| from <= t < mid && fails(t);
    }

    /** Put `id` into `wanted`, by rename, by atomic write or by removal. */
    method Put(id: FileId, wanted: Option<FileState>) returns (r: Result<()>)
      modifies this`files, this`now
      ensures now == old(now) + 1
      ensures r.Ok? <==> !fails(old(now))
      ensures files == old(files)[id := if r.Ok? then wanted else fileLeft(old(now))]
    {
      var failed := fails(now);
      files := files[id := if failed then fileLeft(now) else wanted];
      now := now + 1;
      r := if failed then Err else Ok(());
    }

    method PutSecret(wanted: Option<string>) returns (r: Result<()>)
      modifies this`secret, this`now
      ensures now == old(now) + 1
      ensures r.Ok? <==> !fails(old(now))
      ensures secret == if r.Ok? then wanted else secretLeft(old(now))
    {
      var failed := fails(now);
      secret := if failed then secretLeft(now) else wanted;
      now := now + 1;
      r := if failed then Err else Ok(());
    }

    /** Nothing is done for a file that was not there and is not there. */
    method Restore(id: FileId, snapshot: Option<FileState>) returns (r: Result<()>)
      modifies this`files, this`now
      ensures now == old(now) + if snapshot.None? && old(files)[id].None? then 0 else 1
      ensures r.Ok? <==> Smooth(old(now), now)
      ensures r.Ok? ==> files == old(files)[id := snapshot]
      ensures forall other | other in ALL_FILES && other != id :: files[other] == old(files)[other]
    {
      if snapshot.None? && files[id].None? {
        assert files == files[id := None];
        return Ok(());
      }
      r := Put(id, snapshot);
    }

    /** Every artefact is tried, and reported exactly when restoring it failed;
        those not reported are as they were when the snapshots were taken. */
    method Rollback(snapshots: Files, oldSecret: Option<string>) returns (failures: seq<Artefact>)
      modifies this`files, this`secret, this`now
      ensures old(now) < now
      ensures failures == [] <==> Smooth(old(now), now)
      ensures forall id | id in ALL_FILES :: File(id) in failures || files[id] == snapshots[id]
      ensures Secret in failures <==> fails(now - 1)
      ensures Secret in failures || secret == oldSecret
      ensures failures == [] ==> files == snapshots && secret == oldSecret
    {
      failures := [];
      ghost var begun := now;
      var order := [Config, TunnelClient, Cloudflared, CloudflaredManifest, Bearer];
      for k := 0 to 5
        invariant begun <= now && (failures == [] <==> Smooth(begun, now))
        invariant forall j | 0 <= j < k :: File(order[j]) in failures || files[order[j]] == snapshots[order[j]]
        invariant Secret !in failures
      {
        ghost var t := now;
        var r := Restore(order[k], snapshots[order[k]]);
        assert Smooth(begun, now) <==> Smooth(begun, t) && Smooth(t, now);
        if r.Err? {
          failures := failures + [File(order[k])];
        }
      }
      forall id | id in ALL_FILES ensures File(id) in failures || files[id] == snapshots[id] {
        assert order[0] == Config && order[1] == TunnelClient && order[2] == Cloudflared
            && order[3] == CloudflaredManifest && order[4] == Bearer;
      }
      var r := PutSecret(oldSecret);
      if r.Err? {
        failures := failures + [Secret];
      }
    }

    /** The existing bearer, if it is to be kept, is accepted. */
    ghost predicate BearerFine(before: Option<FileState>, plan: Plan) {
      plan.rotate || before.None? || acceptable(before.value.bytes)
    }

    /** The bearer file after a successful `ensure_observability_bearer`. */
    ghost function BearerAfter(before: Option<FileState>, plan: Plan): FileState
      requires BearerFine(before, plan)
    {
      if before.Some? && !plan.rotate then before.value.(mode := USER_ONLY)
      else FileState(plan.newBearer, USER_ONLY)
    }

    method EnsureBearer(plan: Plan) returns (r: Result<bool>)
      modifies this`files, this`now
      ensures old(now) < now
      ensures r.Ok? <==> Smooth(old(now), now) && BearerFine(old(files)[Bearer], plan)
      ensures r.Ok? ==> files == old(files)[Bearer := Some(BearerAfter(old(files)[Bearer], plan))]
      ensures forall other | other in ALL_FILES && other != Bearer :: files[other] == old(files)[other]
      ensures r.Ok? ==> r.value == (plan.rotate || old(files)[Bearer].None?)
    {
      if files[Bearer].Some? && !plan.rotate {
        var failed := fails(now);
        now := now + 1;
        if failed || !acceptable(files[Bearer].value.bytes) {
          return Err;
        }
        var _ :- Put(Bearer, Some(files[Bearer].value.(mode := USER_ONLY)));
        return Ok(false);
      }
      var _ :- Put(Bearer, Some(FileState(plan.newBearer, USER_ONLY)));
      return Ok(true);
    }

    ghost function Bundled(before: Files, staged: Staged): Files {
      before[CloudflaredManifest := Some(staged.manifest)]
            [Cloudflared := Some(staged.cloudflared)]
            [TunnelClient := Some(staged.client)]
    }

    /** The executable is the last member of the bundle to be replaced. */
    method InstallBundle(staged: Staged) returns (r: Result<()>)
      modifies this`files, this`now
      ensures old(now) < now
      ensures r.Ok? <==> Smooth(old(now), now)
      ensures r.Ok? ==> files == Bundled(old(files), staged)
      ensures files[TunnelClient] != old(files)[TunnelClient] ==>
        files[CloudflaredManifest] == Some(staged.manifest) && files[Cloudflared] == Some(staged.cloudflared)
      ensures files[Config] == old(files)[Config] && files[Bearer] == old(files)[Bearer]
    {
      var _ :- Put(CloudflaredManifest, Some(staged.manifest));
      var _ :- Put(Cloudflared, Some(staged.cloudflared));
      r := Put(TunnelClient, Some(staged.client));
    }

    /** The files after a complete commit. */
    ghost function Installed(before: Files, plan: Plan): Files
      requires BearerFine(before[Bearer], plan)
    {
      (if plan.staged.Some? then Bundled(before, plan.staged.value) else before)
      [Config := Some(FileState(plan.config, USER_ONLY))]
      [Bearer := Some(BearerAfter(before[Bearer], plan))]
    }

    /** However far it gets, the config that names the executable comes after it. */
    method Install(plan: Plan) returns (r: Result<bool>)
      modifies this`files, this`now
      ensures old(now) < now
      ensures r.Ok? <==> Smooth(old(now), now) && BearerFine(old(files)[Bearer], plan)
      ensures r.Ok? ==> files == Installed(old(files), plan)
      ensures r.Ok? ==> r.value == (plan.rotate || old(files)[Bearer].None?)
      ensures plan.staged.Some? && files[Config] != old(files)[Config] ==>
                files[TunnelClient] == Some(plan.staged.value.client)
    {
      if plan.staged.Some? {
        var _ :- InstallBundle(plan.staged.value);
      }
      var _ :- Put(Config, Some(FileState(plan.config, USER_ONLY)));
      r := EnsureBearer(plan);
    }

    /** All or nothing: a commit goes through exactly when nothing fails and the
        bearer is accepted, and then installs everything; an error that could be
        undone leaves everything as it was; otherwise the report names every
        artefact that may differ.  One fault, or a bad bearer, can be undone. */
    method Commit(plan: Plan, snapshots: Files, oldSecret: Option<string>) returns (r: Outcome)
      requires files == snapshots && secret == oldSecret
      modifies this`files, this`secret, this`now
      ensures old(now) < now
      ensures r.Committed? <==> Smooth(old(now), now) && BearerFine(snapshots[Bearer], plan)
      ensures r.Committed? ==>
                && files == Installed(snapshots, plan) && secret == Some(plan.runtimeKey)
                && r.rotated == (plan.rotate || snapshots[Bearer].None?)
      ensures OneFault(old(now), now) && (BearerFine(snapshots[Bearer], plan) || Smooth(old(now), now)) ==>
                r.Committed? || r.SecretRestored? || r.RolledBack?
      ensures r.SecretRestored? || r.SecretLost? <==> fails(old(now))
      ensures r.SecretRestored? || r.RolledBack? ==> files == snapshots && secret == oldSecret
      ensures r.SecretLost? ==> files == snapshots && fails(old(now) + 1)
      ensures r.RollbackFailed? ==>
                && r.failures != []
                && (forall id | id in ALL_FILES :: File(id) in r.failures || files[id] == snapshots[id])
                && (Secret in r.failures || secret == oldSecret)
      ensures !r.NotStarted?
    {
      ghost var begun := now;
      var stored := PutSecret(Some(plan.runtimeKey));
      if stored.Err? {
        var restored := PutSecret(oldSecret);
        return if restored.Ok? then SecretRestored else SecretLost;
      }
      var operation := Install(plan);
      if operation.Ok? {
        return Committed(operation.value);
      }
      ghost var failed := now;
      var failures := Rollback(snapshots, oldSecret);
      if failures == [] {
        return RolledBack;
      }
      if OneFault(begun, now) && !Smooth(begun, failed) {
        SmoothAfterFault(begun, failed, now);
      }
      return RollbackFailed(failures);
    }

    /** `SetupSnapshots::capture`: reading, which may fail, changes nothing. */
    method Capture() returns (r: Result<Files>)
      modifies this`now
      ensures now == old(now) + 5
      ensures r == if Smooth(old(now), now) then Ok(files) else Err
    {
      var failed := false;
      ghost var begun := now;
      for k := 0 to 5
        invariant now == begun + k && (failed <==> !Smooth(begun, now))
      {
        failed := failed || fails(now);
        now := now + 1;
      }
      return if failed then Err else Ok(files);
    }

    /** Setup as the caller sees it. */
    method Run(plan: Plan) returns (r: Outcome)
      modifies this`files, this`secret, this`now
      ensures r.Committed? <==> Smooth(old(now), now) && BearerFine(old(files)[Bearer], plan)
      ensures r.Committed? ==>
                && files == Installed(old(files), plan) && secret == Some(plan.runtimeKey)
                && r.rotated == (plan.rotate || old(files)[Bearer].None?)
      ensures OneFault(old(now), now) && (BearerFine(old(files)[Bearer], plan) || Smooth(old(now), now)) ==>
                r.Committed? || r.NotStarted? || r.SecretRestored? || r.RolledBack?
      ensures r.NotStarted? <==> !Smooth(old(now), old(now) + 6)
      ensures r.NotStarted? || r.SecretRestored? || r.RolledBack? ==> files == old(files) && secret == old(secret)
      ensures r.SecretLost? ==> files == old(files)
      ensures r.RollbackFailed? ==>
                && (forall id | id in ALL_FILES :: File(id) in r.failures || files[id] == old(files)[id])
                && (Secret in r.failures || secret == old(secret))
    {
      ghost var begun := now;
      var failed := fails(now);
      now := now + 1;
      if failed {
        return NotStarted;
      }
      var snapshots := Capture();
      if snapshots.Err? {
        return NotStarted;
      }
      ghost var t := now;
      r := Commit(plan, snapshots.value, secret);
      assert Smooth(begun, now) <==> Smooth(t, now);
      assert OneFault(begun, now) ==> OneFault(t, now);
    }
  }
}
