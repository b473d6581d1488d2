/**
 Planning of a multi-file patch: which operations are pairs, which conflict,
 what becomes of each, and why the order of the rest is of no consequence
 (src/apply_patch.rs).
 */
module PatchPlan {
  import opened Results
  import R = PatchRecovery

  // ----- paths -----

  datatype Component = RootDir | CurDir | ParentDir | Normal(name: string)

  type Path = seq<Component>

  /** A physical location: the names from the root down. */
  type Key = seq<string>

  function Names(names: seq<string>): Path {
    seq(|names|, i requires 0 <= i < |names| => Normal(names[i]))
  }

  /** One component further, in a tree without symbolic links. */
  function Step(dir: Key, c: Component): Key {
    match c
    case RootDir => []
    case CurDir => dir
    case ParentDir => if dir == [] then [] else dir[..|dir| - 1]
    case Normal(name) => dir + [name]
  }

  /** Follow a path from a directory. */
  function Walk(dir: Key, path: Path): Key
    decreases |path|
  {
    if path == [] then dir else Step(Walk(dir, path[..|path| - 1]), path[|path| - 1])
  }

  ghost predicate Absolute(path: Path) {
    path != [] && path[0].RootDir? && forall i | 0 < i < |path| :: !path[i].RootDir?
  }

  /** Normalizing an absolute path spells out where it leads: two spellings have
      the same normal form exactly when they lead to the same place. */
  method LexicalNormalize(path: Path) returns (result: Path)
    ensures Absolute(path) ==> result == Spelled(Walk([], path))
  {
    result := [];
    for i := 0 to |path|
      invariant i > 0 && Absolute(path) ==> result == Spelled(Walk([], path[..i]))
    {
      assert path[..i + 1][..i] == path[..i];
      if Absolute(path) {
        SpelledStep(Walk([], path[..i]), path[i]);
      }
      match path[i] {
        case CurDir =>
        case ParentDir =>
          if result != [] && result[|result| - 1] != RootDir {
            result := result[..|result| - 1];
          }
        case RootDir =>
          result := [RootDir];
        case Normal(_) =>
          result := result + [path[i]];
      }
    }
    assert path[..|path|] == path;
  }

  function Spelled(dir: Key): Path {
    [RootDir] + Names(dir)
  }

  lemma SpelledStep(dir: Key, c: Component)
    ensures Spelled(dir)[|dir|] == if dir == [] then RootDir else Normal(dir[|dir| - 1])
    ensures Spelled(Step(dir, c)) ==
      match c
      case RootDir => [RootDir]
      case CurDir => Spelled(dir)
      case ParentDir => if dir == [] then Spelled(dir) else Spelled(dir)[..|dir|]
      case Normal(name) => Spelled(dir) + [c]
  {
  }

  lemma NormalFormIsFaithful(p: Path, q: Path)
    requires Absolute(p) && Absolute(q)
    ensures Spelled(Walk([], p)) == Spelled(Walk([], q)) <==> Walk([], p) == Walk([], q)
  {
    var a, b := Walk([], p), Walk([], q);
    if Spelled(a) == Spelled(b) {
      assert Names(a) == Spelled(a)[1..] == Names(b);
      assert |a| == |b|;
      forall i | 0 <= i < |a| ensures a[i] == b[i] {
        assert Names(a)[i] == Names(b)[i];
      }
      assert a == b;
    }
  }

  // ----- hunks, pairs and conflicts -----

  datatype Hunk =
    | AddFile(path: Path, contents: string)
    | DeleteFile(path: Path)
    | UpdateFile(path: Path, movePath: Option<Path>, chunks: seq<R.Chunk>)

  /** The path of a hunk, and the one it moves the file to. */
  predicate NamesPath(h: Hunk, p: Path) {
    p == h.path || (h.UpdateFile? && h.movePath == Some(p))
  }

  function Touched(h: Hunk): (paths: seq<Path>)
    ensures forall p :: p in paths <==> NamesPath(h, p)
  {
    if h.UpdateFile? && h.movePath.Some? then [h.path, h.movePath.value] else [h.path]
  }

  /** One location is the other, or lies above or below it. */
  predicate Related(a: Key, b: Key) { a <= b || b <= a }

  /** A patch with the two functions of a path the planner asks for: the lexical
      normal form, and the physical key. */
  datatype Patch = Patch(hunks: seq<Hunk>, normal: Path -> Path, key: Path -> Key) {

    /** A deletion directly followed by an addition of the same spelled path. */
    predicate Pair(i: int) {
      && 0 <= i < |hunks| - 1
      && hunks[i].DeleteFile? && hunks[i + 1].AddFile? && normal(hunks[i].path) == normal(hunks[i + 1].path)
    }

    predicate Partners(i: int, j: int) {
      (j == i + 1 && Pair(i)) || (i == j + 1 && Pair(j))
    }

    /** A path of hunk `j` is related to `p`. */
    ghost predicate Meets(p: Path, j: nat) {
      j < |hunks| && exists q | q in Touched(hunks[j]) :: Related(key(p), key(q))
    }

    ghost predicate Clash(i: nat, j: nat) {
      i < |hunks| && exists p | p in Touched(hunks[i]) :: Meets(p, j)
    }

    lemma ClashIsSymmetric(i: nat, j: nat)
      requires Clash(i, j)
      ensures Clash(j, i)
    {
      var p :| p in Touched(hunks[i]) && Meets(p, j);
      var q :| q in Touched(hunks[j]) && Related(key(p), key(q));
      assert Meets(q, i);
    }

    /** Another hunk, not the partner, is at, above or below this one's place. */
    ghost predicate Conflicted(i: nat) {
      i < |hunks| && exists j: nat | j < |hunks| && j != i && !Partners(i, j) :: Clash(i, j)
    }

    /** The hunks name paths, one of which resolves to the other's place, or above
        or below it. */
    ghost predicate Near(i: nat, j: nat) {
      i < |hunks| && j < |hunks| && exists p, q | NamesPath(hunks[i], p) && NamesPath(hunks[j], q) ::
        key(p) == key(q) || key(p) < key(q) || key(q) < key(p)
    }

    lemma ClashIsNear(i: nat, j: nat)
      ensures Clash(i, j) <==> Near(i, j)
    {
      if Clash(i, j) {
        var p :| p in Touched(hunks[i]) && Meets(p, j);
        var q :| q in Touched(hunks[j]) && Related(key(p), key(q));
        assert NamesPath(hunks[i], p) && NamesPath(hunks[j], q);
      }
      if Near(i, j) {
        var p, q :| NamesPath(hunks[i], p) && NamesPath(hunks[j], q)
          && (key(p) == key(q) || key(p) < key(q) || key(q) < key(p));
        assert q in Touched(hunks[j]) && Related(key(p), key(q));
        assert p in Touched(hunks[i]) && Meets(p, j);
      }
    }

    /** Flagged means near another hunk that is not the partner. */
    lemma ConflictMeans(i: nat)
      ensures Conflicted(i) <==>
        i < |hunks| && exists j: nat | j < |hunks| && j != i && !Partners(i, j) :: Near(i, j)
    {
      forall j: nat ensures Clash(i, j) <==> Near(i, j) {
        ClashIsNear(i, j);
      }
    }

    /** Partners are a deletion and the addition right after it, of one spelled path. */
    lemma PartnersMean(i: nat, j: nat)
      ensures Partners(i, j) <==> var a, b := if i < j then i else j, if i < j then j else i;
        && b == a + 1 && b < |hunks| && hunks[a].DeleteFile? && hunks[b].AddFile?
        && normal(hunks[a].path) == normal(hunks[b].path)
    {
    }

    /** The spelled path of a pair resolves to one place. */
    ghost predicate PairsShareKey() {
      forall i | Pair(i) :: key(hunks[i].path) == key(hunks[i + 1].path)
    }

    /** Pairs do not overlap: no hunk is in two of them. */
    lemma PairsAreMatching(i: int, j: int)
      requires Pair(i) && Pair(j) && i != j
      ensures i + 1 != j && j + 1 != i && !Pair(i + 1)
    {
    }

    lemma HalvesClashAlike(i: nat, j: nat)
      requires PairsShareKey() && Pair(i)
      ensures Clash(i, j) <==> Clash(i + 1, j)
    {
      var p, q := hunks[i].path, hunks[i + 1].path;
      assert Touched(hunks[i]) == [p] && Touched(hunks[i + 1]) == [q];
      assert Meets(p, j) <==> Meets(q, j);
    }

    /** Both halves of a pair are flagged, or neither is. */
    lemma PairsConflictTogether(i: nat)
      requires PairsShareKey() && Pair(i)
      ensures Conflicted(i) <==> Conflicted(i + 1)
    {
      if Conflicted(i) {
        var j: nat :| j < |hunks| && j != i && !Partners(i, j) && Clash(i, j);
        HalvesClashAlike(i, j);
        assert !Partners(i + 1, j);
      }
      if Conflicted(i + 1) {
        var j: nat :| j < |hunks| && j != i + 1 && !Partners(i + 1, j) && Clash(i + 1, j);
        HalvesClashAlike(i, j);
        assert !Partners(i, j);
      }
    }
  }

  type Owner = (Key, nat)

  /** Two hunks, the earlier first, that are not a pair. */
  ghost predicate Apart(patch: Patch, a: nat, b: nat) {
    a < b < |patch.hunks| && !(patch.Pair(a) && a + 1 == b)
  }

  ghost predicate Bad(patch: Patch, a: nat, b: nat) {
    Apart(patch, a, b) && patch.Clash(b, a)
  }

  /** The same, seen from the first `m` paths of `b`. */
  ghost predicate BadPart(patch: Patch, a: nat, b: nat, m: nat) {
    && Apart(patch, a, b) && m <= |Touched(patch.hunks[b])|
    && exists p | p in Touched(patch.hunks[b])[..m] :: patch.Meets(p, a)
  }

  ghost predicate HitBelow(patch: Patch, x: nat, n: nat) {
    exists a: nat, b: nat | b < n && Bad(patch, a, b) :: x == a || x == b
  }

  ghost predicate HitAt(patch: Patch, x: nat, b: nat, m: nat) {
    exists a: nat | BadPart(patch, a, b, m) :: x == a || x == b
  }

  /** An earlier owner whose place is related, and who is not the partner. */
  predicate Offends(patch: Patch, o: Owner, resolved: Key, index: nat) {
    o.1 != index && !(patch.Pair(o.1) && o.1 + 1 == index) && Related(resolved, o.0)
  }

  /** One path against everything seen before. */
  method AgainstOwners(patch: Patch, owners: seq<Owner>, resolved: Key, index: nat, conflicts: set<nat>)
    returns (r: set<nat>)
    ensures forall x :: x in r <==>
              x in conflicts || exists o | o in owners && Offends(patch, o, resolved, index) :: x == o.1 || x == index
  {
    r := conflicts;
    for k := 0 to |owners|
      invariant forall x :: x in r <==>
                  x in conflicts || exists o | o in owners[..k] && Offends(patch, o, resolved, index) :: x == o.1 || x == index
    {
      if Offends(patch, owners[k], resolved, index) {
        r := r + {owners[k].1, index};
      }
      assert owners[..k + 1] == owners[..k] + [owners[k]];
    }
    assert owners[..|owners|] == owners;
  }

  /** `owners` lists the places of the hunks before `index`, and of its own
      first `m` paths. */
  ghost predicate Owns(patch: Patch, owners: seq<Owner>, index: nat, m: nat) {
    && index <= |patch.hunks| && (index == |patch.hunks| ==> m == 0)
    && (index < |patch.hunks| ==> m <= |Touched(patch.hunks[index])|)
    && (forall o | o in owners :: o.1 <= index && (o.1 == index ==> m > 0)
          && o.1 < |patch.hunks| && exists q | q in Touched(patch.hunks[o.1]) :: patch.key(q) == o.0)
    && forall j: nat, q | j < index && q in Touched(patch.hunks[j]) :: (patch.key(q), j) in owners
  }

  /** The owners that offend are the hunks the new path meets. */
  lemma OffendersMeet(patch: Patch, owners: seq<Owner>, index: nat, m: nat, a: nat)
    requires Owns(patch, owners, index, m) && index < |patch.hunks| && m < |Touched(patch.hunks[index])|
    ensures var p := Touched(patch.hunks[index])[m];
            Apart(patch, a, index) && patch.Meets(p, a) <==>
              exists o | o in owners && o.1 == a :: Offends(patch, o, patch.key(p), index)
  {
    var p := Touched(patch.hunks[index])[m];
    if Apart(patch, a, index) && patch.Meets(p, a) {
      var q :| q in Touched(patch.hunks[a]) && Related(patch.key(p), patch.key(q));
      var o := (patch.key(q), a);
      assert o in owners && o.1 == a && Offends(patch, o, patch.key(p), index);
    }
    if exists o | o in owners && o.1 == a :: Offends(patch, o, patch.key(p), index) {
      var o :| o in owners && o.1 == a && Offends(patch, o, patch.key(p), index);
      var q :| q in Touched(patch.hunks[a]) && patch.key(q) == o.0;
      assert Related(patch.key(p), patch.key(q));
    }
  }

  lemma NextPath(patch: Patch, a: nat, index: nat, m: nat)
    requires index < |patch.hunks| && m < |Touched(patch.hunks[index])|
    ensures BadPart(patch, a, index, m + 1) <==>
              BadPart(patch, a, index, m) || (Apart(patch, a, index) && patch.Meets(Touched(patch.hunks[index])[m], a))
  {
    var paths := Touched(patch.hunks[index]);
    assert paths[..m + 1] == paths[..m] + [paths[m]];
  }

  lemma PathHits(patch: Patch, owners: seq<Owner>, index: nat, m: nat, x: nat)
    requires Owns(patch, owners, index, m) && index < |patch.hunks| && m < |Touched(patch.hunks[index])|
    ensures var resolved := patch.key(Touched(patch.hunks[index])[m]);
            HitAt(patch, x, index, m + 1) <==>
              || HitAt(patch, x, index, m)
              || exists o | o in owners && Offends(patch, o, resolved, index) :: x == o.1 || x == index
  {
    var resolved := patch.key(Touched(patch.hunks[index])[m]);
    if HitAt(patch, x, index, m + 1) {
      var a: nat :| BadPart(patch, a, index, m + 1) && (x == a || x == index);
      NextPath(patch, a, index, m);
      OffendersMeet(patch, owners, index, m, a);
    }
    if HitAt(patch, x, index, m) {
      var a: nat :| BadPart(patch, a, index, m) && (x == a || x == index);
      NextPath(patch, a, index, m);
    }
    if exists o | o in owners && Offends(patch, o, resolved, index) :: x == o.1 || x == index {
      var o :| o in owners && Offends(patch, o, resolved, index) && (x == o.1 || x == index);
      NextPath(patch, o.1, index, m);
      OffendersMeet(patch, owners, index, m, o.1);
    }
  }

  lemma HunkHits(patch: Patch, index: nat, x: nat)
    requires index < |patch.hunks|
    ensures HitBelow(patch, x, index + 1) <==>
              HitBelow(patch, x, index) || HitAt(patch, x, index, |Touched(patch.hunks[index])|)
  {
    var paths := Touched(patch.hunks[index]);
    assert paths[..|paths|] == paths;
    if HitBelow(patch, x, index + 1) && !HitBelow(patch, x, index) {
      var a: nat, b: nat :| b < index + 1 && Bad(patch, a, b) && (x == a || x == b);
      assert b == index && BadPart(patch, a, index, |paths|);
    }
    if HitAt(patch, x, index, |paths|) {
      var a: nat :| BadPart(patch, a, index, |paths|) && (x == a || x == index);
      assert Bad(patch, a, index);
    }
  }

  lemma HitIsConflict(patch: Patch, x: nat)
    ensures HitBelow(patch, x, |patch.hunks|) <==> patch.Conflicted(x)
  {
    if HitBelow(patch, x, |patch.hunks|) {
      var a: nat, b: nat :| b < |patch.hunks| && Bad(patch, a, b) && (x == a || x == b);
      patch.ClashIsSymmetric(b, a);
      assert !patch.Partners(a, b) && !patch.Partners(b, a);
    }
    if patch.Conflicted(x) {
      var j: nat :| j < |patch.hunks| && j != x && !patch.Partners(x, j) && patch.Clash(x, j);
      patch.ClashIsSymmetric(x, j);
      assert if j < x then Bad(patch, j, x) else Bad(patch, x, j);
    }
  }

  /** The paths of one hunk, one after the other. */
  method ScanHunk(patch: Patch, owners: seq<Owner>, conflicts: set<nat>, index: nat)
    returns (owners': seq<Owner>, conflicts': set<nat>)
    requires index < |patch.hunks| && Owns(patch, owners, index, 0)
    requires forall x :: x in conflicts <==> HitBelow(patch, x, index)
    ensures Owns(patch, owners', index + 1, 0)
    ensures forall x :: x in conflicts' <==> HitBelow(patch, x, index + 1)
  {
    owners', conflicts' := owners, conflicts;
    var paths := Touched(patch.hunks[index]);
    for m := 0 to |paths|
      invariant Owns(patch, owners', index, m)
      invariant forall k | 0 <= k < m :: (patch.key(paths[k]), index) in owners'
      invariant forall x :: x in conflicts' <==> HitBelow(patch, x, index) || HitAt(patch, x, index, m)
    {
      var resolved := patch.key(paths[m]);
      forall x: nat {
        PathHits(patch, owners', index, m, x);
      }
      conflicts' := AgainstOwners(patch, owners', resolved, index, conflicts');
      owners' := owners' + [(resolved, index)];
    }
    forall x: nat {
      HunkHits(patch, index, x);
    }
  }

  /** The conflict set is exactly the conflicted hunks. */
  method ConflictingHunks(patch: Patch) returns (conflicts: set<nat>)
    ensures forall i :: i in conflicts <==> patch.Conflicted(i)
    ensures forall i: nat, j: nat, p, q |
      && i < |patch.hunks| && j < |patch.hunks| && i != j && !patch.Partners(i, j)
      && NamesPath(patch.hunks[i], p) && NamesPath(patch.hunks[j], q)
      && (patch.key(p) <= patch.key(q) || patch.key(q) <= patch.key(p)) :: i in conflicts && j in conflicts
  {
    var owners: seq<Owner> := [];
    conflicts := {};
    for index := 0 to |patch.hunks|
      invariant Owns(patch, owners, index, 0)
      invariant forall x :: x in conflicts <==> HitBelow(patch, x, index)
    {
      owners, conflicts := ScanHunk(patch, owners, conflicts, index);
    }
    forall x: nat {
      HitIsConflict(patch, x);
    }
    forall i: nat, j: nat, p, q |
      && i < |patch.hunks| && j < |patch.hunks| && i != j && !patch.Partners(i, j)
      && NamesPath(patch.hunks[i], p) && NamesPath(patch.hunks[j], q)
      && (patch.key(p) <= patch.key(q) || patch.key(q) <= patch.key(p))
      ensures i in conflicts && j in conflicts
    {
      BothConflict(patch, i, j, p, q);
    }
  }

  lemma BothConflict(patch: Patch, i: nat, j: nat, p: Path, q: Path)
    requires i < |patch.hunks| && j < |patch.hunks| && i != j && !patch.Partners(i, j)
    requires NamesPath(patch.hunks[i], p) && NamesPath(patch.hunks[j], q)
    requires patch.key(p) <= patch.key(q) || patch.key(q) <= patch.key(p)
    ensures patch.Conflicted(i) && patch.Conflicted(j)
  {
    assert q in Touched(patch.hunks[j]) && Related(patch.key(p), patch.key(q));
    assert p in Touched(patch.hunks[i]) && patch.Meets(p, j);
    patch.ClashIsSymmetric(i, j);
    assert !patch.Partners(j, i);
  }

  // ----- what becomes of every hunk -----

  /** One call of the upstream applier: success, or a failure that is or is not
      a context mismatch, and has or has not left the tree untouched. */
  datatype Attempt = Success | Failure(context: bool, untouched: bool)

  /** What the outside answers for one hunk: the atomic replacement, the first
      attempt, the file the recovery reads, and the second attempt. */
  datatype Answers = Answers(replaced: bool, first: Attempt, file: R.File, second: Attempt)

  datatype Fate = Applied | Recovered | Failed | Folded

  /** The hunk failed to match, wrote nothing, and has chunks that belong in one
      other order. */
  ghost predicate Retried(h: Hunk, a: Answers) {
    && a.first.Failure? && a.first.context && a.first.untouched
    && h.UpdateFile? && R.Recoverable(a.file, h.chunks)
  }

  ghost function FateOf(patch: Patch, conflicts: set<nat>, i: nat, a: Answers): Fate
    requires i < |patch.hunks|
  {
    if i in conflicts then Failed
    else if patch.Pair(i) then (if a.replaced then Applied else Failed)
    else if i > 0 && patch.Pair(i - 1) then Folded
    else if a.first.Success? then Applied
    else if Retried(patch.hunks[i], a) && a.second.Success? then Recovered
    else Failed
  }

  /** What upstream makes of a file and a list of chunks. */
  type Applier = (seq<R.Line>, seq<R.Chunk>) -> Option<seq<R.Line>>

  /** The contract of upstream's matching: chunks in file order are searched for
      one after the other, from left to right. */
  ghost predicate SearchesInTurn(apply: Applier, rewrite: R.Chunk -> seq<R.Line>) {
    forall lines, chunks | R.InFileOrder(lines, chunks) ::
      apply(lines, chunks) == R.ApplyInTurn(R.Seek, lines, 0, R.EditsOf(lines, chunks, rewrite))
  }

  /** `retried` is the file order of `chunks`, and applying it leaves the file
      with all their places rewritten at once. */
  ghost predicate RecoveredAs(lines: seq<R.Line>, chunks: seq<R.Chunk>, retried: seq<R.Chunk>) {
    && multiset(retried) == multiset(chunks) && R.InFileOrder(lines, retried)
    && forall apply, rewrite | SearchesInTurn(apply, rewrite) ::
         apply(lines, retried) == Some(R.Rewritten(lines, retried, rewrite))
  }

  lemma FileOrderRecovers(lines: seq<R.Line>, chunks: seq<R.Chunk>, retried: seq<R.Chunk>)
    requires multiset(retried) == multiset(chunks) && R.InFileOrder(lines, retried)
    ensures RecoveredAs(lines, chunks, retried)
  {
    forall apply, rewrite | SearchesInTurn(apply, rewrite)
      ensures apply(lines, retried) == Some(R.Rewritten(lines, retried, rewrite))
    {
      R.RecoveredHunkApplies(lines, retried, rewrite);
    }
  }

  /** A recovered hunk leaves the same file whatever order its chunks came in:
      the one with all their places rewritten at once. */
  lemma RecoveryForgetsTheOrder(
    lines: seq<R.Line>, chunks: seq<R.Chunk>, others: seq<R.Chunk>, retried: seq<R.Chunk>, alike: seq<R.Chunk>,
    apply: Applier, rewrite: R.Chunk -> seq<R.Line>)
    requires multiset(chunks) == multiset(others) && SearchesInTurn(apply, rewrite)
    requires RecoveredAs(lines, chunks, retried) && RecoveredAs(lines, others, alike)
    ensures retried == alike
    ensures apply(lines, retried) == apply(lines, alike) == Some(R.Rewritten(lines, retried, rewrite))
  {
    R.OneFileOrder(lines, retried, alike);
  }

  /** A list of indices below `n`, in patch order and without repetition. */
  ghost predicate Listed(xs: seq<nat>, n: nat) {
    && (forall k | 0 <= k < |xs| :: xs[k] < n)
    && forall i, j | 0 <= i < j < |xs| :: xs[i] < xs[j]
  }

  /** The lists of a report tell the fates of the first `n` hunks. */
  ghost predicate Tells(applied: seq<nat>, failed: seq<nat>, recovered: seq<nat>, n: nat, fates: nat -> Fate) {
    && Listed(applied, n) && Listed(failed, n) && Listed(recovered, n)
    && forall i: nat | i < n :: Reported(applied, failed, recovered, i, fates(i))
  }

  method AddIf(xs: seq<nat>, n: nat, add: bool) returns (r: seq<nat>)
    requires Listed(xs, n)
    ensures Listed(r, n + 1) && forall i: nat :: i in r <==> i in xs || (add && i == n)
  {
    r := if add then xs + [n] else xs;
  }

  method AddFate(applied: seq<nat>, failed: seq<nat>, recovered: seq<nat>, n: nat, fate: Fate, ghost fates: nat -> Fate)
    returns (applied': seq<nat>, failed': seq<nat>, recovered': seq<nat>)
    requires Tells(applied, failed, recovered, n, fates) && fates(n) == fate
    ensures Tells(applied', failed', recovered', n + 1, fates)
    ensures forall i :: i in recovered' <==> i in recovered || (i == n && fate == Recovered)
  {
    applied' := AddIf(applied, n, fate == Applied || fate == Recovered);
    recovered' := AddIf(recovered, n, fate == Recovered);
    failed' := AddIf(failed, n, fate == Failed);
  }

  /** The report of a patch: the lists partition the hunks that are not folded
      into a deletion, each in patch order and without repetition, and what was
      recovered is among what was applied. */
  method ApplyPatch(patch: Patch, answers: seq<Answers>)
    returns (applied: seq<nat>, failed: seq<nat>, recovered: seq<nat>, ghost conflicts: set<nat>,
             ghost retried: map<nat, seq<R.Chunk>>)
    requires |answers| == |patch.hunks|
    ensures forall i :: i in conflicts <==> patch.Conflicted(i)
    ensures Listed(applied, |patch.hunks|) && Listed(failed, |patch.hunks|) && Listed(recovered, |patch.hunks|)
    ensures forall i: nat | i < |patch.hunks| :: Reported(applied, failed, recovered, i, FateOf(patch, conflicts, i, answers[i]))
    ensures forall i | i in recovered :: RetriedAs(patch, answers, retried, i)
    ensures forall i: nat | i < |patch.hunks| :: Tell(patch, conflicts, answers[i], i, applied, failed, recovered)
    ensures patch.PairsShareKey() ==> forall i: nat | i < |patch.hunks| ::
              i !in applied && i !in failed ==> i > 0 && patch.Pair(i - 1) && !patch.Conflicted(i - 1)
  {
    var found := ConflictingHunks(patch);
    conflicts, retried := found, map[];
    applied, failed, recovered := [], [], [];
    ghost var fates: nat -> Fate :=
      (i: nat) => if i < |patch.hunks| then FateOf(patch, found, i, answers[i]) else Folded;
    for index := 0 to |patch.hunks|
      invariant Tells(applied, failed, recovered, index, fates)
      invariant forall i | i in recovered :: RetriedAs(patch, answers, retried, i)
    {
      var fate, chunks := RunHunk(patch, found, index, answers[index]);
      applied, failed, recovered := AddFate(applied, failed, recovered, index, fate, fates);
      retried := if fate == Recovered then retried[index := chunks] else retried;
    }
    forall i: nat | i < |patch.hunks|
      ensures Reported(applied, failed, recovered, i, FateOf(patch, conflicts, i, answers[i]))
    {
      assert Reported(applied, failed, recovered, i, fates(i));
    }
    forall i: nat | i < |patch.hunks| ensures Tell(patch, conflicts, answers[i], i, applied, failed, recovered) {
      assert Reported(applied, failed, recovered, i, FateOf(patch, conflicts, i, answers[i]));
    }
    if patch.PairsShareKey() {
      forall i: nat | i < |patch.hunks| && i !in applied && i !in failed
        ensures i > 0 && patch.Pair(i - 1) && !patch.Conflicted(i - 1)
      {
        assert Reported(applied, failed, recovered, i, FateOf(patch, found, i, answers[i]));
        FoldedWithPartner(patch, found, i, answers[i]);
      }
    }
  }

  /** What the report says of hunk `i`: a flagged one failed; a pair is applied if
      it was replaced and fails otherwise, under the deletion's number; any other
      is applied if the first attempt succeeded, or recovered by the second. */
  ghost predicate Tell(patch: Patch, conflicts: set<nat>, a: Answers, i: nat,
                       applied: seq<nat>, failed: seq<nat>, recovered: seq<nat>)
    requires i < |patch.hunks|
  {
    var second := i > 0 && patch.Pair(i - 1);
    && (i in conflicts ==> i in failed && i !in applied)
    && (i !in conflicts && patch.Pair(i) ==>
          i !in recovered && if a.replaced then i in applied && i !in failed else i in failed && i !in applied)
    && (i !in conflicts && second && !patch.Pair(i) ==> i !in applied && i !in failed)
    && (i !in conflicts && !second && !patch.Pair(i) && a.first.Success? ==>
          i in applied && i !in recovered && i !in failed)
    && (i !in conflicts && !second && !patch.Pair(i) && !a.first.Success? ==>
          if Retried(patch.hunks[i], a) && a.second.Success? then i in applied && i in recovered && i !in failed
          else i in failed && i !in applied && i !in recovered)
  }

  lemma FoldedWithPartner(patch: Patch, conflicts: set<nat>, i: nat, a: Answers)
    requires patch.PairsShareKey() && i < |patch.hunks| && FateOf(patch, conflicts, i, a) == Folded
    requires forall x :: x in conflicts <==> patch.Conflicted(x)
    ensures i > 0 && patch.Pair(i - 1) && !patch.Conflicted(i - 1)
  {
    patch.PairsConflictTogether(i - 1);
  }

  ghost predicate RetriedAs(patch: Patch, answers: seq<Answers>, retried: map<nat, seq<R.Chunk>>, i: nat) {
    && i < |patch.hunks| && i < |answers| && i in retried
    && patch.hunks[i].UpdateFile? && answers[i].file.File?
    && RecoveredAs(answers[i].file.lines, patch.hunks[i].chunks, retried[i])
  }

  /** Where hunk `i` shows up in the report. */
  ghost predicate Reported(applied: seq<nat>, failed: seq<nat>, recovered: seq<nat>, i: nat, fate: Fate) {
    && (i in applied <==> fate == Applied || fate == Recovered)
    && (i in failed <==> fate == Failed)
    && (i in recovered <==> fate == Recovered)
  }

  /** The body of the loop over the hunks.  A recovered hunk was retried with
      its chunks in file order. */
  method RunHunk(patch: Patch, conflicts: set<nat>, index: nat, a: Answers) returns (fate: Fate, retried: seq<R.Chunk>)
    requires index < |patch.hunks|
    ensures fate == FateOf(patch, conflicts, index, a)
    ensures fate == Recovered ==>
      patch.hunks[index].UpdateFile? && a.file.File? && RecoveredAs(a.file.lines, patch.hunks[index].chunks, retried)
  {
    retried := [];
    if index in conflicts {
      return Failed, retried;
    }
    if patch.Pair(index) {
      return if a.replaced then Applied else Failed, retried;
    }
    if index > 0 && patch.Pair(index - 1) {
      return Folded, retried;
    }
    if a.first.Success? {
      return Applied, retried;
    }
    if a.first.context && a.first.untouched && patch.hunks[index].UpdateFile? {
      var reordered := R.ReorderUniqueNonoverlapping(a.file, patch.hunks[index].chunks);
      if reordered.Some? {
        FileOrderRecovers(a.file.lines, patch.hunks[index].chunks, reordered.value);
        return if a.second.Success? then Recovered else Failed, reordered.value;
      }
    }
    return Failed, retried;
  }

  // ----- the order does not matter -----

  type Tree = map<Key, string>

  function Get(t: Tree, k: Key): Option<string> {
    if k in t then Some(t[k]) else None
  }

  /** One operation as it acts on the files: the places it may change, and how
      it changes the tree. */
  datatype Op = Op(keys: set<Key>, run: Tree -> Tree)

  /** What an operation may look at: its places and all above and below them. */
  ghost predicate Visible(keys: set<Key>, k: Key) {
    exists x | x in keys :: Related(k, x)
  }

  ghost predicate AgreeFor(keys: set<Key>, t: Tree, u: Tree) {
    forall k | Visible(keys, k) :: Get(t, k) == Get(u, k)
  }

  /** The footprint contract of the upstream applier and of the replacement. */
  ghost predicate KeepsToFootprint(op: Op) {
    && (forall t, k | k !in op.keys :: Get(op.run(t), k) == Get(t, k))
    && forall t, u, k | AgreeFor(op.keys, t, u) && k in op.keys :: Get(op.run(t), k) == Get(op.run(u), k)
  }

  ghost predicate Independent(a: Op, b: Op) {
    forall x, y | x in a.keys && y in b.keys :: !Related(x, y)
  }

  ghost predicate AllIndependent(ops: seq<Op>) {
    && (forall op | op in ops :: KeepsToFootprint(op))
    && forall i, j | 0 <= i < |ops| && 0 <= j < |ops| && i != j :: Independent(ops[i], ops[j])
  }

  ghost function RunAll(ops: seq<Op>, t: Tree): Tree {
    if ops == [] then t else ops[|ops| - 1].run(RunAll(ops[..|ops| - 1], t))
  }

  /** Every place ends as if its own operation had run alone on the original. */
  lemma {:induction false} EachActsAlone(ops: seq<Op>, t: Tree, k: Key)
    requires AllIndependent(ops)
    ensures forall i | 0 <= i < |ops| && k in ops[i].keys :: Get(RunAll(ops, t), k) == Get(ops[i].run(t), k)
    ensures (forall i | 0 <= i < |ops| :: k !in ops[i].keys) ==> Get(RunAll(ops, t), k) == Get(t, k)
    decreases |ops|
  {
    if ops != [] {
      var front, last := ops[..|ops| - 1], ops[|ops| - 1];
      assert forall op | op in front :: op in ops;
      assert last in ops;
      EachActsAlone(front, t, k);
      if k in last.keys {
        assert AgreeFor(last.keys, RunAll(front, t), t) by {
          forall x | Visible(last.keys, x) ensures Get(RunAll(front, t), x) == Get(t, x) {
            EachActsAlone(front, t, x);
            forall i | 0 <= i < |front| ensures x !in front[i].keys {
              assert Independent(ops[i], ops[|ops| - 1]);
            }
          }
        }
      }
    }
  }

  /** The surviving operations of a patch give the same tree in every order. */
  lemma AnyOrderGivesTheSameTree(ops: seq<Op>, others: seq<Op>, t: Tree)
    requires AllIndependent(ops) && AllIndependent(others)
    requires forall op :: op in ops <==> op in others
    ensures RunAll(ops, t) == RunAll(others, t)
  {
    forall k ensures Get(RunAll(ops, t), k) == Get(RunAll(others, t), k) {
      EachActsAlone(ops, t, k);
      EachActsAlone(others, t, k);
      if i :| 0 <= i < |ops| && k in ops[i].keys {
        assert ops[i] in others;
        var j :| 0 <= j < |others| && others[j] == ops[i];
      } else {
        assert forall j | 0 <= j < |others| :: others[j] in ops;
      }
    }
    var a, b := RunAll(ops, t), RunAll(others, t);
    assert forall k :: k in a <==> k in b by {
      forall k ensures k in a <==> k in b {
        assert Get(a, k) == Get(b, k);
      }
    }
    forall k | k in a ensures a[k] == b[k] {
      assert Get(a, k) == Get(b, k);
    }
  }

  /** The places an executed hunk may change; a pair counts as one operation. */
  ghost function Places(patch: Patch, i: nat): set<Key> {
    if i >= |patch.hunks| then {} else
    (set p | p in Touched(patch.hunks[i]) :: patch.key(p))
    + (if patch.Pair(i) then set p | p in Touched(patch.hunks[i + 1]) :: patch.key(p) else {})
  }

  /** The places are those of every path the hunk, or its partner, names. */
  lemma PlacesAre(patch: Patch, i: nat, k: Key)
    requires i < |patch.hunks|
    ensures k in Places(patch, i) <==>
      || (exists p | NamesPath(patch.hunks[i], p) :: patch.key(p) == k)
      || (patch.Pair(i) && exists p | NamesPath(patch.hunks[i + 1], p) :: patch.key(p) == k)
  {
  }

  /** Hunk `i` is executed: not flagged, and not the second half of a pair. */
  ghost predicate Executed(patch: Patch, i: nat) {
    i < |patch.hunks| && !patch.Conflicted(i) && !(i > 0 && patch.Pair(i - 1))
  }

  lemma SurvivorsAreUnrelated(patch: Patch, i: nat, j: nat, x: Key, y: Key)
    requires patch.PairsShareKey() && Executed(patch, i) && Executed(patch, j) && i != j
    requires x in Places(patch, i) && y in Places(patch, j)
    ensures !Related(x, y)
  {
    var p :| p in Touched(patch.hunks[i]) && patch.key(p) == x;
    var q :| q in Touched(patch.hunks[j]) && patch.key(q) == y;
    assert !patch.Partners(i, j);
    assert !patch.Clash(i, j);
    assert !patch.Meets(p, j);
  }

  /** Whatever order the executed hunks of a patch are run in, the files end the
      same, given only that each keeps to its own places. */
  lemma PatchOrderIsIrrelevant(patch: Patch, run: nat -> Tree -> Tree, order: seq<nat>, other: seq<nat>, t: Tree)
    requires patch.PairsShareKey()
    requires forall i :: i in order <==> i in other
    requires forall i | i in order :: Executed(patch, i) && KeepsToFootprint(Op(Places(patch, i), run(i)))
    requires forall a, b | 0 <= a < b < |order| :: order[a] != order[b]
    requires forall a, b | 0 <= a < b < |other| :: other[a] != other[b]
    ensures RunAll(Ops(patch, run, order), t) == RunAll(Ops(patch, run, other), t)
  {
    SurvivorsIndependent(patch, run, order);
    SurvivorsIndependent(patch, run, other);
    var ops, others := Ops(patch, run, order), Ops(patch, run, other);
    forall op ensures op in ops <==> op in others {
      if op in ops {
        var a :| 0 <= a < |ops| && ops[a] == op;
        assert order[a] in other;
        var b :| 0 <= b < |other| && other[b] == order[a];
        assert others[b] == op;
      }
      if op in others {
        var b :| 0 <= b < |others| && others[b] == op;
        assert other[b] in order;
        var a :| 0 <= a < |order| && order[a] == other[b];
        assert ops[a] == op;
      }
    }
    AnyOrderGivesTheSameTree(ops, others, t);
  }

  ghost function Ops(patch: Patch, run: nat -> Tree -> Tree, order: seq<nat>): seq<Op> {
    seq(|order|, a requires 0 <= a < |order| => Op(Places(patch, order[a]), run(order[a])))
  }

  lemma SurvivorsIndependent(patch: Patch, run: nat -> Tree -> Tree, order: seq<nat>)
    requires patch.PairsShareKey()
    requires forall i | i in order :: Executed(patch, i) && KeepsToFootprint(Op(Places(patch, i), run(i)))
    requires forall a, b | 0 <= a < b < |order| :: order[a] != order[b]
    ensures AllIndependent(Ops(patch, run, order))
  {
    var ops := Ops(patch, run, order);
    forall a, b | 0 <= a < |ops| && 0 <= b < |ops| && a != b ensures Independent(ops[a], ops[b]) {
      assert order[a] in order && order[b] in order;
      forall x, y | x in ops[a].keys && y in ops[b].keys ensures !Related(x, y) {
        SurvivorsAreUnrelated(patch, order[a], order[b], x, y);
      }
    }
    forall op | op in ops ensures KeepsToFootprint(op) {
      var a :| 0 <= a < |ops| && ops[a] == op;
      assert order[a] in order;
    }
  }
}
