/**
 Recovery of update hunks whose chunks are given out of file order
 (src/apply_patch/recovery.rs).
 */
module PatchRecovery {
  import opened Results
  import opened Whitespace

  type Line = string

  datatype Chunk = Chunk(changeContext: Option<string>, oldLines: seq<Line>, newLines: seq<Line>, isEndOfFile: bool)

  const MAX_RECOVERY_FILE_BYTES: nat := 8 * 1024 * 1024

  // ----- the three matchers -----

  datatype Tier = Exact | TrailingSpace | SurroundingSpace

  predicate SameLine(tier: Tier, left: Line, right: Line) {
    match tier
    case Exact => left == right
    case TrailingSpace => TrimEnd(left) == TrimEnd(right)
    case SurroundingSpace => Trim(left) == Trim(right)
  }

  /** What a tier overlooks: nothing, white space at the end of a line, or white
      space around it. */
  lemma TierMeans(tier: Tier, left: Line, right: Line)
    ensures SameLine(tier, left, right) <==>
      match tier
      case Exact => left == right
      case TrailingSpace => SameButEnd(left, right)
      case SurroundingSpace => SameButAround(left, right)
  {
    TrimEndMeans(left, right);
    TrimMeans(left, right);
  }

  ghost predicate Stretch(tier: Tier, lines: seq<Line>, pattern: seq<Line>, before: seq<Line>, part: seq<Line>, after: seq<Line>) {
    && lines == before + part + after && |part| == |pattern|
    && forall k | 0 <= k < |pattern| :: SameLine(tier, part[k], pattern[k])
  }

  lemma MatchIsStretch(tier: Tier, lines: seq<Line>, pattern: seq<Line>, start: nat)
    requires MatchesAt(tier, lines, pattern, start)
    ensures Stretch(tier, lines, pattern, lines[..start], lines[start..start + |pattern|], lines[start + |pattern|..])
  {
    var part := lines[start..start + |pattern|];
    assert lines == lines[..start] + part + lines[start + |pattern|..];
    forall k | 0 <= k < |pattern| ensures SameLine(tier, part[k], pattern[k]) {
      assert part[k] == lines[start + k];
    }
  }

  lemma StretchIsMatch(tier: Tier, lines: seq<Line>, pattern: seq<Line>, before: seq<Line>, part: seq<Line>, after: seq<Line>)
    requires Stretch(tier, lines, pattern, before, part, after)
    ensures MatchesAt(tier, lines, pattern, |before|)
  {
    forall k | 0 <= k < |pattern| ensures SameLine(tier, lines[|before| + k], pattern[k]) {
      assert lines[|before| + k] == part[k];
    }
  }

  /** A match is a stretch of the file, as long as the pattern, line by line the
      same to the tier. */
  lemma MatchMeans(tier: Tier, lines: seq<Line>, pattern: seq<Line>, start: nat)
    ensures MatchesAt(tier, lines, pattern, start) <==>
      exists before, part, after :: |before| == start && Stretch(tier, lines, pattern, before, part, after)
  {
    if MatchesAt(tier, lines, pattern, start) {
      MatchIsStretch(tier, lines, pattern, start);
    }
    forall before, part, after | |before| == start && Stretch(tier, lines, pattern, before, part, after)
      ensures MatchesAt(tier, lines, pattern, start)
    {
      StretchIsMatch(tier, lines, pattern, before, part, after);
    }
  }

  predicate Stricter(a: Tier, b: Tier) {
    a == b || a.Exact? || b.SurroundingSpace?
  }

  /** The tiers overlook more and more: a match of a stricter one is a match of
      every laxer one. */
  lemma LaxerMatches(a: Tier, b: Tier, lines: seq<Line>, pattern: seq<Line>, start: nat)
    requires Stricter(a, b) && MatchesAt(a, lines, pattern, start)
    ensures MatchesAt(b, lines, pattern, start)
  {
    forall k | 0 <= k < |pattern| ensures SameLine(b, lines[start + k], pattern[k]) {
      var l, r := lines[start + k], pattern[k];
      assert SameLine(a, l, r);
    }
  }

  predicate MatchesAt(tier: Tier, lines: seq<Line>, pattern: seq<Line>, start: nat) {
    start + |pattern| <= |lines| && forall k | 0 <= k < |pattern| :: SameLine(tier, lines[start + k], pattern[k])
  }

  // ----- unique location -----

  ghost predicate NoMatch(tier: Tier, lines: seq<Line>, pattern: seq<Line>) {
    forall i: nat :: !MatchesAt(tier, lines, pattern, i)
  }

  ghost predicate OnlyAt(tier: Tier, lines: seq<Line>, pattern: seq<Line>, i: nat) {
    MatchesAt(tier, lines, pattern, i) && forall j: nat :: MatchesAt(tier, lines, pattern, j) ==> j == i
  }

  /** The strictest tier with any match has exactly one, at `i`. */
  ghost predicate Located(lines: seq<Line>, pattern: seq<Line>, i: nat) {
    && pattern != []
    && (|| OnlyAt(Exact, lines, pattern, i)
        || (NoMatch(Exact, lines, pattern) && OnlyAt(TrailingSpace, lines, pattern, i))
        || (NoMatch(Exact, lines, pattern) && NoMatch(TrailingSpace, lines, pattern)
            && OnlyAt(SurroundingSpace, lines, pattern, i)))
  }

  lemma LocatedOnce(lines: seq<Line>, pattern: seq<Line>, i: nat, j: nat)
    requires Located(lines, pattern, i) && Located(lines, pattern, j)
    ensures i == j
  {
  }

  ghost function Location(lines: seq<Line>, pattern: seq<Line>): Option<nat> {
    if exists i: nat :: Located(lines, pattern, i) then
      var i: nat :| Located(lines, pattern, i);
      Some(i)
    else None
  }

  /** One tier's pass over the file: no match, one match, or ambiguity. */
  method Pass(tier: Tier, lines: seq<Line>, pattern: seq<Line>) returns (found: Option<nat>, ambiguous: bool)
    requires pattern != [] && |pattern| <= |lines|
    ensures ambiguous ==> !NoMatch(tier, lines, pattern) && forall i: nat :: !OnlyAt(tier, lines, pattern, i)
    ensures !ambiguous && found.None? ==> NoMatch(tier, lines, pattern)
    ensures !ambiguous && found.Some? ==> OnlyAt(tier, lines, pattern, found.value)
  {
    found, ambiguous := None, false;
    for start := 0 to |lines| - |pattern| + 1
      invariant found.None? ==> forall j: nat | j < start :: !MatchesAt(tier, lines, pattern, j)
      invariant found.Some? ==> found.value < start && MatchesAt(tier, lines, pattern, found.value)
      invariant found.Some? ==> forall j: nat | j < start && MatchesAt(tier, lines, pattern, j) :: j == found.value
    {
      if MatchesAt(tier, lines, pattern, start) {
        if found.Some? {
          return found, true;
        }
        found := Some(start);
      }
    }
  }

  method Locate(lines: seq<Line>, pattern: seq<Line>) returns (r: Option<nat>)
    ensures r == Location(lines, pattern)
  {
    if pattern == [] || |pattern| > |lines| {
      return None;
    }
    var tiers := [Exact, TrailingSpace, SurroundingSpace];
    for k := 0 to 3
      invariant k > 0 ==> NoMatch(Exact, lines, pattern)
      invariant k > 1 ==> NoMatch(TrailingSpace, lines, pattern)
      invariant k > 2 ==> NoMatch(SurroundingSpace, lines, pattern)
    {
      var found, ambiguous := Pass(tiers[k], lines, pattern);
      if ambiguous {
        return None;
      }
      if found.Some? {
        assert Located(lines, pattern, found.value);
        LocatedOnce(lines, pattern, found.value, Location(lines, pattern).value);
        return found;
      }
    }
    return None;
  }

  // ----- the span of a chunk -----

  datatype Span = Span(start: nat, end: nat)

  /** Where a chunk belongs, if the file says so uniquely. */
  ghost function SpanOf(lines: seq<Line>, text: seq<Line>): Option<Span> {
    if forall l | l in text :: l == "" then None
    else if Location(lines, text).Some? then
      Some(Span(Location(lines, text).value, Location(lines, text).value + |text|))
    else if |text| > 1 && text[|text| - 1] == "" && Location(lines, text[..|text| - 1]).Some? then
      var i := Location(lines, text[..|text| - 1]).value;
      Some(Span(i, i + |text| - 1))
    else None
  }

  lemma SpanIsLocated(lines: seq<Line>, text: seq<Line>)
    requires SpanOf(lines, text).Some?
    ensures var r := SpanOf(lines, text).value;
      r.start < r.end <= r.start + |text| && Located(lines, text[..r.end - r.start], r.start)
  {
    assert text[..|text|] == text;
  }

  method UniqueStart(lines: seq<Line>, text: seq<Line>) returns (r: Option<Span>)
    ensures r == SpanOf(lines, text)
    ensures r.Some? ==>
              && r.value.start < r.value.end <= r.value.start + |text|
              && Located(lines, text[..r.value.end - r.value.start], r.value.start)
  {
    r := LocateSpan(lines, text);
    if r.Some? {
      SpanIsLocated(lines, text);
    }
  }

  method LocateSpan(lines: seq<Line>, text: seq<Line>) returns (r: Option<Span>)
    ensures r == SpanOf(lines, text)
  {
    if forall l | l in text :: l == "" {
      return None;
    }
    var i := Locate(lines, text);
    if i.Some? {
      return Some(Span(i.value, i.value + |text|));
    }
    if |text| > 1 && text[|text| - 1] == "" {
      i := Locate(lines, text[..|text| - 1]);
      if i.Some? {
        return Some(Span(i.value, i.value + |text| - 1));
      }
    }
    return None;
  }

  ghost function ChunkSpan(lines: seq<Line>, c: Chunk): Option<Span> {
    if c.changeContext.Some? || c.isEndOfFile then None else SpanOf(lines, c.oldLines)
  }

  // ----- reordering -----

  datatype Entry = Entry(start: nat, end: nat, index: nat)

  predicate Leq(a: Entry, b: Entry) {
    a.start < b.start || (a.start == b.start && (a.end < b.end || (a.end == b.end && a.index <= b.index)))
  }

  function Insert(e: Entry, xs: seq<Entry>): (r: seq<Entry>)
    ensures forall x :: x in r <==> x == e || x in xs
  {
    if xs == [] then [e] else if Leq(e, xs[0]) then [e] + xs else [xs[0]] + Insert(e, xs[1..])
  }

  /** `sort_unstable` on the tuples. */
  function Sort(xs: seq<Entry>): (r: seq<Entry>)
    ensures forall x :: x in r <==> x in xs
  {
    if xs == [] then [] else Insert(xs[|xs| - 1], Sort(xs[..|xs| - 1]))
  }

  ghost predicate Sorted(xs: seq<Entry>) {
    forall i, j | 0 <= i < j < |xs| :: Leq(xs[i], xs[j])
  }

  lemma {:induction false} InsertKeeps(e: Entry, xs: seq<Entry>)
    ensures multiset(Insert(e, xs)) == multiset(xs) + multiset{e}
  {
    if xs != [] && !Leq(e, xs[0]) {
      InsertKeeps(e, xs[1..]);
      assert xs == [xs[0]] + xs[1..];
    }
  }

  lemma SortedCons(x: Entry, xs: seq<Entry>)
    requires Sorted(xs) && forall e | e in xs :: Leq(x, e)
    ensures Sorted([x] + xs)
  {
  }

  lemma SortedHead(xs: seq<Entry>)
    requires Sorted(xs) && xs != []
    ensures Sorted(xs[1..]) && forall e | e in xs :: Leq(xs[0], e)
  {
  }

  lemma {:induction false} InsertSorts(e: Entry, xs: seq<Entry>)
    requires Sorted(xs)
    ensures Sorted(Insert(e, xs))
  {
    if xs != [] {
      SortedHead(xs);
      if Leq(e, xs[0]) {
        SortedCons(e, xs);
      } else {
        InsertSorts(e, xs[1..]);
        SortedCons(xs[0], Insert(e, xs[1..]));
      }
    }
  }

  lemma {:induction false} SortSorts(xs: seq<Entry>)
    ensures Sorted(Sort(xs)) && multiset(Sort(xs)) == multiset(xs)
  {
    if xs != [] {
      SortSorts(xs[..|xs| - 1]);
      InsertSorts(xs[|xs| - 1], Sort(xs[..|xs| - 1]));
      InsertKeeps(xs[|xs| - 1], Sort(xs[..|xs| - 1]));
      assert xs == xs[..|xs| - 1] + [xs[|xs| - 1]];
    }
  }

  function Pick(chunks: seq<Chunk>, order: seq<Entry>): (r: seq<Chunk>)
    requires forall e | e in order :: e.index < |chunks|
    ensures |r| == |order| && forall k | 0 <= k < |r| :: r[k] == chunks[order[k].index]
  {
    seq(|order|, k requires 0 <= k < |order| => chunks[order[k].index])
  }

  /** The chunks in file order: each uniquely placed, and no two overlapping. */
  ghost predicate InFileOrder(lines: seq<Line>, chunks: seq<Chunk>) {
    && (forall c | c in chunks :: ChunkSpan(lines, c).Some?)
    && forall i, j | 0 <= i < j < |chunks| :: ChunkSpan(lines, chunks[i]).value.end <= ChunkSpan(lines, chunks[j]).value.start
  }

  ghost predicate Apart(a: Span, b: Span) {
    a.end <= b.start || b.end <= a.start
  }

  ghost predicate AllApart(lines: seq<Line>, chunks: seq<Chunk>) {
    && (forall c | c in chunks :: ChunkSpan(lines, c).Some?)
    && forall i, j | 0 <= i < j < |chunks| :: Apart(ChunkSpan(lines, chunks[i]).value, ChunkSpan(lines, chunks[j]).value)
  }

  /** The file on disk: unreadable, or its size and its logical lines. */
  datatype File = Unreadable | File(size: nat, lines: seq<Line>)

  /** When the recovery applies: the chunks have unique, disjoint places, and
      are not in file order already. */
  ghost predicate Recoverable(file: File, chunks: seq<Chunk>) {
    && |chunks| >= 2 && file.File? && file.size <= MAX_RECOVERY_FILE_BYTES
    && AllApart(file.lines, chunks) && !InFileOrder(file.lines, chunks)
  }

  /** `e` is where chunk number `e.index` belongs. */
  ghost predicate EntryOf(lines: seq<Line>, chunks: seq<Chunk>, e: Entry) {
    && e.index < |chunks| && ChunkSpan(lines, chunks[e.index]) == Some(Span(e.start, e.end)) && e.start < e.end
  }

  lemma SpanNotEmpty(lines: seq<Line>, c: Chunk)
    requires ChunkSpan(lines, c).Some?
    ensures ChunkSpan(lines, c).value.start < ChunkSpan(lines, c).value.end
  {
  }

  method LocateAll(lines: seq<Line>, chunks: seq<Chunk>) returns (r: Option<seq<Entry>>)
    ensures r.None? ==> exists c | c in chunks :: ChunkSpan(lines, c).None?
    ensures r.Some? ==> |r.value| == |chunks|
    ensures r.Some? ==> forall k | 0 <= k < |chunks| :: r.value[k].index == k && EntryOf(lines, chunks, r.value[k])
  {
    var located: seq<Entry> := [];
    for index := 0 to |chunks|
      invariant |located| == index
      invariant forall k | 0 <= k < index :: located[k].index == k && EntryOf(lines, chunks, located[k])
    {
      var c := chunks[index];
      if c.changeContext.Some? || c.isEndOfFile {
        assert c in chunks && ChunkSpan(lines, c).None?;
        return None;
      }
      var span := UniqueStart(lines, c.oldLines);
      if span.None? {
        assert c in chunks && ChunkSpan(lines, c).None?;
        return None;
      }
      SpanNotEmpty(lines, c);
      located := located + [Entry(span.value.start, span.value.end, index)];
    }
    return Some(located);
  }

  ghost predicate NoDup(xs: seq<Entry>) {
    forall i, j | 0 <= i < j < |xs| :: xs[i] != xs[j]
  }

  lemma {:induction false} NoDupCounts(xs: seq<Entry>, e: Entry)
    ensures NoDup(xs) ==> multiset(xs)[e] <= 1
    ensures e in xs ==> multiset(xs)[e] >= 1
    ensures forall i, j | 0 <= i < j < |xs| && xs[i] == xs[j] :: multiset(xs)[xs[i]] >= 2
  {
    if xs != [] {
      var front, last := xs[..|xs| - 1], xs[|xs| - 1];
      assert xs == front + [last];
      NoDupCounts(front, e);
      forall i, j | 0 <= i < j < |xs| && xs[i] == xs[j] ensures multiset(xs)[xs[i]] >= 2 {
        if j < |front| {
          assert front[i] == front[j];
        } else {
          assert front[i] == last;
        }
      }
      if NoDup(xs) && e == last {
        assert e !in front;
      }
    }
  }

  lemma NoDupPermutes(xs: seq<Entry>, ys: seq<Entry>)
    requires NoDup(xs) && multiset(xs) == multiset(ys)
    ensures NoDup(ys)
  {
    forall i, j | 0 <= i < j < |ys| ensures ys[i] != ys[j] {
      NoDupCounts(xs, ys[i]);
      NoDupCounts(ys, ys[i]);
    }
  }

  lemma SamePlaces<T>(xs: seq<T>, ys: seq<T>)
    requires multiset(xs) == multiset(ys)
    ensures |xs| == |ys| && forall e :: e in xs <==> e in ys
  {
    assert |multiset(xs)| == |xs| && |multiset(ys)| == |ys|;
    forall e ensures e in xs <==> e in ys {
      assert e in xs <==> e in multiset(xs);
      assert e in ys <==> e in multiset(ys);
    }
  }

  lemma SameTails<T>(xs: seq<T>, ys: seq<T>)
    requires xs != [] && ys != [] && xs[0] == ys[0] && multiset(xs) == multiset(ys)
    ensures multiset(xs[1..]) == multiset(ys[1..])
  {
    assert xs == [xs[0]] + xs[1..] && ys == [ys[0]] + ys[1..];
    assert multiset(xs[1..]) == multiset(xs) - multiset{xs[0]};
    assert multiset(ys[1..]) == multiset(ys) - multiset{ys[0]};
  }

  /** One file order: chunks that can be put in file order can be put in only
      one, whatever order they came in. */
  lemma {:induction false} OneFileOrder(lines: seq<Line>, xs: seq<Chunk>, ys: seq<Chunk>)
    requires InFileOrder(lines, xs) && InFileOrder(lines, ys) && multiset(xs) == multiset(ys)
    ensures xs == ys
  {
    SamePlaces(xs, ys);
    if xs != [] {
      assert xs[0] in ys && ys[0] in xs;
      var i :| 0 <= i < |ys| && ys[i] == xs[0];
      var j :| 0 <= j < |xs| && xs[j] == ys[0];
      SpanNotEmpty(lines, xs[0]);
      SpanNotEmpty(lines, ys[0]);
      assert i == 0 || j == 0;
      SameTails(xs, ys);
      OneFileOrder(lines, xs[1..], ys[1..]);
    }
  }

  lemma PickCons(chunks: seq<Chunk>, e: Entry, xs: seq<Entry>)
    requires e.index < |chunks| && forall x | x in xs :: x.index < |chunks|
    ensures multiset(Pick(chunks, [e] + xs)) == multiset(Pick(chunks, xs)) + multiset{chunks[e.index]}
  {
    assert Pick(chunks, [e] + xs) == [chunks[e.index]] + Pick(chunks, xs);
  }

  lemma {:induction false} InsertPicks(chunks: seq<Chunk>, e: Entry, xs: seq<Entry>)
    requires e.index < |chunks| && forall x | x in xs :: x.index < |chunks|
    ensures multiset(Pick(chunks, Insert(e, xs))) == multiset(Pick(chunks, xs)) + multiset{chunks[e.index]}
  {
    if xs == [] || Leq(e, xs[0]) {
      assert Insert(e, xs) == [e] + xs;
      PickCons(chunks, e, xs);
    } else {
      InsertPicks(chunks, e, xs[1..]);
      PickCons(chunks, xs[0], Insert(e, xs[1..]));
      PickCons(chunks, xs[0], xs[1..]);
      assert xs == [xs[0]] + xs[1..];
    }
  }

  /** Sorting the entries permutes the chunks they name. */
  lemma {:induction false} SortPicks(chunks: seq<Chunk>, xs: seq<Entry>)
    requires forall x | x in xs :: x.index < |chunks|
    ensures multiset(Pick(chunks, Sort(xs))) == multiset(Pick(chunks, xs))
  {
    if xs != [] {
      var front, e := xs[..|xs| - 1], xs[|xs| - 1];
      SortPicks(chunks, front);
      InsertPicks(chunks, e, Sort(front));
      assert Pick(chunks, xs) == Pick(chunks, front) + [chunks[e.index]];
    }
  }

  /** Entries in sorted order whose neighbours do not overlap. */
  lemma ChainIsApart(order: seq<Entry>)
    requires Sorted(order) && (forall e | e in order :: e.start < e.end)
    requires forall k | 0 <= k < |order| - 1 :: order[k].end <= order[k + 1].start
    ensures forall i, j | 0 <= i < j < |order| :: order[i].end <= order[j].start
  {
    forall i, j | 0 <= i < j < |order| ensures order[i].end <= order[j].start {
      assert i + 1 < j ==> Leq(order[i + 1], order[j]);
    }
  }

  method Overlaps(order: seq<Entry>) returns (r: bool)
    ensures r <==> exists k | 0 <= k < |order| - 1 :: order[k].end > order[k + 1].start
  {
    r := exists k | 0 <= k < |order| - 1 :: order[k].end > order[k + 1].start;
  }

  /** What `LocateAll` delivers. */
  ghost predicate Places(lines: seq<Line>, chunks: seq<Chunk>, located: seq<Entry>) {
    |located| == |chunks| && forall k | 0 <= k < |chunks| :: located[k].index == k && EntryOf(lines, chunks, located[k])
  }

  lemma OverlapMeansNotApart(lines: seq<Line>, chunks: seq<Chunk>, located: seq<Entry>, order: seq<Entry>, k: nat)
    requires Places(lines, chunks, located) && multiset(order) == multiset(located) && Sorted(order)
    requires k < |order| - 1 && order[k].end > order[k + 1].start
    ensures !AllApart(lines, chunks)
  {
    SamePlaces(located, order);
    NoDupPermutes(located, order);
    var a, b := order[k], order[k + 1];
    assert a in order && b in order && Leq(a, b) && a != b;
    assert EntryOf(lines, chunks, a) && EntryOf(lines, chunks, b);
    var i, j := if a.index < b.index then a.index else b.index, if a.index < b.index then b.index else a.index;
    assert i < j && !Apart(ChunkSpan(lines, chunks[i]).value, ChunkSpan(lines, chunks[j]).value);
  }

  /** `order` is the sorted form of `located`, and no neighbours overlap. */
  ghost predicate Chained(lines: seq<Line>, chunks: seq<Chunk>, located: seq<Entry>, order: seq<Entry>) {
    && Places(lines, chunks, located) && order == Sort(located) && multiset(order) == multiset(located) && Sorted(order)
    && forall k | 0 <= k < |order| - 1 :: order[k].end <= order[k + 1].start
  }

  lemma TwoInChain(order: seq<Entry>, a: Entry, b: Entry)
    requires Sorted(order) && (forall e | e in order :: e.start < e.end)
    requires forall k | 0 <= k < |order| - 1 :: order[k].end <= order[k + 1].start
    requires a in order && b in order && a != b
    ensures a.end <= b.start || b.end <= a.start
  {
    ChainIsApart(order);
    var i :| 0 <= i < |order| && order[i] == a;
    var j :| 0 <= j < |order| && order[j] == b;
  }

  lemma ChainEntries(lines: seq<Line>, chunks: seq<Chunk>, located: seq<Entry>, order: seq<Entry>)
    requires Chained(lines, chunks, located, order)
    ensures |order| == |chunks| && (forall e | e in order :: EntryOf(lines, chunks, e))
    ensures forall k | 0 <= k < |chunks| :: located[k] in order
  {
    SamePlaces(located, order);
    forall e | e in order ensures EntryOf(lines, chunks, e) {
      var k :| 0 <= k < |located| && located[k] == e;
    }
    forall k | 0 <= k < |chunks| ensures located[k] in order {
      assert located[k] in located;
    }
  }

  lemma PickInOrder(lines: seq<Line>, chunks: seq<Chunk>, located: seq<Entry>, order: seq<Entry>)
    requires Chained(lines, chunks, located, order)
    ensures |order| == |chunks| && forall e | e in order :: e.index < |chunks|
    ensures InFileOrder(lines, Pick(chunks, order)) && multiset(Pick(chunks, order)) == multiset(chunks)
  {
    ChainEntries(lines, chunks, located, order);
    ChainIsApart(order);
    SortPicks(chunks, located);
    assert Pick(chunks, located) == chunks;
    PickedSpans(lines, chunks, order);
  }

  lemma PickedSpans(lines: seq<Line>, chunks: seq<Chunk>, order: seq<Entry>)
    requires forall e | e in order :: EntryOf(lines, chunks, e)
    requires forall i, j | 0 <= i < j < |order| :: order[i].end <= order[j].start
    ensures forall e | e in order :: e.index < |chunks|
    ensures InFileOrder(lines, Pick(chunks, order))
  {
    var out := Pick(chunks, order);
    forall k | 0 <= k < |out| ensures ChunkSpan(lines, out[k]) == Some(Span(order[k].start, order[k].end)) {
      assert order[k] in order;
    }
  }

  lemma ChainedAllApart(lines: seq<Line>, chunks: seq<Chunk>, located: seq<Entry>, order: seq<Entry>)
    requires Chained(lines, chunks, located, order)
    ensures AllApart(lines, chunks)
  {
    ChainEntries(lines, chunks, located, order);
    forall k | 0 <= k < |chunks| ensures ChunkSpan(lines, chunks[k]) == Some(Span(located[k].start, located[k].end)) {
      assert EntryOf(lines, chunks, located[k]);
    }
    forall i, j | 0 <= i < j < |chunks|
      ensures Apart(Span(located[i].start, located[i].end), Span(located[j].start, located[j].end))
    {
      TwoInChain(order, located[i], located[j]);
    }
  }

  /** Sorting moves nothing exactly when the chunks were in file order. */
  lemma MovedMeansDisordered(lines: seq<Line>, chunks: seq<Chunk>, located: seq<Entry>, order: seq<Entry>)
    requires Chained(lines, chunks, located, order)
    ensures InFileOrder(lines, chunks) <==> Unmoved(order)
  {
    PickInOrder(lines, chunks, located, order);
    var out := Pick(chunks, order);
    if Unmoved(order) {
      assert out == chunks;
    }
    if InFileOrder(lines, chunks) {
      OneFileOrder(lines, chunks, out);
      forall k | 0 <= k < |order| ensures order[k].index == k {
        assert order[k] in order && out[k] == chunks[order[k].index];
        SpanNotEmpty(lines, chunks[k]);
      }
    }
  }

  /** The position of every entry is its chunk's index. */
  predicate Unmoved(order: seq<Entry>) {
    forall k | 0 <= k < |order| :: order[k].index == k
  }

  /** Recovery happens exactly when every chunk has its own place in the file
      and they are out of order; the result is the same chunks in file order,
      which is not recovered a second time. */
  method ReorderUniqueNonoverlapping(file: File, chunks: seq<Chunk>) returns (r: Option<seq<Chunk>>)
    ensures r.Some? <==> Recoverable(file, chunks)
    ensures r.Some? ==> multiset(r.value) == multiset(chunks) && InFileOrder(file.lines, r.value)
    ensures r.Some? ==> !Recoverable(file, r.value)
  {
    if |chunks| < 2 || file.Unreadable? || file.size > MAX_RECOVERY_FILE_BYTES {
      return None;
    }
    var located := LocateAll(file.lines, chunks);
    if located.None? {
      return None;
    }
    var order := Sort(located.value);
    SortSorts(located.value);
    var overlaps := Overlaps(order);
    if overlaps {
      var k :| 0 <= k < |order| - 1 && order[k].end > order[k + 1].start;
      OverlapMeansNotApart(file.lines, chunks, located.value, order, k);
      return None;
    }
    PickInOrder(file.lines, chunks, located.value, order);
    ChainedAllApart(file.lines, chunks, located.value, order);
    MovedMeansDisordered(file.lines, chunks, located.value, order);
    if Unmoved(order) {
      return None;
    }
    return Some(Pick(chunks, order));
  }

  // ----- applying what was recovered -----

  /** The upstream search: the first match at or after `from`, strictest tier
      first. */
  function FirstFrom(tier: Tier, lines: seq<Line>, pattern: seq<Line>, from: nat): Option<nat>
    decreases |lines| - from
  {
    if from + |pattern| > |lines| then None
    else if MatchesAt(tier, lines, pattern, from) then Some(from)
    else FirstFrom(tier, lines, pattern, from + 1)
  }

  function Seek(lines: seq<Line>, pattern: seq<Line>, from: nat): Option<nat> {
    if FirstFrom(Exact, lines, pattern, from).Some? then FirstFrom(Exact, lines, pattern, from)
    else if FirstFrom(TrailingSpace, lines, pattern, from).Some? then FirstFrom(TrailingSpace, lines, pattern, from)
    else FirstFrom(SurroundingSpace, lines, pattern, from)
  }

  lemma {:induction false} FirstFromFinds(tier: Tier, lines: seq<Line>, pattern: seq<Line>, from: nat, i: nat)
    requires pattern != []
    ensures NoMatch(tier, lines, pattern) ==> FirstFrom(tier, lines, pattern, from).None?
    ensures OnlyAt(tier, lines, pattern, i) && from <= i ==> FirstFrom(tier, lines, pattern, from) == Some(i)
    decreases |lines| - from
  {
    if from + |pattern| <= |lines| && !MatchesAt(tier, lines, pattern, from) {
      FirstFromFinds(tier, lines, pattern, from + 1, i);
    }
  }

  /** A uniquely located pattern is what the search finds from anywhere before it. */
  lemma SeekFindsLocated(lines: seq<Line>, pattern: seq<Line>, from: nat, i: nat)
    requires Located(lines, pattern, i) && from <= i
    ensures Seek(lines, pattern, from) == Some(i)
  {
    FirstFromFinds(Exact, lines, pattern, from, i);
    FirstFromFinds(TrailingSpace, lines, pattern, from, i);
    FirstFromFinds(SurroundingSpace, lines, pattern, from, i);
  }

  /** The search sees only what lies after its starting point. */
  lemma {:induction false} FirstFromShifts(tier: Tier, a: seq<Line>, b: seq<Line>, pattern: seq<Line>, i: nat, j: nat)
    requires i <= |a| && j <= |b| && a[i..] == b[j..]
    ensures var x, y := FirstFrom(tier, a, pattern, i), FirstFrom(tier, b, pattern, j);
            (x.None? <==> y.None?) && (x.Some? ==> x.value >= i && y.value >= j && x.value - i == y.value - j)
    decreases |a| - i
  {
    if i + |pattern| <= |a| {
      assert forall k | 0 <= k < |pattern| :: a[i..][k] == b[j..][k];
      assert MatchesAt(tier, a, pattern, i) <==> MatchesAt(tier, b, pattern, j);
      if !MatchesAt(tier, a, pattern, i) && i < |a| {
        assert a[i + 1..] == a[i..][1..] && b[j + 1..] == b[j..][1..];
        FirstFromShifts(tier, a, b, pattern, i + 1, j + 1);
      }
    }
  }

  lemma SeekShifts(a: seq<Line>, b: seq<Line>, pattern: seq<Line>, i: nat, j: nat)
    requires i <= |a| && j <= |b| && a[i..] == b[j..]
    ensures var x, y := Seek(a, pattern, i), Seek(b, pattern, j);
            (x.None? <==> y.None?) && (x.Some? ==> x.value >= i && y.value >= j && x.value - i == y.value - j)
  {
    FirstFromShifts(Exact, a, b, pattern, i, j);
    FirstFromShifts(TrailingSpace, a, b, pattern, i, j);
    FirstFromShifts(SurroundingSpace, a, b, pattern, i, j);
  }

  /** One replacement: the pattern located, and the lines to put there. */
  datatype Edit = Edit(pattern: seq<Line>, replacement: seq<Line>)

  type Search = (seq<Line>, seq<Line>, nat) -> Option<nat>

  /** Apply edits one after the other to the file as it changes, each searched
      for from the end of the one before. */
  function ApplyInTurn(seek: Search, current: seq<Line>, cursor: nat, edits: seq<Edit>): Option<seq<Line>>
    decreases |edits|
  {
    if edits == [] then Some(current)
    else
      var at := seek(current, edits[0].pattern, cursor);
      if at.None? || at.value + |edits[0].pattern| > |current| then None
      else ApplyInTurn(seek, Splice(current, at.value, edits[0]), at.value + |edits[0].replacement|, edits[1..])
  }

  function Splice(current: seq<Line>, at: nat, e: Edit): seq<Line>
    requires at + |e.pattern| <= |current|
  {
    current[..at] + e.replacement + current[at + |e.pattern|..]
  }

  /** Replace all spans of the original file at once. */
  function ReplaceAtOnce(lines: seq<Line>, from: nat, starts: seq<nat>, edits: seq<Edit>): seq<Line>
    requires |starts| == |edits| && from <= |lines| && Laid(lines, from, starts, edits)
    decreases |edits|
  {
    if edits == [] then lines[from..]
    else
      lines[from..starts[0]] + edits[0].replacement
      + ReplaceAtOnce(lines, starts[0] + |edits[0].pattern|, starts[1..], edits[1..])
  }

  /** Edit `k` starts at `starts[k]`, and the spans follow each other. */
  predicate Laid(lines: seq<Line>, from: nat, starts: seq<nat>, edits: seq<Edit>)
    requires |starts| == |edits|
  {
    && (forall k | 0 <= k < |edits| :: from <= starts[k] <= starts[k] + |edits[k].pattern| <= |lines|)
    && forall i, j | 0 <= i < j < |edits| :: starts[i] + |edits[i].pattern| <= starts[j]
  }

  lemma LaidTail(lines: seq<Line>, from: nat, starts: seq<nat>, edits: seq<Edit>)
    requires |starts| == |edits| && edits != [] && Laid(lines, from, starts, edits)
    ensures Laid(lines, starts[0] + |edits[0].pattern|, starts[1..], edits[1..])
  {
  }

  /** Wherever the file has been rewritten up to, the search finds the original
      span `at`, shifted. */
  ghost predicate Hits(seek: Search, lines: seq<Line>, pattern: seq<Line>, at: nat) {
    forall done, from: nat :: HitsFrom(seek, lines, pattern, at, done, from)
  }

  ghost predicate HitsFrom(seek: Search, lines: seq<Line>, pattern: seq<Line>, at: nat, done: seq<Line>, from: nat) {
    from <= at <= |lines| ==> seek(done + lines[from..], pattern, |done|) == Some(|done| + (at - from))
  }

  lemma LocatedHits(lines: seq<Line>, pattern: seq<Line>, at: nat)
    requires Located(lines, pattern, at)
    ensures Hits(Seek, lines, pattern, at)
  {
    forall done, from: nat ensures HitsFrom(Seek, lines, pattern, at, done, from) {
      if from <= at <= |lines| {
        SeekFindsLocated(lines, pattern, from, at);
        assert (done + lines[from..])[|done|..] == lines[from..];
        SeekShifts(done + lines[from..], lines, pattern, |done|, from);
      }
    }
  }

  lemma SpliceTail(lines: seq<Line>, done: seq<Line>, from: nat, at: nat, e: Edit)
    requires from <= at && at + |e.pattern| <= |lines|
    ensures |done| + (at - from) + |e.pattern| <= |done + lines[from..]|
    ensures Splice(done + lines[from..], |done| + (at - from), e)
            == (done + lines[from..at] + e.replacement) + lines[at + |e.pattern|..]
  {
    var current, here := done + lines[from..], |done| + (at - from);
    assert current[..here] == done + lines[from..at];
    assert current[here + |e.pattern|..] == lines[at + |e.pattern|..];
  }

  /** Applying the edits in turn gives the simultaneous replacement: no edit is
      searched for in, or shifted by, the wrong place. */
  lemma {:induction false} InTurnIsAtOnce(seek: Search, lines: seq<Line>, done: seq<Line>, from: nat,
                                          starts: seq<nat>, edits: seq<Edit>)
    requires |starts| == |edits| && from <= |lines| && Laid(lines, from, starts, edits)
    requires forall k | 0 <= k < |edits| :: Hits(seek, lines, edits[k].pattern, starts[k])
    ensures ApplyInTurn(seek, done + lines[from..], |done|, edits)
            == Some(done + ReplaceAtOnce(lines, from, starts, edits))
    decreases |edits|
  {
    if edits != [] {
      var e, at := edits[0], starts[0];
      assert HitsFrom(seek, lines, e.pattern, at, done, from);
      SpliceTail(lines, done, from, at, e);
      LaidTail(lines, from, starts, edits);
      var next, done' := at + |e.pattern|, done + lines[from..at] + e.replacement;
      InTurnIsAtOnce(seek, lines, done', next, starts[1..], edits[1..]);
      var rest := ReplaceAtOnce(lines, next, starts[1..], edits[1..]);
      assert ApplyInTurn(seek, done + lines[from..], |done|, edits) == Some(done' + rest);
      Reassociate(done, lines[from..at], e.replacement, rest);
    }
  }

  lemma Reassociate(a: seq<Line>, b: seq<Line>, c: seq<Line>, d: seq<Line>)
    ensures a + b + c + d == a + (b + c + d)
  {
  }

  ghost function StartsOf(lines: seq<Line>, chunks: seq<Chunk>): seq<nat>
    requires InFileOrder(lines, chunks)
  {
    seq(|chunks|, k requires 0 <= k < |chunks| => ChunkSpan(lines, chunks[k]).value.start)
  }

  /** `rewrite` gives the lines that take the place of a chunk's located part. */
  ghost function EditsOf(lines: seq<Line>, chunks: seq<Chunk>, rewrite: Chunk -> seq<Line>): seq<Edit>
    requires InFileOrder(lines, chunks)
  {
    seq(|chunks|, k requires 0 <= k < |chunks| => Edit(LocatedPart(lines, chunks[k]), rewrite(chunks[k])))
  }

  /** The old lines that were located: all of them, or all but a last blank. */
  ghost function LocatedPart(lines: seq<Line>, c: Chunk): (r: seq<Line>)
    requires ChunkSpan(lines, c).Some?
    ensures Located(lines, r, ChunkSpan(lines, c).value.start)
    ensures |r| == ChunkSpan(lines, c).value.end - ChunkSpan(lines, c).value.start
  {
    var span, text := ChunkSpan(lines, c).value, c.oldLines;
    assert text[..|text|] == text;
    if Location(lines, text).Some? then text else text[..|text| - 1]
  }

  lemma FileOrderIsLaid(lines: seq<Line>, chunks: seq<Chunk>, rewrite: Chunk -> seq<Line>)
    requires InFileOrder(lines, chunks)
    ensures Laid(lines, 0, StartsOf(lines, chunks), EditsOf(lines, chunks, rewrite))
  {
    var starts, edits := StartsOf(lines, chunks), EditsOf(lines, chunks, rewrite);
    forall k | 0 <= k < |edits| ensures starts[k] + |edits[k].pattern| <= |lines| {
      assert chunks[k] in chunks;
      LocatedFits(lines, LocatedPart(lines, chunks[k]), starts[k]);
    }
  }

  lemma LocatedFits(lines: seq<Line>, pattern: seq<Line>, i: nat)
    requires Located(lines, pattern, i)
    ensures i + |pattern| <= |lines|
  {
  }

  /** The file with every chunk's place rewritten at once. */
  ghost function Rewritten(lines: seq<Line>, chunks: seq<Chunk>, rewrite: Chunk -> seq<Line>): seq<Line>
    requires InFileOrder(lines, chunks)
  {
    FileOrderIsLaid(lines, chunks, rewrite);
    ReplaceAtOnce(lines, 0, StartsOf(lines, chunks), EditsOf(lines, chunks, rewrite))
  }

  lemma ChunkHits(lines: seq<Line>, c: Chunk)
    requires ChunkSpan(lines, c).Some?
    ensures Hits(Seek, lines, LocatedPart(lines, c), ChunkSpan(lines, c).value.start)
  {
    LocatedHits(lines, LocatedPart(lines, c), ChunkSpan(lines, c).value.start);
  }

  lemma EditsHit(lines: seq<Line>, chunks: seq<Chunk>, rewrite: Chunk -> seq<Line>)
    requires InFileOrder(lines, chunks)
    ensures var starts, edits := StartsOf(lines, chunks), EditsOf(lines, chunks, rewrite);
            forall k | 0 <= k < |edits| :: Hits(Seek, lines, edits[k].pattern, starts[k])
  {
    forall k | 0 <= k < |chunks|
      ensures Hits(Seek, lines, LocatedPart(lines, chunks[k]), ChunkSpan(lines, chunks[k]).value.start)
    {
      assert chunks[k] in chunks;
      ChunkHits(lines, chunks[k]);
    }
  }

  /** From the beginning of the file, with nothing done yet. */
  lemma InTurnFromStart(seek: Search, lines: seq<Line>, starts: seq<nat>, edits: seq<Edit>)
    requires |starts| == |edits| && Laid(lines, 0, starts, edits)
    requires forall k | 0 <= k < |edits| :: Hits(seek, lines, edits[k].pattern, starts[k])
    ensures ApplyInTurn(seek, lines, 0, edits) == Some(ReplaceAtOnce(lines, 0, starts, edits))
  {
    InTurnIsAtOnce(seek, lines, [], 0, starts, edits);
    assert [] + lines[0..] == lines;
    assert [] + ReplaceAtOnce(lines, 0, starts, edits) == ReplaceAtOnce(lines, 0, starts, edits);
  }

  /** A recovered hunk goes through upstream's left-to-right search: every chunk
      lands on its unique place, and the outcome is the simultaneous edit. */
  lemma RecoveredHunkApplies(lines: seq<Line>, chunks: seq<Chunk>, rewrite: Chunk -> seq<Line>)
    requires InFileOrder(lines, chunks)
    ensures ApplyInTurn(Seek, lines, 0, EditsOf(lines, chunks, rewrite)) == Some(Rewritten(lines, chunks, rewrite))
  {
    FileOrderIsLaid(lines, chunks, rewrite);
    EditsHit(lines, chunks, rewrite);
    InTurnFromStart(Seek, lines, StartsOf(lines, chunks), EditsOf(lines, chunks, rewrite));
  }
}
