/**
 The bounded output buffer of a session and its capped spill file
 (src/session/output.rs).  Whatever the chunking, what is retained, what is on
 disk and what a snapshot reports are functions of the concatenated history.
 */
module Output {
  import opened Results
  import opened Utf8

  const SPILL_CAP: nat := 16 * 1024 * 1024
  const PREVIEW_CAP: nat := 20 * 1024
  const USIZE_MAX: nat := 0xFFFF_FFFF_FFFF_FFFF
  const NEWLINE: Byte := 10

  function SaturatingAdd(a: nat, b: nat): nat {
    if a + b > USIZE_MAX then USIZE_MAX else a + b
  }

  function Saturated(n: nat): nat {
    if n > USIZE_MAX then USIZE_MAX else n
  }

  // ----- what the buffer promises, as facts about a history -----

  ghost predicate LongestSuffix(s: seq<Byte>, limit: nat, t: seq<Byte>) {
    && |t| <= |s| && |t| <= limit
    && t == s[|s| - |t|..]
    && Boundary(s, |s| - |t|)
    && forall j | 0 <= j <= |s| && |s| - j <= limit && Boundary(s, j) :: |s| - j <= |t|
  }

  ghost predicate LongestPrefix(s: seq<Byte>, limit: nat, t: seq<Byte>) {
    && |t| <= |s| && |t| <= limit
    && t == s[..|t|]
    && Boundary(s, |t|)
    && forall j | 0 <= j <= |s| && j <= limit && Boundary(s, j) :: j <= |t|
  }

  function Count(s: seq<Byte>, p: Byte -> bool): nat {
    if s == [] then 0 else Count(s[..|s| - 1], p) + if p(s[|s| - 1]) then 1 else 0
  }

  lemma {:induction false} CountAppend(a: seq<Byte>, b: seq<Byte>, p: Byte -> bool)
    ensures Count(a + b, p) == Count(a, p) + Count(b, p)
  {
    if b == [] {
      assert a + b == a;
    } else {
      assert (a + b)[..|a + b| - 1] == a + b[..|b| - 1];
      CountAppend(a, b[..|b| - 1], p);
    }
  }

  function IsNewline(b: Byte): bool { b == NEWLINE }

  function StartsChar(b: Byte): bool { !Cont(b) }

  /** The position of the first newline, or the length. */
  function LineEnd(s: seq<Byte>): (k: nat)
    ensures k <= |s|
    ensures k < |s| ==> s[k] == NEWLINE
    ensures NEWLINE !in s[..k]
  {
    if s == [] || s[0] == NEWLINE then 0 else 1 + LineEnd(s[1..])
  }

  /** `str::lines`: pieces between newlines, an unterminated last one included. */
  function Lines(s: seq<Byte>): seq<seq<Byte>> {
    if s == [] then []
    else
      var k := LineEnd(s);
      if k == |s| then [s] else [s[..k]] + Lines(s[k + 1..])
  }

  lemma {:induction false} NoNewlines(s: seq<Byte>)
    requires NEWLINE !in s
    ensures Count(s, IsNewline) == 0
  {
    if s != [] {
      NoNewlines(s[..|s| - 1]);
    }
  }

  /** Counting newlines, and one more for an unterminated last line, counts
      the lines. */
  lemma {:induction false} LineCount(s: seq<Byte>)
    ensures |Lines(s)| == Count(s, IsNewline) + if s != [] && s[|s| - 1] != NEWLINE then 1 else 0
    decreases |s|
  {
    if s != [] {
      var k := LineEnd(s);
      NoNewlines(s[..k]);
      if k == |s| {
        assert s[..k] == s;
      } else {
        var line, rest := s[..k] + [NEWLINE], s[k + 1..];
        assert s == line + rest;
        assert line[..k] == s[..k];
        assert Count(line, IsNewline) == 1;
        CountAppend(line, rest, IsNewline);
        LineCount(rest);
      }
    }
  }

  lemma CharsOfText(s: seq<Byte>)
    requires WellFormed(s)
    ensures Count(s, StartsChar) == 0 <==> s == []
  {
    if s != [] {
      WellFormedStart(s);
      assert s == s[..1] + s[1..];
      CountAppend(s[..1], s[1..], StartsChar);
      assert Count(s[..1], StartsChar) == 1;
    }
  }

  /** Counting the bytes that start a character counts the characters. */
  lemma {:induction false} CharCountBy(code: Scalar -> seq<Byte>, text: seq<Scalar>)
    requires LeadThenCont(code)
    ensures Count(EncodeBy(code, text), StartsChar) == |text|
  {
    if text != [] {
      var first := code(text[0]);
      CharCountBy(code, text[1..]);
      OneStart(first, |first|);
      assert first[..|first|] == first;
      CountAppend(first, EncodeBy(code, text[1..]), StartsChar);
    }
  }

  lemma {:induction false} OneStart(s: seq<Byte>, n: nat)
    requires 0 < n <= |s| && !Cont(s[0]) && forall j | 0 < j < |s| :: Cont(s[j])
    ensures Count(s[..n], StartsChar) == 1
  {
    assert s[..n][..n - 1] == s[..n - 1];
    if n > 1 {
      OneStart(s, n - 1);
    }
  }

  lemma CharCount(text: seq<Scalar>)
    ensures Count(EncodeAll(text), StartsChar) == |text|
  {
    EncodeAllIs(text);
    EncodeIsLeadThenCont();
    CharCountBy(Encode, text);
  }

  // ----- cutting on characters -----

  method NextCharBoundary(s: seq<Byte>, idx: nat) returns (i: nat)
    ensures i <= |s| && Boundary(s, i)
    ensures idx <= |s| ==> idx <= i
    ensures forall j | idx <= j < i :: !Boundary(s, j)
  {
    if idx >= |s| {
      return |s|;
    }
    i := idx;
    while i < |s| && !Boundary(s, i)
      invariant idx <= i <= |s|
      invariant forall j | idx <= j < i :: !Boundary(s, j)
    {
      i := i + 1;
    }
  }

  /** Dropping the front of a longest suffix at the next boundary gives the
      longest suffix for the smaller need. */
  lemma SuffixAppend(s: seq<Byte>, limit: nat, t: seq<Byte>, chunk: seq<Byte>, cut: nat)
    requires WellFormed(s) && WellFormed(chunk) && LongestSuffix(s, limit, t)
    requires cut <= |t + chunk| && Boundary(t + chunk, cut)
    requires |t + chunk| - cut <= limit
    requires forall j | 0 <= j < cut && |t + chunk| - j <= limit :: !Boundary(t + chunk, j)
    ensures LongestSuffix(s + chunk, limit, (t + chunk)[cut..])
  {
    var whole, kept := s + chunk, t + chunk;
    var start := |s| - |t|;
    WellFormedStart(chunk);
    assert kept == whole[start..];
    WellFormedSplits(s, start);
    WellFormedStart(t);
    forall j | 0 <= j <= |whole| && |whole| - j <= limit && Boundary(whole, j)
      ensures j >= start + cut
    {
      if j < start {
        assert Boundary(s, j) && |s| - j <= limit;
      } else if j < start + cut {
        assert Boundary(kept, j - start);
      }
    }
    assert Boundary(whole, start + cut);
  }

  lemma SuffixOfSuffix(s: seq<Byte>, limit: nat, t: seq<Byte>, small: nat, u: seq<Byte>)
    requires WellFormed(s) && LongestSuffix(s, limit, t) && LongestSuffix(t, small, u)
    ensures LongestSuffix(s, if small < limit then small else limit, u)
  {
    var start := |s| - |t|;
    WellFormedSplits(s, start);
    WellFormedStart(t);
    forall j | 0 <= j <= |s| && |s| - j <= small && |s| - j <= limit && Boundary(s, j)
      ensures |s| - j <= |u|
    {
      assert j >= start && Boundary(t, j - start);
    }
    assert u == s[|s| - |u|..];
  }

  // ----- the spill file -----

  /** The open spill file: what has reached the disk, and the two counters. */
  datatype Spill = Spill(content: seq<Byte>, bytesWritten: nat, truncated: bool)

  /** The file holds as much of the history as whole characters allow. */
  ghost predicate Records(spill: Spill, history: seq<Byte>) {
    && LongestPrefix(history, SPILL_CAP, spill.content)
    && spill.bytesWritten == |spill.content|
    && (spill.truncated <==> |history| > SPILL_CAP)
  }

  lemma PrefixAppend(s: seq<Byte>, limit: nat, t: seq<Byte>, chunk: seq<Byte>, n: nat)
    requires WellFormed(s) && WellFormed(chunk) && LongestPrefix(s, limit, t)
    requires n <= |chunk| && Boundary(chunk, n) && |s| + n <= limit
    requires forall j | n < j <= |chunk| && |s| + j <= limit :: !Boundary(chunk, j)
    ensures LongestPrefix(s + chunk, limit, t + chunk[..n])
  {
    assert Boundary(s, |s|) && t == s;
    WellFormedStart(chunk);
    forall j | 0 <= j <= |s + chunk| && j <= limit && Boundary(s + chunk, j)
      ensures j <= |s| + n
    {
      if j > |s| + n {
        assert Boundary(chunk, j - |s|);
      }
    }
  }

  lemma PrefixFull(s: seq<Byte>, limit: nat, t: seq<Byte>, chunk: seq<Byte>)
    requires WellFormed(s) && WellFormed(chunk) && LongestPrefix(s, limit, t)
    requires |s| >= limit
    ensures |s| > limit || chunk != [] ==> LongestPrefix(s + chunk, limit, t)
  {
    WellFormedStart(chunk);
    forall j | 0 <= j <= |s + chunk| && j <= limit && Boundary(s + chunk, j)
      ensures j <= |t|
    {
      assert Boundary(s, j);
    }
  }

  /** `fails` is the verdict of the one disk write, if there is one. */
  method AppendToSpill(spill: Spill, text: seq<Byte>, fails: bool, ghost history: seq<Byte>)
    returns (ok: bool, next: Spill)
    requires WellFormed(history) && WellFormed(text) && Records(spill, history)
    ensures !fails ==> ok
    ensures ok ==> Records(next, history + text)
    ensures fails && ok ==> next.content == spill.content
    ensures !ok ==> next == spill
  {
    next := spill;
    if spill.truncated || text == [] {
      assert text == [] ==> history + text == history;
      if spill.truncated {
        PrefixFull(history, SPILL_CAP, spill.content, text);
      }
      return true, next;
    }
    assert Boundary(history, |history|);
    var remaining := if spill.bytesWritten < SPILL_CAP then SPILL_CAP - spill.bytesWritten else 0;
    if remaining == 0 {
      PrefixFull(history, SPILL_CAP, spill.content, text);
      return true, spill.(truncated := true);
    }
    var writeLen := if |text| < remaining then |text| else remaining;
    while writeLen > 0 && !Boundary(text, writeLen)
      invariant 0 <= writeLen <= |text| && writeLen <= remaining
      invariant forall j | writeLen < j <= |text| && j <= remaining :: !Boundary(text, j)
    {
      writeLen := writeLen - 1;
    }
    PrefixAppend(history, SPILL_CAP, spill.content, text, writeLen);
    if writeLen > 0 {
      if fails {
        return false, next;
      }
      next := next.(content := next.content + text[..writeLen], bytesWritten := next.bytesWritten + writeLen);
    } else {
      assert spill.content + text[..0] == spill.content;
    }
    if writeLen < |text| {
      next := next.(truncated := true);
    }
    assert Boundary(text, |text|);
    return true, next;
  }

  /** Which of the disk operations of one append fail. */
  datatype Faults = Faults(open: bool, first: bool, second: bool) {
    predicate Any() { open || first || second }
  }

  method StartSpill(prefix: seq<Byte>, chunk: seq<Byte>, faults: Faults) returns (r: Option<Spill>)
    requires WellFormed(prefix) && WellFormed(chunk)
    ensures !faults.Any() ==> r.Some?
    ensures faults.open ==> r.None?
    ensures r.Some? ==> Records(r.value, prefix + chunk)
  {
    if faults.open {
      return None;
    }
    assert WellFormed([]) by {
      EmptyWellFormed();
    }
    var ok, spill := AppendToSpill(Spill([], 0, false), prefix, faults.first, []);
    if ok {
      assert [] + prefix == prefix;
      ok, spill := AppendToSpill(spill, chunk, faults.second, prefix);
    }
    return if ok then Some(spill) else None;
  }

  // ----- the buffer -----

  datatype Snapshot =
    | Complete(text: seq<Byte>)
    | Cut(dropped: nat, text: seq<Byte>)
    | Spilled(chars: nat, lines: nat, capped: bool, preview: seq<Byte>)

  /** The running totals a history gives. */
  datatype Totals = Totals(chars: nat, newlines: nat, endsWithNewline: bool)

  ghost predicate Tallies(t: Totals, history: seq<Byte>) {
    && t.chars == Saturated(Count(history, StartsChar))
    && t.newlines == Saturated(Count(history, IsNewline))
    && (t.endsWithNewline <==> history != [] && history[|history| - 1] == NEWLINE)
  }

  method AddTotals(t: Totals, chunk: seq<Byte>, ghost history: seq<Byte>) returns (r: Totals)
    requires Tallies(t, history)
    ensures Tallies(r, history + chunk)
  {
    CountAppend(history, chunk, StartsChar);
    CountAppend(history, chunk, IsNewline);
    assert chunk == [] ==> history + chunk == history;
    r := Totals(SaturatingAdd(t.chars, Count(chunk, StartsChar)),
                SaturatingAdd(t.newlines, Count(chunk, IsNewline)),
                if chunk != [] then chunk[|chunk| - 1] == NEWLINE else t.endsWithNewline);
  }

  method OutputLines(t: Totals, ghost history: seq<Byte>) returns (lines: nat)
    requires WellFormed(history) && Tallies(t, history)
    ensures lines == Saturated(|Lines(history)|)
  {
    CharsOfText(history);
    LineCount(history);
    lines := if t.chars == 0 then 0 else SaturatingAdd(t.newlines, if t.endsWithNewline then 0 else 1);
  }

  /** Without a disk failure the spill is there exactly when it is needed. */
  ghost predicate SpillFor(spill: Option<Spill>, failed: bool, maxChars: nat, history: seq<Byte>) {
    && (spill.Some? <==> |history| > maxChars && !failed)
    && (spill.Some? ==> Records(spill.value, history))
    && (failed ==> |history| > maxChars)
  }

  lemma SuffixWhole(s: seq<Byte>, limit: nat, t: seq<Byte>)
    requires LongestSuffix(s, limit, t)
    ensures |s| <= limit <==> t == s
  {
    assert Boundary(s, 0);
  }

  method UpdateSpill(spill: Option<Spill>, failed: bool, maxChars: nat, text: seq<Byte>, chunk: seq<Byte>,
                     faults: Faults, ghost history: seq<Byte>)
    returns (spill': Option<Spill>, failed': bool)
    requires WellFormed(history) && WellFormed(chunk) && LongestSuffix(history, maxChars, text)
    requires SpillFor(spill, failed, maxChars, history)
    ensures SpillFor(spill', failed', maxChars, history + chunk)
    ensures failed ==> failed'
    ensures !faults.Any() ==> failed' == failed
  {
    SuffixWhole(history, maxChars, text);
    spill', failed' := spill, failed;
    if |text| + |chunk| > maxChars && spill.None? && !failed {
      spill' := StartSpill(text, chunk, faults);
      failed' := spill'.None?;
    } else if spill.Some? {
      var ok, next := AppendToSpill(spill.value, chunk, faults.first, history);
      spill', failed' := if ok then Some(next) else None, !ok;
    }
  }

  /** Append and drop from the front what no longer fits. */
  method AppendTail(text: seq<Byte>, chunk: seq<Byte>, limit: nat, ghost history: seq<Byte>)
    returns (tail: seq<Byte>, cut: nat)
    requires WellFormed(history) && WellFormed(chunk) && LongestSuffix(history, limit, text)
    ensures LongestSuffix(history + chunk, limit, tail)
    ensures cut + |tail| == |text| + |chunk|
  {
    tail, cut := text + chunk, 0;
    if |tail| > limit {
      cut := NextCharBoundary(tail, |tail| - limit);
    }
    SuffixAppend(history, limit, text, chunk, cut);
    tail := tail[cut..];
  }

  method Preview(text: seq<Byte>, limit: nat, ghost history: seq<Byte>) returns (tail: seq<Byte>)
    requires WellFormed(history) && LongestSuffix(history, limit, text)
    ensures LongestSuffix(history, if PREVIEW_CAP < limit then PREVIEW_CAP else limit, tail)
  {
    var start := NextCharBoundary(text, if |text| > PREVIEW_CAP then |text| - PREVIEW_CAP else 0);
    tail := text[start..];
    SuffixOfSuffix(history, limit, text, PREVIEW_CAP, tail);
  }

  class OutputBuffer {
    const maxChars: nat
    var text: seq<Byte>
    var droppedBytes: nat
    var totals: Totals
    var spill: Option<Spill>
    var spillFailed: bool
    ghost var history: seq<Byte>

    /** Every field is a function of the history and of whether the disk ever
        failed.  Without a failure nothing is dropped unless it is on disk. */
    ghost predicate Valid()
      reads this
    {
      && WellFormed(history)
      && LongestSuffix(history, maxChars, text)
      && droppedBytes + |text| == |history|
      && Tallies(totals, history)
      && SpillFor(spill, spillFailed, maxChars, history)
    }

    constructor (maxChars: nat)
      ensures Valid() && history == [] && !spillFailed && this.maxChars == maxChars
    {
      this.maxChars := maxChars;
      text, droppedBytes, totals := [], 0, Totals(0, 0, false);
      spill, spillFailed, history := None, false, [];
      new;
      EmptyWellFormed();
    }

    method Append(chunk: seq<Byte>, faults: Faults)
      requires Valid() && WellFormed(chunk)
      modifies this
      ensures Valid() && history == old(history) + chunk
      ensures old(spillFailed) ==> spillFailed
      ensures !faults.Any() ==> spillFailed == old(spillFailed)
    {
      var totals' := AddTotals(totals, chunk, history);
      var spill', failed' := UpdateSpill(spill, spillFailed, maxChars, text, chunk, faults, history);
      var tail, cut := AppendTail(text, chunk, maxChars, history);
      WellFormedAppend(history, chunk);
      text, droppedBytes, totals := tail, droppedBytes + cut, totals';
      spill, spillFailed, history := spill', failed', history + chunk;
    }

    /** A snapshot tells the history's true size, and shows its longest tail. */
    method TakeSnapshot() returns (s: Snapshot)
      requires Valid()
      ensures s.Complete? <==> |history| <= maxChars
      ensures s.Complete? ==> s.text == history
      ensures s.Cut? <==> spillFailed
      ensures s.Cut? ==> s.dropped + |s.text| == |history| && LongestSuffix(history, maxChars, s.text)
      ensures s.Spilled? ==>
                && (forall text :: history == EncodeAll(text) ==> s.chars == Saturated(|text|))
                && s.lines == Saturated(|Lines(history)|)
                && (s.capped <==> |history| > SPILL_CAP)
                && LongestSuffix(history, if PREVIEW_CAP < maxChars then PREVIEW_CAP else maxChars, s.preview)
    {
      SuffixWhole(history, maxChars, text);
      var lines := OutputLines(totals, history);
      if spill.Some? {
        var preview := Preview(text, maxChars, history);
        forall text | history == EncodeAll(text) ensures totals.chars == Saturated(|text|) {
          CharCount(text);
        }
        return Spilled(totals.chars, lines, spill.value.truncated, preview);
      }
      return if droppedBytes == 0 then Complete(text) else Cut(droppedBytes, text);
    }
  }

  lemma SameSuffix(s: seq<Byte>, limit: nat, t: seq<Byte>, u: seq<Byte>)
    requires LongestSuffix(s, limit, t) && LongestSuffix(s, limit, u)
    ensures t == u
  {
    assert |s| - (|s| - |t|) <= |u| && |s| - (|s| - |u|) <= |t|;
  }

  lemma SamePrefix(s: seq<Byte>, limit: nat, t: seq<Byte>, u: seq<Byte>)
    requires LongestPrefix(s, limit, t) && LongestPrefix(s, limit, u)
    ensures t == u
  {
  }

  /** Two buffers that received the same history, in whatever chunks, and agree
      on whether the disk failed, agree on everything else. */
  lemma HistoryDeterminesBuffer(a: OutputBuffer, b: OutputBuffer)
    requires a.Valid() && b.Valid()
    requires a.maxChars == b.maxChars && a.history == b.history && a.spillFailed == b.spillFailed
    ensures a.text == b.text && a.droppedBytes == b.droppedBytes && a.totals == b.totals && a.spill == b.spill
  {
    SameSuffix(a.history, a.maxChars, a.text, b.text);
    if a.spill.Some? {
      SamePrefix(a.history, SPILL_CAP, a.spill.value.content, b.spill.value.content);
    }
  }

  // ----- the reader thread -----

  /** The UTF-8 bytes of a decoded piece. */
  method TextBytes(piece: seq<Scalar>) returns (bytes: seq<Byte>)
    ensures bytes == EncodeAll(piece)
  {
    EncodeAllIs(piece);
    bytes := EncodeBy(Encode, piece);
  }

  /** Append one decoded piece, the text `before` having gone ahead of it. */
  method Deliver(buffer: OutputBuffer, piece: seq<Scalar>, faults: Faults,
                 ghost start: seq<Byte>, ghost before: seq<Scalar>)
    requires buffer.Valid() && buffer.history == start + EncodeAll(before)
    modifies buffer
    ensures buffer.Valid() && buffer.history == start + EncodeAll(before + piece)
    ensures !faults.Any() ==> buffer.spillFailed == old(buffer.spillFailed)
  {
    EncodeAllAppend(before, piece);
    var bytes := TextBytes(piece);
    buffer.Append(bytes, faults);
  }

  /** The whole pipeline: however the process's output is cut into reads, the
      buffer has seen the well-formed rendering of its lossy decoding. */
  method PumpReads(buffer: OutputBuffer, chunks: seq<seq<Byte>>, faults: seq<Faults>)
    returns (ghost text: seq<Scalar>)
    requires buffer.Valid() && |faults| == |chunks| + 1
    modifies buffer
    ensures buffer.Valid()
    ensures Decodes(Flatten(chunks), text)
    ensures buffer.history == old(buffer.history) + EncodeAll(text)
    ensures (forall f | f in faults :: !f.Any()) ==> buffer.spillFailed == old(buffer.spillFailed)
  {
    var decoder := new StreamingDecoder();
    DrainStep([]);
    EmptyWellFormed();
    text := [];
    for i := 0 to |chunks|
      invariant decoder.Valid() && fresh(decoder) && buffer.Valid()
      invariant decoder.consumed == Flatten(chunks[..i])
      invariant text == Drain(decoder.consumed).text
      invariant buffer.history == old(buffer.history) + EncodeAll(text)
      invariant (forall f | f in faults :: !f.Any()) ==> buffer.spillFailed == old(buffer.spillFailed)
    {
      assert chunks[..i + 1][..i] == chunks[..i];
      var piece := decoder.Push(chunks[i]);
      Deliver(buffer, piece, faults[i], old(buffer.history), text);
      text := text + piece;
    }
    assert chunks[..|chunks|] == chunks;
    var last := decoder.Finish();
    if last != [] {
      Deliver(buffer, last, faults[|chunks|], old(buffer.history), text);
      text := text + last;
    } else {
      assert text + last == text;
    }
  }
}
