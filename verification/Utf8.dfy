/**
 UTF-8 as bytes, and the incremental decoder that turns a command's raw output
 into text (src/session/output.rs).

 `ScanHead` is the table-driven validator step of the standard library.  The
 reference it is measured against does not mention the table: `Encode` is the
 arithmetic of section 3 of RFC 3629, and `Decodes` is replacement of maximal
 subparts, section 3.9 of the Unicode Standard, stated over `Encode` alone.
 */
module Utf8 {

  type Byte = b: int | 0 <= b < 256

  type Scalar = v: int | 0 <= v < 0xD800 || 0xE000 <= v < 0x110000

  const REPLACEMENT: Scalar := 0xFFFD

  // ----- the reference -----

  /** Section 3 of RFC 3629. */
  function Encode(v: Scalar): (s: seq<Byte>)
    ensures 1 <= |s| <= 4
  {
    if v < 0x80 then [v]
    else if v < 0x800 then [0xC0 + v / 64, 0x80 + v % 64]
    else if v < 0x10000 then [0xE0 + v / 4096, 0x80 + v / 64 % 64, 0x80 + v % 64]
    else [0xF0 + v / 262144, 0x80 + v / 4096 % 64, 0x80 + v / 64 % 64, 0x80 + v % 64]
  }

  function EncodeBy(code: Scalar -> seq<Byte>, text: seq<Scalar>): seq<Byte> {
    if text == [] then [] else code(text[0]) + EncodeBy(code, text[1..])
  }

  ghost predicate IsUtf8(code: Scalar -> seq<Byte>) {
    forall v :: code(v) == Encode(v)
  }

  /** The bytes of a text, by any code that agrees with `Encode`.  Stating it
      for any such code keeps the arithmetic out of proofs that do not use it. */
  ghost function EncodeAll(text: seq<Scalar>): seq<Byte> {
    EncodeUnique(text);
    var s :| forall code | IsUtf8(code) :: s == EncodeBy(code, text);
    s
  }

  lemma {:induction false} EncodeAgrees(code: Scalar -> seq<Byte>, text: seq<Scalar>)
    requires IsUtf8(code)
    ensures EncodeBy(code, text) == EncodeBy(Encode, text)
  {
    if text != [] {
      EncodeAgrees(code, text[1..]);
    }
  }

  lemma EncodeUnique(text: seq<Scalar>)
    ensures IsUtf8(Encode)
    ensures forall code | IsUtf8(code) :: EncodeBy(Encode, text) == EncodeBy(code, text)
  {
    forall code | IsUtf8(code) ensures EncodeBy(Encode, text) == EncodeBy(code, text) {
      EncodeAgrees(code, text);
    }
  }

  lemma EncodeAllIs(text: seq<Scalar>)
    ensures EncodeAll(text) == EncodeBy(Encode, text)
  {
    EncodeUnique(text);
  }

  ghost predicate WellFormed(s: seq<Byte>) {
    exists text :: s == EncodeAll(text)
  }

  /** `p` is a non-empty beginning of some encoding, short of the whole. */
  ghost predicate ProperPrefix(p: seq<Byte>) {
    exists v: Scalar :: 0 < |p| < |Encode(v)| && p == Encode(v)[..|p|]
  }

  ghost predicate Convertible(s: seq<Byte>) {
    exists v: Scalar :: Encode(v) <= s
  }

  /** The longest initial subsequence that begins an encoding, or one byte. */
  ghost predicate MaximalSubpart(s: seq<Byte>, n: nat) {
    && 1 <= n <= |s|
    && (n == 1 || ProperPrefix(s[..n]))
    && forall m | n < m <= |s| :: !ProperPrefix(s[..m])
  }

  /** `text` is the lossy decoding of `s`: one replacement per maximal subpart. */
  ghost predicate Decodes(s: seq<Byte>, text: seq<Scalar>)
    decreases |text|
  {
    if text == [] then s == []
    else if Convertible(s) then
      Encode(text[0]) <= s && Decodes(s[|Encode(text[0])|..], text[1..])
    else
      text[0] == REPLACEMENT && exists n: nat :: MaximalSubpart(s, n) && Decodes(s[n..], text[1..])
  }

  // ----- the validator -----

  datatype Head =
    | Good(value: Scalar, len: nat)
    | Invalid(len: nat)
    | Incomplete

  predicate Cont(b: Byte) { 0x80 <= b < 0xC0 }

  /** The legal second bytes after a three- or four-byte lead. */
  predicate SecondOk(lead: Byte, b: Byte) {
    if lead == 0xE0 then 0xA0 <= b < 0xC0
    else if lead == 0xED then 0x80 <= b < 0xA0
    else if lead == 0xF0 then 0x90 <= b < 0xC0
    else if lead == 0xF4 then 0x80 <= b < 0x90
    else Cont(b)
  }

  function Join2(a: int, b: int): int { (a - 0xC0) * 64 + (b - 0x80) }

  function Join3(a: int, b: int, c: int): int {
    (a - 0xE0) * 4096 + (b - 0x80) * 64 + (c - 0x80)
  }

  function Join4(a: int, b: int, c: int, d: int): int {
    (a - 0xF0) * 262144 + (b - 0x80) * 4096 + (c - 0x80) * 64 + (d - 0x80)
  }

  /** What `from_utf8` says about the first character of a slice: `Invalid(n)`
      is error_len Some(n), `Incomplete` is error_len None. */
  function ScanHead(s: seq<Byte>): (h: Head)
    ensures !h.Incomplete? ==> 1 <= h.len <= |s|
    ensures h.Incomplete? ==> |s| <= 3
  {
    if s == [] then Incomplete else
    var a: int := s[0];
    if a < 0x80 then Good(a, 1)
    else if 0xC2 <= a < 0xE0 then
      if |s| < 2 then Incomplete
      else if !Cont(s[1]) then Invalid(1)
      else Good(Join2(a, s[1]), 2)
    else if 0xE0 <= a < 0xF0 then
      if |s| < 2 then Incomplete
      else if !SecondOk(a, s[1]) then Invalid(1)
      else if |s| < 3 then Incomplete
      else if !Cont(s[2]) then Invalid(2)
      else Good(Join3(a, s[1], s[2]), 3)
    else if 0xF0 <= a < 0xF5 then
      if |s| < 2 then Incomplete
      else if !SecondOk(a, s[1]) then Invalid(1)
      else if |s| < 3 then Incomplete
      else if !Cont(s[2]) then Invalid(2)
      else if |s| < 4 then Incomplete
      else if !Cont(s[3]) then Invalid(3)
      else Good(Join4(a, s[1], s[2], s[3]), 4)
    else Invalid(1)
  }

  lemma Digits(v: int)
    requires 0 <= v < 0x110000
    ensures v == v / 64 * 64 + v % 64
    ensures v / 64 == v / 4096 * 64 + v / 64 % 64
    ensures v / 4096 == v / 262144 * 64 + v / 4096 % 64
  {
  }

  /** The table accepts an encoding, whole. */
  lemma EncodeShape(v: Scalar)
    ensures var e := Encode(v); ScanHead(e) == Good(v, |e|)
  {
    Digits(v);
    var e := Encode(v);
    if |e| == 3 {
      assert Join3(e[0], e[1], e[2]) == v;
      assert v < 0xD800 ==> v / 64 < 0x360;
      assert SecondOk(e[0], e[1]);
    } else if |e| == 4 {
      assert Join4(e[0], e[1], e[2], e[3]) == v;
      assert SecondOk(e[0], e[1]);
    }
  }

  /** The verdict on a slice never changes when more bytes arrive, unless it
      was `Incomplete`. */
  lemma HeadExtends(s: seq<Byte>, t: seq<Byte>)
    requires s != []
    ensures !ScanHead(s).Incomplete? ==> ScanHead(s + t) == ScanHead(s)
  {
  }

  lemma Undigits(a: int, b: int, c: int, d: int, v: int)
    requires 0 <= a && 0 <= b < 64 && 0 <= c < 64 && 0 <= d < 64
    requires v == a * 262144 + b * 4096 + c * 64 + d
    ensures v / 262144 == a && v / 4096 % 64 == b && v / 64 % 64 == c && v % 64 == d
    ensures a == 0 ==> v / 4096 == b
    ensures a == 0 && b == 0 ==> v / 64 == c
  {
    var x := a * 64 + b;
    var w := x * 64 + c;
    assert v == w * 64 + d;
    assert v / 64 == w && v % 64 == d;
    assert w / 64 == x && w % 64 == c;
    assert v == x * 4096 + (c * 64 + d);
    assert v / 4096 == x;
    assert x % 64 == b;
  }

  lemma GoodIsEncode(s: seq<Byte>)
    requires s != [] && ScanHead(s).Good?
    ensures s[..ScanHead(s).len] == Encode(ScanHead(s).value)
  {
    var Good(v, n) := ScanHead(s);
    if n == 2 {
      Undigits(0, 0, s[0] - 0xC0, s[1] - 0x80, v);
    } else if n == 3 {
      Undigits(0, s[0] - 0xE0, s[1] - 0x80, s[2] - 0x80, v);
    } else if n == 4 {
      Undigits(s[0] - 0xF0, s[1] - 0x80, s[2] - 0x80, s[3] - 0x80, v);
    }
  }

  /** Some completion of a slice the validator calls incomplete. */
  lemma IncompleteIsPrefix(s: seq<Byte>)
    requires s != [] && ScanHead(s).Incomplete?
    ensures ProperPrefix(s)
  {
    var a: int := s[0];
    var b: int := if |s| >= 2 then s[1] else if a == 0xE0 then 0xA0 else if a == 0xF0 then 0x90 else 0x80;
    var c: int := if |s| >= 3 then s[2] else 0x80;
    var full: seq<Byte> := if a < 0xE0 then [a, b] else if a < 0xF0 then [a, b, c] else [a, b, c, 0x80];
    GoodIsEncode(full);
    assert s == Encode(ScanHead(full).value)[..|s|];
  }

  lemma PrefixIsIncomplete(p: seq<Byte>)
    requires ProperPrefix(p)
    ensures p != [] && ScanHead(p).Incomplete?
  {
    var v: Scalar :| 0 < |p| < |Encode(v)| && p == Encode(v)[..|p|];
    EncodeShape(v);
  }

  lemma InvalidRestricts(s: seq<Byte>, m: nat)
    requires s != [] && ScanHead(s).Invalid? && 1 <= m <= |s|
    ensures ScanHead(s).len < m ==> ScanHead(s[..m]) == ScanHead(s)
    ensures ScanHead(s).len == m > 1 ==> ScanHead(s[..m]).Incomplete?
  {
  }

  lemma ConvertibleIsGood(s: seq<Byte>, v: Scalar)
    requires Encode(v) <= s
    ensures s != [] && ScanHead(s) == Good(v, |Encode(v)|)
  {
    EncodeShape(v);
    HeadExtends(Encode(v), s[|Encode(v)|..]);
    assert s == Encode(v) + s[|Encode(v)|..];
  }

  /** The table's verdict on the head of a slice is the standard's: a whole
      encoding and which one, or the maximal subpart and how long it is. */
  lemma HeadMeaning(s: seq<Byte>)
    requires s != []
    ensures forall v: Scalar :: Encode(v) <= s <==> ScanHead(s) == Good(v, |Encode(v)|)
    ensures ScanHead(s).Good? <==> Convertible(s)
    ensures forall n: nat :: ScanHead(s).Invalid? && MaximalSubpart(s, n) <==> ScanHead(s) == Invalid(n)
    ensures ScanHead(s).Incomplete? <==> ProperPrefix(s)
    ensures forall n: nat :: ScanHead(s).Incomplete? && MaximalSubpart(s, n) ==> n == |s|
    ensures ScanHead(s).Incomplete? ==> MaximalSubpart(s, |s|)
  {
    var h := ScanHead(s);
    assert s[..|s|] == s;
    forall v: Scalar ensures Encode(v) <= s <==> h == Good(v, |Encode(v)|) {
      if Encode(v) <= s {
        ConvertibleIsGood(s, v);
      } else if h == Good(v, |Encode(v)|) {
        GoodIsEncode(s);
      }
    }
    if h.Good? {
      GoodIsEncode(s);
    }
    forall m: nat | 1 <= m <= |s| && ProperPrefix(s[..m]) ensures ScanHead(s[..m]).Incomplete? {
      PrefixIsIncomplete(s[..m]);
    }
    if h.Incomplete? {
      IncompleteIsPrefix(s);
    }
    if h.Invalid? {
      forall m: nat | h.len < m <= |s| ensures !ProperPrefix(s[..m]) {
        InvalidRestricts(s, m);
      }
      if h.len > 1 {
        InvalidRestricts(s, h.len);
        IncompleteIsPrefix(s[..h.len]);
      }
    }
  }

  // ----- character boundaries -----

  /** `str::is_char_boundary`. */
  predicate Boundary(s: seq<Byte>, i: int) {
    i == 0 || i == |s| || (0 < i < |s| && !Cont(s[i]))
  }

  /** A code in which a character is a lead byte and continuation bytes. */
  ghost predicate LeadThenCont(code: Scalar -> seq<Byte>) {
    forall v :: code(v) != [] && !Cont(code(v)[0]) && forall j | 0 < j < |code(v)| :: Cont(code(v)[j])
  }

  lemma EncodeIsLeadThenCont()
    ensures LeadThenCont(Encode)
  {
  }

  lemma {:induction false} EncodeAppend(code: Scalar -> seq<Byte>, a: seq<Scalar>, b: seq<Scalar>)
    ensures EncodeBy(code, a + b) == EncodeBy(code, a) + EncodeBy(code, b)
  {
    if a == [] {
      assert a + b == b;
    } else {
      assert (a + b)[1..] == a[1..] + b;
      EncodeAppend(code, a[1..], b);
    }
  }

  lemma EncodeAllAppend(a: seq<Scalar>, b: seq<Scalar>)
    ensures EncodeAll(a + b) == EncodeAll(a) + EncodeAll(b)
  {
    EncodeAllIs(a);
    EncodeAllIs(b);
    EncodeAllIs(a + b);
    EncodeAppend(Encode, a, b);
  }

  lemma EmptyWellFormed()
    ensures EncodeAll([]) == [] && WellFormed([])
  {
    EncodeAllIs([]);
  }

  lemma WellFormedAppend(a: seq<Byte>, b: seq<Byte>)
    requires WellFormed(a) && WellFormed(b)
    ensures WellFormed(a + b)
  {
    var t, u :| a == EncodeAll(t) && b == EncodeAll(u);
    EncodeAllAppend(t, u);
  }

  lemma WellFormedStart(s: seq<Byte>)
    requires WellFormed(s)
    ensures s != [] ==> !Cont(s[0])
  {
    var text :| s == EncodeAll(text);
    EncodeAllIs(text);
    EncodeIsLeadThenCont();
  }

  /** Continuation bytes occur only inside a character, so a boundary of the
      bytes falls between two characters of the text. */
  lemma {:induction false} EncodeSplits(code: Scalar -> seq<Byte>, text: seq<Scalar>, i: nat) returns (k: nat)
    requires LeadThenCont(code) && i <= |EncodeBy(code, text)| && Boundary(EncodeBy(code, text), i)
    ensures k <= |text|
    ensures EncodeBy(code, text)[..i] == EncodeBy(code, text[..k])
    ensures EncodeBy(code, text)[i..] == EncodeBy(code, text[k..])
  {
    if i == 0 {
      assert text[0..] == text;
      return 0;
    }
    var e, rest := code(text[0]), EncodeBy(code, text[1..]);
    var s := e + rest;
    assert i >= |e|;
    assert i < |s| ==> s[i] == rest[i - |e|];
    k := EncodeSplits(code, text[1..], i - |e|);
    assert s[..i] == e + rest[..i - |e|] && s[i..] == rest[i - |e|..];
    assert text[..k + 1][1..] == text[1..][..k] && text[k + 1..] == text[1..][k..];
    k := k + 1;
  }

  lemma WellFormedSplits(s: seq<Byte>, i: nat)
    requires WellFormed(s) && i <= |s| && Boundary(s, i)
    ensures WellFormed(s[..i]) && WellFormed(s[i..])
  {
    var text :| s == EncodeAll(text);
    EncodeIsLeadThenCont();
    EncodeAllIs(text);
    var k := EncodeSplits(Encode, text, i);
    EncodeAllIs(text[..k]);
    EncodeAllIs(text[k..]);
  }

  // ----- the decoder as a function of its history -----

  /** The text a history has released, and the bytes still held back. */
  datatype Drained = Drained(text: seq<Scalar>, pending: seq<Byte>)

  /** A validator step whose verdicts only grow firmer as bytes arrive.  The
      chunking argument needs no more than this about the table. */
  ghost predicate Stable(scan: seq<Byte> -> Head) {
    && (forall s :: !scan(s).Incomplete? ==> 1 <= scan(s).len <= |s|)
    && (forall s, t :: Extends(scan, s, t))
  }

  ghost predicate Extends(scan: seq<Byte> -> Head, s: seq<Byte>, t: seq<Byte>) {
    !scan(s).Incomplete? ==> scan(s + t) == scan(s)
  }

  function Emitted(h: Head): Scalar {
    if h.Good? then h.value else REPLACEMENT
  }

  ghost function DrainBy(scan: seq<Byte> -> Head, s: seq<Byte>): Drained
    requires Stable(scan)
    decreases |s|
  {
    var h := scan(s);
    if h.Incomplete? then Drained([], s)
    else
      var d := DrainBy(scan, s[h.len..]);
      Drained([Emitted(h)] + d.text, d.pending)
  }

  /** The drain of a history, by any step that agrees with the table. */
  ghost function Drain(s: seq<Byte>): Drained {
    DrainUnique(s);
    var d :| forall scan | IsTable(scan) :: Stable(scan) && d == DrainBy(scan, s);
    d
  }

  ghost predicate IsTable(scan: seq<Byte> -> Head) {
    forall s :: scan(s) == ScanHead(s)
  }

  lemma TableStable(scan: seq<Byte> -> Head)
    requires IsTable(scan)
    ensures Stable(scan)
  {
    forall s: seq<Byte>, t: seq<Byte> ensures Extends(scan, s, t) {
      if !ScanHead(s).Incomplete? {
        HeadExtends(s, t);
      }
    }
  }

  lemma {:induction false} DrainAgrees(scan: seq<Byte> -> Head, other: seq<Byte> -> Head, s: seq<Byte>)
    requires Stable(scan) && Stable(other) && forall x :: scan(x) == other(x)
    ensures DrainBy(scan, s) == DrainBy(other, s)
    decreases |s|
  {
    if !scan(s).Incomplete? {
      DrainAgrees(scan, other, s[scan(s).len..]);
    }
  }

  lemma DrainUnique(s: seq<Byte>)
    ensures IsTable(ScanHead) && Stable(ScanHead)
    ensures forall scan | IsTable(scan) :: Stable(scan) && DrainBy(ScanHead, s) == DrainBy(scan, s)
  {
    TableStable(ScanHead);
    forall scan | IsTable(scan) ensures Stable(scan) && DrainBy(ScanHead, s) == DrainBy(scan, s) {
      TableStable(scan);
      DrainAgrees(ScanHead, scan, s);
    }
  }

  ghost function Lossy(s: seq<Byte>): seq<Scalar> {
    Drain(s).text + if Drain(s).pending == [] then [] else [REPLACEMENT]
  }

  /** Draining in two goes is draining at once. */
  lemma {:induction false} DrainAppendBy(scan: seq<Byte> -> Head, s: seq<Byte>, t: seq<Byte>)
    requires Stable(scan)
    ensures var d := DrainBy(scan, s); var e := DrainBy(scan, d.pending + t);
            DrainBy(scan, s + t) == Drained(d.text + e.text, e.pending)
    decreases |s|
  {
    if !scan(s).Incomplete? {
      assert Extends(scan, s, t);
      var n := scan(s).len;
      assert (s + t)[n..] == s[n..] + t;
      DrainAppendBy(scan, s[n..], t);
      var d := DrainBy(scan, s[n..]);
      var e := DrainBy(scan, d.pending + t);
      assert [Emitted(scan(s))] + (d.text + e.text) == [Emitted(scan(s))] + d.text + e.text;
    }
  }

  lemma DrainAppend(s: seq<Byte>, t: seq<Byte>)
    ensures var d := Drain(s); var e := Drain(d.pending + t);
            Drain(s + t) == Drained(d.text + e.text, e.pending)
  {
    DrainUnique(s);
    DrainAppendBy(ScanHead, s, t);
  }

  lemma DrainStep(s: seq<Byte>)
    ensures ScanHead(s).Incomplete? ==> Drain(s) == Drained([], s)
    ensures !ScanHead(s).Incomplete? ==>
              var d := Drain(s[ScanHead(s).len..]);
              Drain(s) == Drained([Emitted(ScanHead(s))] + d.text, d.pending)
  {
    DrainUnique(s);
  }

  /** What is held back is the beginning of one character, at most 3 bytes. */
  lemma {:induction false} PendingShape(s: seq<Byte>)
    ensures var p := Drain(s).pending; p == [] || (ProperPrefix(p) && |p| <= 3)
    decreases |s|
  {
    DrainStep(s);
    if ScanHead(s).Incomplete? {
      if s != [] {
        IncompleteIsPrefix(s);
      }
    } else {
      PendingShape(s[ScanHead(s).len..]);
    }
  }

  /** The decoder's text is the lossy decoding the Unicode Standard defines,
      and it is the only one. */
  lemma {:induction false} LossyIsReference(s: seq<Byte>, text: seq<Scalar>)
    ensures Decodes(s, text) <==> text == Lossy(s)
    decreases |s|
  {
    DrainStep(s);
    if s != [] {
      HeadMeaning(s);
      var h := ScanHead(s);
      var n := if h.Incomplete? then |s| else h.len;
      if text != [] {
        LossyIsReference(s[n..], text[1..]);
      }
      DrainStep(s[n..]);
      assert Lossy(s) == [Emitted(h)] + Lossy(s[n..]);
    }
  }

  /** Well-formed bytes come back as exactly the text they encode. */
  lemma {:induction false} RoundTrip(text: seq<Scalar>)
    ensures Drain(EncodeAll(text)) == Drained(text, [])
  {
    DrainStep(EncodeAll(text));
    EncodeAllIs(text);
    if text != [] {
      EncodeAllIs(text[1..]);
      var e := Encode(text[0]);
      EncodeShape(text[0]);
      HeadExtends(e, EncodeAll(text[1..]));
      assert EncodeAll(text)[|e|..] == EncodeAll(text[1..]);
      RoundTrip(text[1..]);
    }
  }

  // ----- the decoder as it runs -----

  function Flatten(chunks: seq<seq<Byte>>): seq<Byte> {
    if chunks == [] then [] else Flatten(chunks[..|chunks| - 1]) + chunks[|chunks| - 1]
  }

  /** What `from_utf8` reports: the valid prefix, and what stopped it. */
  datatype Verdict = Verdict(validUpTo: nat, text: seq<Scalar>, stop: Stop)

  datatype Stop = Whole | ErrorLen(len: nat) | NeedsMore

  /** `text` is what draining releases before position `at`. */
  ghost predicate ReleasedBy(s: seq<Byte>, at: nat, text: seq<Scalar>)
    requires at <= |s|
  {
    Drain(s) == Drained(text + Drain(s[at..]).text, Drain(s[at..]).pending)
  }

  lemma ReleaseHead(s: seq<Byte>, at: nat, text: seq<Scalar>)
    requires at <= |s| && ReleasedBy(s, at, text) && !ScanHead(s[at..]).Incomplete?
    ensures var h := ScanHead(s[at..]); ReleasedBy(s, at + h.len, text + [Emitted(h)])
  {
    var h := ScanHead(s[at..]);
    DrainStep(s[at..]);
    assert s[at..][h.len..] == s[at + h.len..];
    var d := Drain(s[at + h.len..]);
    assert text + ([Emitted(h)] + d.text) == text + [Emitted(h)] + d.text;
  }

  lemma ReleaseMore(s: seq<Byte>, at: nat, text: seq<Scalar>, n: nat, more: seq<Scalar>)
    requires at <= |s| && n <= |s| - at && ReleasedBy(s, at, text) && ReleasedBy(s[at..], n, more)
    ensures ReleasedBy(s, at + n, text + more)
  {
    assert s[at..][n..] == s[at + n..];
    assert text + (more + Drain(s[at + n..]).text) == text + more + Drain(s[at + n..]).text;
  }

  lemma ReleaseAll(s: seq<Byte>, text: seq<Scalar>)
    requires ReleasedBy(s, |s|, text)
    ensures Drain(s) == Drained(text, [])
  {
    DrainStep(s[|s|..]);
  }

  /** The library's validation loop over `remaining`. */
  method FromUtf8(s: seq<Byte>) returns (r: Verdict)
    ensures r.validUpTo <= |s|
    ensures r.stop.Whole? <==> r.validUpTo == |s|
    ensures r.stop.ErrorLen? ==> 1 <= r.stop.len <= |s| - r.validUpTo
    ensures match r.stop
            case Whole => ReleasedBy(s, |s|, r.text)
            case NeedsMore => Drain(s) == Drained(r.text, s[r.validUpTo..])
            case ErrorLen(n) => ReleasedBy(s, r.validUpTo + n, r.text + [REPLACEMENT])
  {
    var at, text := 0, [];
    while at < |s|
      invariant 0 <= at <= |s|
      invariant ReleasedBy(s, at, text)
    {
      var rest := s[at..];
      var h := ScanHead(rest);
      match h {
        case Good(v, n) =>
          ReleaseHead(s, at, text);
          at, text := at + n, text + [v];
        case Invalid(n) =>
          ReleaseHead(s, at, text);
          return Verdict(at, text, ErrorLen(n));
        case Incomplete =>
          DrainStep(rest);
          return Verdict(at, text, NeedsMore);
      }
    }
    return Verdict(at, text, Whole);
  }

  class StreamingDecoder {
    var pending: seq<Byte>
    ghost var consumed: seq<Byte>

    /** What is held back is a function of the bytes pushed so far. */
    ghost predicate Valid()
      reads this
    {
      pending == Drain(consumed).pending
    }

    constructor ()
      ensures Valid() && consumed == []
    {
      DrainStep([]);
      pending, consumed := [], [];
    }

    method Push(bytes: seq<Byte>) returns (output: seq<Scalar>)
      requires Valid()
      modifies this
      ensures Valid() && consumed == old(consumed) + bytes
      ensures Drain(consumed).text == old(Drain(consumed).text) + output
      ensures pending == [] || (ProperPrefix(pending) && |pending| <= 3)
    {
      var remaining := pending + bytes;
      DrainAppend(consumed, bytes);
      ghost var joined, at := remaining, 0;
      pending, consumed := [], consumed + bytes;
      output := [];
      while remaining != []
        invariant 0 <= at <= |joined| && remaining == joined[at..] && ReleasedBy(joined, at, output)
        invariant pending == [] && consumed == old(consumed) + bytes
        decreases |remaining|
      {
        var r := FromUtf8(remaining);
        if r.stop.NeedsMore? {
          output := output + r.text;
          pending := remaining[r.validUpTo..];
          break;
        }
        var n, text := if r.stop.Whole? then |remaining| else r.validUpTo + r.stop.len,
                       if r.stop.Whole? then r.text else r.text + [REPLACEMENT];
        ReleaseMore(joined, at, output, n, text);
        at, output, remaining := at + n, output + text, remaining[n..];
      }
      if remaining == [] {
        ReleaseAll(joined, output);
      }
      assert Drain(joined) == Drained(output, pending);
      PendingShape(consumed);
    }

    method Finish() returns (output: seq<Scalar>)
      requires Valid()
      modifies this
      ensures pending == [] && consumed == old(consumed)
      ensures Decodes(consumed, old(Drain(consumed).text) + output)
    {
      output := if pending == [] then [] else [REPLACEMENT];
      pending := [];
      LossyIsReference(consumed, Drain(consumed).text + output);
    }
  }

  /** However a stream is cut into reads, the text delivered is the lossy
      decoding of the whole stream. */
  method DecodeReads(chunks: seq<seq<Byte>>) returns (text: seq<Scalar>)
    ensures Decodes(Flatten(chunks), text)
    ensures forall other :: Decodes(Flatten(chunks), other) ==> other == text
  {
    var decoder := new StreamingDecoder();
    text := [];
    DrainStep([]);
    for i := 0 to |chunks|
      invariant decoder.Valid() && fresh(decoder)
      invariant decoder.consumed == Flatten(chunks[..i])
      invariant text == Drain(decoder.consumed).text
    {
      assert chunks[..i + 1][..i] == chunks[..i];
      var output := decoder.Push(chunks[i]);
      text := text + output;
    }
    assert chunks[..|chunks|] == chunks;
    var last := decoder.Finish();
    text := text + last;
    forall other | Decodes(Flatten(chunks), other) ensures other == text {
      LossyIsReference(Flatten(chunks), other);
      LossyIsReference(Flatten(chunks), text);
    }
  }
}
