/**
 The publisher's request framing over a byte stream (src/publisher/server.rs).

 Sockets and files are read in pieces of whatever size the environment
 chooses, and any read or write may fail.  `Frame` is the wire format; sender
 and receiver are measured against it and never against each other.
 */
module PublisherWire {
  import opened Results
  import opened Utf8

  const WIRE_MAGIC: seq<Byte> := [0x5A, 0x44, 0x58, 0x50, 0x55, 0x42, 0, 0]
  const WIRE_VERSION := 1
  const HEADER_BYTES := 24
  const MAX_METADATA_BYTES := 64 * 1024
  const STREAM_BUFFER_BYTES := 64 * 1024
  /** The block size of the runtime's own copy loop. */
  const COPY_BUFFER_BYTES := 8 * 1024
  const U64_LIMIT: nat := 0x1_0000_0000_0000_0000

  datatype WireHeader = WireHeader(metadataLen: nat, bundleLen: nat)

  datatype Decoded =
    | Header(header: WireHeader)
    | BadMagic
    | BadVersion(version: nat)
    | BadFlags(flags: nat)
    | EmptyMetadata
    | MetadataTooLong(len: nat)

  // ----- big-endian numbers -----

  function Power256(k: nat): (p: nat)
    ensures p > 0
  {
    if k == 0 then 1 else 256 * Power256(k - 1)
  }

  function ToBigEndian(n: nat, k: nat): (s: seq<Byte>)
    ensures |s| == k
  {
    if k == 0 then [] else ToBigEndian(n / 256, k - 1) + [n % 256]
  }

  function FromBigEndian(s: seq<Byte>): nat {
    if s == [] then 0 else FromBigEndian(s[..|s| - 1]) * 256 + s[|s| - 1]
  }

  lemma {:induction false} BigEndianReads(n: nat, k: nat)
    requires n < Power256(k)
    ensures FromBigEndian(ToBigEndian(n, k)) == n
  {
    if k > 0 {
      BigEndianReads(n / 256, k - 1);
      assert ToBigEndian(n, k)[..k - 1] == ToBigEndian(n / 256, k - 1);
    }
  }

  lemma {:induction false} BigEndianWrites(s: seq<Byte>)
    ensures FromBigEndian(s) < Power256(|s|)
    ensures ToBigEndian(FromBigEndian(s), |s|) == s
  {
    if s != [] {
      BigEndianWrites(s[..|s| - 1]);
      var n := FromBigEndian(s[..|s| - 1]);
      assert (n * 256 + s[|s| - 1]) / 256 == n && (n * 256 + s[|s| - 1]) % 256 == s[|s| - 1];
      assert s == s[..|s| - 1] + [s[|s| - 1]];
    }
  }

  /** `n` without its last `k` base-256 digits. */
  function Shift(n: nat, k: nat): nat {
    if k == 0 then n else Shift(n / 256, k - 1)
  }

  /** Byte `i` is a base-256 digit of `n`, the most significant first. */
  lemma {:induction false} BigEndianDigit(n: nat, k: nat, i: nat)
    requires i < k
    ensures ToBigEndian(n, k)[i] == Shift(n, k - 1 - i) % 256
  {
    if i < k - 1 {
      BigEndianDigit(n / 256, k - 1, i);
    }
  }

  lemma ShiftIs(n: nat)
    ensures Shift(n, 1) == n / 0x100
    ensures Shift(n, 2) == n / 0x1_0000
    ensures Shift(n, 3) == n / 0x100_0000
  {
    assert Shift(n, 1) == Shift(n / 256, 0);
    assert Shift(n, 2) == Shift(n / 256, 1) == Shift(n / 256 / 256, 0);
    assert Shift(n, 3) == Shift(n / 256, 2) == Shift(n / 256 / 256, 1) == Shift(n / 256 / 256 / 256, 0);
  }

  lemma FourBytes(n: nat)
    ensures ToBigEndian(n, 4) == [n / 0x100_0000 % 256, n / 0x1_0000 % 256, n / 0x100 % 256, n % 256]
  {
    BigEndianDigit(n, 4, 0);
    BigEndianDigit(n, 4, 1);
    BigEndianDigit(n, 4, 2);
    BigEndianDigit(n, 4, 3);
    ShiftIs(n);
  }

  lemma EightBytes(n: nat)
    ensures ToBigEndian(n, 8) == ToBigEndian(n / 0x1_0000_0000, 4) + ToBigEndian(n, 4)
  {
    var a, b, c, d := n / 256, n / 256 / 256, n / 256 / 256 / 256, n / 256 / 256 / 256 / 256;
    assert d == n / 0x1_0000_0000;
    assert ToBigEndian(n, 8) == ToBigEndian(a, 7) + [n % 256];
    assert ToBigEndian(a, 7) == ToBigEndian(b, 6) + [a % 256];
    assert ToBigEndian(b, 6) == ToBigEndian(c, 5) + [b % 256];
    assert ToBigEndian(c, 5) == ToBigEndian(d, 4) + [c % 256];
    FourBytes(n);
    assert ToBigEndian(n, 4) == [c % 256, b % 256, a % 256, n % 256];
  }

  lemma Widths()
    ensures Power256(2) == 0x1_0000 && Power256(4) == 0x1_0000_0000 && Power256(8) == U64_LIMIT
  {
    assert Power256(1) == 256;
    assert Power256(3) == 0x100_0000;
    assert Power256(5) == 0x100_0000_0000;
    assert Power256(6) == 0x1_0000_0000_0000;
    assert Power256(7) == 0x100_0000_0000_0000;
  }

  // ----- the header -----

  predicate Sendable(h: WireHeader) {
    0 < h.metadataLen <= MAX_METADATA_BYTES && h.bundleLen < U64_LIMIT
  }

  /** The wire format of a header. */
  function HeaderBytes(h: WireHeader): (s: seq<Byte>)
    ensures |s| == HEADER_BYTES
  {
    WIRE_MAGIC + ToBigEndian(WIRE_VERSION, 2) + ToBigEndian(0, 2) + ToBigEndian(h.metadataLen, 4)
    + ToBigEndian(h.bundleLen, 8)
  }

  function DecodeHeader(header: seq<Byte>): Decoded
    requires |header| == HEADER_BYTES
  {
    if header[..8] != WIRE_MAGIC then BadMagic else
    var version := FromBigEndian(header[8..10]);
    if version != WIRE_VERSION then BadVersion(version) else
    var flags := FromBigEndian(header[10..12]);
    if flags != 0 then BadFlags(flags) else
    var metadataLen := FromBigEndian(header[12..16]);
    if metadataLen == 0 then EmptyMetadata
    else if metadataLen > MAX_METADATA_BYTES then MetadataTooLong(metadataLen)
    else Header(WireHeader(metadataLen, FromBigEndian(header[16..24])))
  }

  method CopyFromSlice(target: array<Byte>, start: nat, source: seq<Byte>)
    requires start + |source| <= target.Length
    modifies target
    ensures target[..] == old(target[..start]) + source + old(target[start + |source|..])
  {
    for k := 0 to |source|
      invariant target[..] == old(target[..start]) + source[..k] + old(target[start + k..])
    {
      target[start + k] := source[k];
    }
  }

  method EncodeHeader(metadataLen: nat, bundleLen: nat) returns (r: Result<array<Byte>>)
    requires bundleLen < U64_LIMIT
    ensures r.Ok? <==> Sendable(WireHeader(metadataLen, bundleLen))
    ensures r.Ok? ==> fresh(r.value) && r.value[..] == HeaderBytes(WireHeader(metadataLen, bundleLen))
  {
    if metadataLen == 0 || metadataLen > MAX_METADATA_BYTES {
      return Err;
    }
    var header := new Byte[HEADER_BYTES](_ => 0);
    CopyFromSlice(header, 0, WIRE_MAGIC);
    CopyFromSlice(header, 8, ToBigEndian(WIRE_VERSION, 2));
    CopyFromSlice(header, 10, ToBigEndian(0, 2));
    CopyFromSlice(header, 12, ToBigEndian(metadataLen, 4));
    CopyFromSlice(header, 16, ToBigEndian(bundleLen, 8));
    r := Ok(header);
  }

  lemma HeaderFields(h: WireHeader)
    ensures HeaderBytes(h)[..8] == WIRE_MAGIC && HeaderBytes(h)[8..10] == ToBigEndian(WIRE_VERSION, 2)
    ensures HeaderBytes(h)[10..12] == ToBigEndian(0, 2) && HeaderBytes(h)[12..16] == ToBigEndian(h.metadataLen, 4)
    ensures HeaderBytes(h)[16..24] == ToBigEndian(h.bundleLen, 8)
  {
  }

  /** The header byte by byte: the magic, version 1, no flags, and the two lengths
      with their most significant byte first. */
  lemma HeaderLayout(h: WireHeader)
    ensures var s, m, b, c := HeaderBytes(h), h.metadataLen, h.bundleLen / 0x1_0000_0000, h.bundleLen;
      && s[..8] == [0x5A, 0x44, 0x58, 0x50, 0x55, 0x42, 0, 0] && s[8..12] == [0, 1, 0, 0]
      && s[12..16] == [m / 0x100_0000 % 256, m / 0x1_0000 % 256, m / 0x100 % 256, m % 256]
      && s[16..20] == [b / 0x100_0000 % 256, b / 0x1_0000 % 256, b / 0x100 % 256, b % 256]
      && s[20..24] == [c / 0x100_0000 % 256, c / 0x1_0000 % 256, c / 0x100 % 256, c % 256]
  {
    var s := HeaderBytes(h);
    HeaderFields(h);
    VersionAndFlags();
    assert s[8..12] == s[8..10] + s[10..12];
    FourBytes(h.metadataLen);
    EightBytes(h.bundleLen);
    assert s[16..20] == s[16..24][..4] && s[20..24] == s[16..24][4..];
    FourBytes(h.bundleLen / 0x1_0000_0000);
    FourBytes(h.bundleLen);
  }

  lemma VersionAndFlags()
    ensures ToBigEndian(WIRE_VERSION, 2) == [0, 1] && ToBigEndian(0, 2) == [0, 0]
  {
    assert ToBigEndian(0, 1) == [0];
  }

  /** Decoding undoes encoding. */
  lemma DecodeOfEncode(h: WireHeader)
    requires Sendable(h)
    ensures DecodeHeader(HeaderBytes(h)) == Header(h)
  {
    HeaderFields(h);
    Widths();
    BigEndianReads(WIRE_VERSION, 2);
    BigEndianReads(0, 2);
    BigEndianReads(h.metadataLen, 4);
    BigEndianReads(h.bundleLen, 8);
  }

  /** Encoding undoes decoding: only the bytes an encoder writes are accepted. */
  lemma EncodeOfDecode(header: seq<Byte>)
    requires |header| == HEADER_BYTES && DecodeHeader(header).Header?
    ensures Sendable(DecodeHeader(header).header)
    ensures HeaderBytes(DecodeHeader(header).header) == header
  {
    Widths();
    BigEndianWrites(header[8..10]);
    BigEndianWrites(header[10..12]);
    BigEndianWrites(header[12..16]);
    BigEndianWrites(header[16..24]);
    assert header == header[..8] + header[8..10] + header[10..12] + header[12..16] + header[16..24];
  }

  /** A header is accepted exactly when some sendable header has those bytes. */
  lemma AcceptedHeaders(header: seq<Byte>)
    requires |header| == HEADER_BYTES
    ensures DecodeHeader(header).Header? <==> exists h :: Sendable(h) && HeaderBytes(h) == header
  {
    if DecodeHeader(header).Header? {
      EncodeOfDecode(header);
    }
    if h :| Sendable(h) && HeaderBytes(h) == header {
      DecodeOfEncode(h);
    }
  }

  // ----- streams -----

  /** Something read from the front: the bytes still to come before EOF. */
  class Source {
    var rest: seq<Byte>
    var calls: nat
    /** How much the n-th read delivers, before clamping. */
    const pace: nat -> nat
    const fails: nat -> bool

    constructor (bytes: seq<Byte>, pace: nat -> nat, fails: nat -> bool)
      ensures rest == bytes && calls == 0 && this.pace == pace && this.fails == fails
    {
      rest, calls, this.pace, this.fails := bytes, 0, pace, fails;
    }

    ghost predicate Reliable() {
      forall n :: !fails(n)
    }

    /** At least one byte unless none was asked for or none is left. */
    method Read(limit: nat) returns (r: Result<seq<Byte>>)
      modifies this
      ensures Reliable() ==> r.Ok?
      ensures r.Err? ==> rest == old(rest)
      ensures r.Ok? ==> |r.value| <= limit && old(rest) == r.value + rest
      ensures r.Ok? && r.value == [] ==> limit == 0 || old(rest) == []
    {
      var n := pace(calls);
      var failed := fails(calls);
      calls := calls + 1;
      if failed {
        return Err;
      }
      var most := if limit < |rest| then limit else |rest|;
      n := if n > most then most else if n == 0 && most > 0 then 1 else n;
      r := Ok(rest[..n]);
      rest := rest[n..];
    }

    /** `read_exact`. */
    method ReadExact(n: nat) returns (r: Result<seq<Byte>>)
      modifies this
      ensures r.Ok? ==> |r.value| == n && old(rest) == r.value + rest
      ensures Reliable() ==> (r.Ok? <==> |old(rest)| >= n)
    {
      var got: seq<Byte> := [];
      while |got| < n
        invariant |got| <= n && old(rest) == got + rest
        decreases n - |got|
      {
        var piece :- Read(n - |got|);
        if piece == [] {
          return Err;
        }
        got := got + piece;
      }
      r := Ok(got);
    }
  }

  /** Something written at the end; a failed write may have written a part. */
  class Sink {
    var written: seq<Byte>
    var calls: nat
    const fault: nat -> Option<nat>

    constructor (fault: nat -> Option<nat>)
      ensures written == [] && this.fault == fault
    {
      written, calls, this.fault := [], 0, fault;
    }

    ghost predicate Reliable() {
      forall n :: fault(n).None?
    }

    method WriteAll(bytes: seq<Byte>) returns (r: Result<()>)
      modifies this
      ensures Reliable() ==> r.Ok?
      ensures r.Ok? ==> written == old(written) + bytes
      ensures exists k :: 0 <= k <= |bytes| && written == old(written) + bytes[..k]
    {
      var f := fault(calls);
      calls := calls + 1;
      var k := if f.None? || f.value > |bytes| then |bytes| else f.value;
      written := written + bytes[..k];
      r := if f.None? then Ok(()) else Err;
    }
  }

  // ----- the receiver's bundle -----

  /** What the receiver keeps of a bundle: an empty one is no bundle. */
  function Kept(bundle: seq<Byte>): Option<seq<Byte>> {
    if bundle == [] then None else Some(bundle)
  }

  function Min(a: nat, b: nat): nat { if a < b then a else b }

  /** Success means that the peer sent the declared number of bytes and closed,
      and that the spool holds exactly those; absent I/O errors, that is also
      sufficient. */
  method ReceiveDeclaredBundle(stream: Source, bundleLen: nat, spool: Sink) returns (r: Result<Option<seq<Byte>>>)
    requires spool.written == []
    modifies stream, spool
    ensures r.Ok? ==> |old(stream.rest)| == bundleLen && r.value == Kept(old(stream.rest))
    ensures r.Ok? ==> spool.written == old(stream.rest) && stream.rest == []
    ensures stream.Reliable() && spool.Reliable() ==> (r.Ok? <==> |old(stream.rest)| == bundleLen)
  {
    if bundleLen == 0 {
      var extra :- stream.Read(1);
      if extra != [] {
        return Err;
      }
      return Ok(None);
    }
    var remaining: nat := bundleLen;
    while remaining != 0
      invariant remaining == bundleLen - |spool.written|
      invariant old(stream.rest) == spool.written + stream.rest
    {
      var piece :- stream.Read(Min(remaining, STREAM_BUFFER_BYTES));
      if piece == [] {
        return Err;
      }
      var _ :- spool.WriteAll(piece);
      remaining := remaining - |piece|;
    }
    var extra :- stream.Read(1);
    if extra != [] {
      return Err;
    }
    assert spool.written == old(stream.rest);
    r := Ok(Some(spool.written));
  }

  // ----- the sender's bundle -----

  /** Whatever happens, only bytes of the file go out, in order and no more than
      declared; success means the file had exactly the declared length. */
  method StreamBundleFile(stream: Sink, file: Source, declaredLen: nat) returns (r: Result<()>)
    modifies stream, file
    ensures r.Ok? ==> |old(file.rest)| == declaredLen && stream.written == old(stream.written) + old(file.rest)
    ensures file.Reliable() && stream.Reliable() ==> (r.Ok? <==> |old(file.rest)| == declaredLen)
    ensures exists k: nat ::
      k <= Min(declaredLen, |old(file.rest)|) && stream.written == old(stream.written) + old(file.rest)[..k]
  {
    ghost var before, content := stream.written, file.rest;
    var copied := 0;
    assert content[..0] == [];
    while copied < declaredLen
      invariant copied <= declaredLen && copied <= |content|
      invariant stream.written == before + content[..copied]
      invariant file.rest == content[copied..]
      decreases declaredLen - copied
    {
      var piece :- file.Read(Min(declaredLen - copied, COPY_BUFFER_BYTES));
      if piece == [] {
        break;
      }
      ghost var sent := stream.written;
      var w := stream.WriteAll(piece);
      ghost var k: nat :| k <= |piece| && stream.written == sent + piece[..k];
      assert content[..copied + k] == content[..copied] + piece[..k];
      assert content[..copied + |piece|] == content[..copied] + piece;
      if w.Err? {
        return Err;
      }
      copied := copied + |piece|;
    }
    if copied != declaredLen {
      return Err;
    }
    assert copied == |content| ==> content[..copied] == content;
    var extra :- file.Read(1);
    if extra != [] {
      return Err;
    }
    r := Ok(());
  }

  // ----- whole requests -----

  /** The wire format of a request. */
  function Frame(metadata: seq<Byte>, bundle: seq<Byte>): seq<Byte> {
    HeaderBytes(WireHeader(|metadata|, |bundle|)) + metadata + bundle
  }

  predicate Framable(metadata: seq<Byte>, bundle: seq<Byte>) {
    Sendable(WireHeader(|metadata|, |bundle|))
  }

  /** A stream frames at most one request, and no frame is the beginning of
      another. */
  lemma FramesAreUnambiguous(m1: seq<Byte>, b1: seq<Byte>, m2: seq<Byte>, b2: seq<Byte>)
    requires Framable(m1, b1) && Framable(m2, b2) && Frame(m1, b1) <= Frame(m2, b2)
    ensures m1 == m2 && b1 == b2
  {
    var h1, h2 := WireHeader(|m1|, |b1|), WireHeader(|m2|, |b2|);
    var f1, f2 := Frame(m1, b1), Frame(m2, b2);
    assert HeaderBytes(h1) == f1[..HEADER_BYTES] == f2[..HEADER_BYTES] == HeaderBytes(h2);
    DecodeOfEncode(h1);
    DecodeOfEncode(h2);
    assert f1 == f2;
    assert m1 == f1[HEADER_BYTES..HEADER_BYTES + |m1|] == m2;
    assert b1 == f1[HEADER_BYTES + |m1|..] == b2;
  }

  /** What the publisher decides from the metadata alone, before the body. */
  type Policy = (seq<Byte>, nat) -> bool

  ghost function Content(bundle: Source?): seq<Byte>
    reads bundle
  {
    if bundle == null then [] else bundle.rest
  }

  /** `statLen` is the length found when the file was looked at, which may no
      longer be its length when it is sent.  No bundle is declared as empty. */
  method SubmitRequestFrame(
    stream: Sink, metadata: seq<Byte>, bundle: Source?, statLen: nat, maxBundle: nat, policy: Policy)
    returns (r: Result<()>)
    requires stream.written == [] && maxBundle < U64_LIMIT
    modifies stream, bundle
    ensures r.Ok? ==> Framable(metadata, old(Content(bundle))) && |old(Content(bundle))| <= maxBundle
    ensures r.Ok? ==> policy(metadata, |old(Content(bundle))|) && stream.written == Frame(metadata, old(Content(bundle)))
    ensures stream.Reliable() && (bundle != null ==> bundle.Reliable()) ==>
      (r.Ok? <==> && 0 < |metadata| <= MAX_METADATA_BYTES
                  && |old(Content(bundle))| == (if bundle == null then 0 else statLen) <= maxBundle
                  && policy(metadata, |old(Content(bundle))|))
  {
    var declaredLen := if bundle == null then 0 else statLen;
    if declaredLen > maxBundle {
      return Err;
    }
    var header :- EncodeHeader(|metadata|, declaredLen);
    var _ :- stream.WriteAll(header[..]);
    var _ :- stream.WriteAll(metadata);
    if !policy(metadata, declaredLen) { // the acknowledgement says no
      return Err;
    }
    if bundle != null {
      var _ :- StreamBundleFile(stream, bundle, declaredLen);
    }
    r := Ok(());
  }

  ghost predicate Admissible(metadata: seq<Byte>, bundleLen: nat, maxBundle: nat, policy: Policy) {
    bundleLen <= maxBundle && policy(metadata, bundleLen)
  }

  ghost predicate Frames(s: seq<Byte>, metadata: seq<Byte>, bundle: seq<Byte>) {
    Framable(metadata, bundle) && s == Frame(metadata, bundle)
  }

  lemma FrameHead(head: seq<Byte>, rest: seq<Byte>, m: seq<Byte>, b: seq<Byte>)
    requires |head| == HEADER_BYTES && Frames(head + rest, m, b)
    ensures DecodeHeader(head) == Header(WireHeader(|m|, |b|)) && |rest| == |m| + |b|
  {
    var h := WireHeader(|m|, |b|);
    assert head == (head + rest)[..HEADER_BYTES] == HeaderBytes(h);
    DecodeOfEncode(h);
  }

  lemma FrameBody(head: seq<Byte>, metadata: seq<Byte>, rest: seq<Byte>, m: seq<Byte>, b: seq<Byte>)
    requires |head| == HEADER_BYTES && Frames(head + (metadata + rest), m, b)
    requires |metadata| == |m|
    ensures metadata == m && rest == b
  {
    var s := head + (metadata + rest);
    assert metadata == s[HEADER_BYTES..HEADER_BYTES + |m|] == m;
    assert rest == s[HEADER_BYTES + |m|..] == b;
  }

  /** The part before the acknowledgement: the metadata and the declared length. */
  method ReadAndValidateMetadata(stream: Source, maxBundle: nat, policy: Policy)
    returns (r: Result<(seq<Byte>, nat)>)
    modifies stream
    ensures r.Ok? ==> Sendable(WireHeader(|r.value.0|, r.value.1)) && Admissible(r.value.0, r.value.1, maxBundle, policy)
    ensures r.Ok? ==>
      old(stream.rest) == HeaderBytes(WireHeader(|r.value.0|, r.value.1)) + (r.value.0 + stream.rest)
    ensures stream.Reliable() ==> forall m, b | Frames(old(stream.rest), m, b) ::
      r == if Admissible(m, |b|, maxBundle, policy) then Ok((m, |b|)) else Err
  {
    ghost var all := stream.rest;
    var head :- ReadHeader(stream, maxBundle);
    ghost var h := HeaderBytes(head);
    var metadata :- stream.ReadExact(head.metadataLen);
    forall m, b | Frames(all, m, b) ensures metadata == m && |b| == head.bundleLen {
      FrameHead(h, metadata + stream.rest, m, b);
      DecodeOfEncode(head);
      FrameBody(h, metadata, stream.rest, m, b);
    }
    if !policy(metadata, head.bundleLen) {
      return Err;
    }
    r := Ok((metadata, head.bundleLen));
  }

  method ReadHeader(stream: Source, maxBundle: nat) returns (r: Result<WireHeader>)
    modifies stream
    ensures r.Ok? ==> Sendable(r.value) && r.value.bundleLen <= maxBundle
    ensures r.Ok? ==> old(stream.rest) == HeaderBytes(r.value) + stream.rest
    ensures stream.Reliable() ==> forall m, b | Frames(old(stream.rest), m, b) ::
      (r.Ok? <==> |b| <= maxBundle) && (r.Ok? ==> |stream.rest| == |m| + |b| && r.value.metadataLen == |m|)
  {
    ghost var all := stream.rest;
    var head :- stream.ReadExact(HEADER_BYTES);
    forall m, b | Frames(all, m, b)
      ensures DecodeHeader(head) == Header(WireHeader(|m|, |b|)) && |stream.rest| == |m| + |b|
    {
      FrameHead(head, stream.rest, m, b);
    }
    var decoded := DecodeHeader(head);
    if !decoded.Header? || decoded.header.bundleLen > maxBundle {
      return Err;
    }
    EncodeOfDecode(head);
    r := Ok(decoded.header);
  }

  /** The receiver delivers exactly what was framed, and, absent I/O errors,
      accepts exactly the frames the policy and the limit allow. */
  method HandleConnection(stream: Source, spool: Sink, maxBundle: nat, policy: Policy)
    returns (r: Result<(seq<Byte>, Option<seq<Byte>>)>)
    requires spool.written == []
    modifies stream, spool
    ensures r.Ok? ==> Framable(r.value.0, spool.written) && Admissible(r.value.0, |spool.written|, maxBundle, policy)
    ensures r.Ok? ==> old(stream.rest) == Frame(r.value.0, spool.written) && r.value.1 == Kept(spool.written)
    ensures stream.Reliable() && spool.Reliable() ==> forall m, b | Frames(old(stream.rest), m, b) ::
      r.Ok? <==> Admissible(m, |b|, maxBundle, policy)
  {
    var head :- ReadAndValidateMetadata(stream, maxBundle, policy);
    assert old(stream.rest) == HeaderBytes(WireHeader(|head.0|, head.1)) + head.0 + stream.rest;
    var kept :- ReceiveDeclaredBundle(stream, head.1, spool);
    r := Ok((head.0, kept));
  }

  /** Whatever a successful sender was given reaches a receiver on any schedule
      of reads, as it was, whenever that receiver succeeds; and absent I/O errors
      it succeeds. */
  method Transfer(
    wire: Sink, metadata: seq<Byte>, bundle: Source?, statLen: nat, maxBundle: nat, policy: Policy,
    pace: nat -> nat, fails: nat -> bool, spool: Sink)
    returns (sent: Result<()>, received: Result<(seq<Byte>, Option<seq<Byte>>)>)
    requires wire.written == [] && spool.written == [] && wire != spool && maxBundle < U64_LIMIT
    modifies wire, bundle, spool
    ensures sent.Ok? && received.Ok? ==>
      received.value == (metadata, Kept(old(Content(bundle)))) && spool.written == old(Content(bundle))
    ensures sent.Ok? && spool.Reliable() && (forall n :: !fails(n)) ==> received.Ok?
  {
    received := Err;
    ghost var content := Content(bundle);
    sent := SubmitRequestFrame(wire, metadata, bundle, statLen, maxBundle, policy);
    if sent.Ok? {
      var stream := new Source(wire.written, pace, fails);
      assert Frames(stream.rest, metadata, content);
      received := HandleConnection(stream, spool, maxBundle, policy);
      if received.Ok? {
        FramesAreUnambiguous(metadata, content, received.value.0, spool.written);
      }
    }
  }
}
