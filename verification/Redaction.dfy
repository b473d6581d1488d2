/**
 Hiding the value of a query parameter in text (src/redaction.rs).

 `Redact` reads one byte at a time and remembers only whether the byte before
 was part of a name; the source jumps from occurrence to occurrence, as
 `ByToken` does.  For a parameter made of name characters the two are proved
 equal, and what is promised of the output is proved of `Redact`.
 */
module Redaction {
  import opened Results
  import opened Utf8

  const EQUALS: Byte := 0x3D

  predicate IsNameByte(b: Byte) {
    || 0x30 <= b <= 0x39 || 0x41 <= b <= 0x5A || 0x61 <= b <= 0x7A // 0-9, A-Z, a-z
    || b == 0x5F || b == 0x2D // '_' and '-'
  }

  predicate IsDelimiter(b: Byte) {
    || b == 0x26 || b == 0x23 || b == 0x20 || b == 0x09 || b == 0x0D || b == 0x0A // & # and white space
    || b == 0x22 || b == 0x27 || b == 0x2C || b == 0x29 || b == 0x5D || b == 0x7D || b == 0x3E // " ' , ) ] } >
  }

  /** The characters that end a value, and those a name is made of. */
  lemma DelimitersAre(b: Byte)
    ensures IsDelimiter(b) <==> b as char in "&# \t\r\n\"',)]}>"
    ensures IsNameByte(b) <==>
      var c := b as char; '0' <= c <= '9' || 'A' <= c <= 'Z' || 'a' <= c <= 'z' || c == '_' || c == '-'
  {
  }

  /** A parameter name and `=`.  Such a token never overlaps itself. */
  predicate IsToken(token: seq<Byte>) {
    && |token| >= 2 && token[|token| - 1] == EQUALS
    && forall i | 0 <= i < |token| - 1 :: IsNameByte(token[i])
  }

  /** A replacement that neither holds a token nor can begin one. */
  predicate IsMarker(marker: seq<Byte>) {
    && marker != [] && !IsNameByte(marker[|marker| - 1])
    && forall i | 0 <= i < |marker| :: marker[i] != EQUALS
  }

  predicate At(s: seq<Byte>, i: nat, token: seq<Byte>) {
    i <= |s| && token <= s[i..]
  }

  predicate DelimiterFree(v: seq<Byte>) {
    forall i | 0 <= i < |v| :: !IsDelimiter(v[i])
  }

  /** The end, or a delimiter. */
  predicate Closed(post: seq<Byte>) {
    post == [] || IsDelimiter(post[0])
  }

  /** The length of the value at the front of `s`. */
  function ValueEnd(s: seq<Byte>): (n: nat)
    ensures n <= |s| && (n < |s| ==> IsDelimiter(s[n]))
    ensures forall i | 0 <= i < n :: !IsDelimiter(s[i])
  {
    if s == [] || IsDelimiter(s[0]) then 0 else 1 + ValueEnd(s[1..])
  }

  /** `inName`: the byte before `s` is part of a name. */
  function Redact(token: seq<Byte>, marker: seq<Byte>, inName: bool, s: seq<Byte>): seq<Byte>
    decreases |s|
  {
    if s == [] then []
    else if token != [] && token <= s && !inName then
      var rest := s[|token|..];
      token + marker + Redact(token, marker, false, rest[ValueEnd(rest)..])
    else [s[0]] + Redact(token, marker, IsNameByte(s[0]), s[1..])
  }

  // ----- tokens -----

  lemma TokenBytes(s: seq<Byte>, i: nat, token: seq<Byte>, k: nat)
    requires At(s, i, token) && k < |token|
    ensures i + k < |s| && s[i + k] == token[k]
  {
    assert s[i..][k] == token[k];
  }

  lemma Mismatch(s: seq<Byte>, i: nat, token: seq<Byte>, k: nat)
    requires k < |token| && i + k < |s| && s[i + k] != token[k]
    ensures !At(s, i, token)
  {
    assert s[i..][k] == s[i + k];
  }

  lemma NoOverlap(s: seq<Byte>, i: nat, j: nat, token: seq<Byte>)
    requires IsToken(token) && At(s, i, token) && i < j < i + |token|
    ensures !At(s, j, token)
  {
    TokenBytes(s, i, token, |token| - 1);
    Mismatch(s, j, token, i + |token| - 1 - j);
  }

  // ----- what the output shows -----

  /** A tail of the token is at the front of the output only if it was at the
      front of the input. */
  lemma {:induction false} TailWasThere(token: seq<Byte>, marker: seq<Byte>, s: seq<Byte>, k: nat)
    requires IsToken(token) && 1 <= k < |token|
    requires token[k..] <= Redact(token, marker, true, s)
    ensures token[k..] <= s
  {
    assert s != [] && token[k..][0] == s[0];
    if k + 1 < |token| {
      var out := Redact(token, marker, true, s[1..]);
      assert Redact(token, marker, true, s)[1..] == out;
      assert token[k..] == [token[k]] + token[k + 1..];
      TailWasThere(token, marker, s[1..], k + 1);
    }
  }

  /** Every occurrence of the token that is not the end of a longer name is
      followed by the marker. */
  ghost predicate Hidden(token: seq<Byte>, marker: seq<Byte>, inName: bool, out: seq<Byte>) {
    forall j: nat | At(out, j, token) && !(if j == 0 then inName else IsNameByte(out[j - 1])) ::
      At(out, j + |token|, marker)
  }

  lemma HiddenMarker(token: seq<Byte>, marker: seq<Byte>, out: seq<Byte>)
    requires IsToken(token) && IsMarker(marker) && Hidden(token, marker, false, out)
    ensures Hidden(token, marker, false, token + marker + out)
  {
    var all := token + marker + out;
    var m := |token| + |marker|;
    forall j: nat | At(all, j, token) && !(if j == 0 then false else IsNameByte(all[j - 1]))
      ensures At(all, j + |token|, marker)
    {
      if j == 0 {
        assert all[|token|..] == marker + out;
      } else if j < m {
        assert false by { NotInside(token, marker, out, j); }
      } else {
        assert all[j..] == out[j - m..];
        assert j > m ==> all[j - 1] == out[j - m - 1];
        assert At(out, j - m, token);
        assert all[j + |token|..] == out[j - m + |token|..];
      }
    }
  }

  lemma NotInside(token: seq<Byte>, marker: seq<Byte>, out: seq<Byte>, j: nat)
    requires IsToken(token) && IsMarker(marker) && 0 < j < |token| + |marker|
    ensures !At(token + marker + out, j, token)
  {
    var all := token + marker + out;
    var m := |token| + |marker|;
    if j < |token| {
      assert At(all, 0, token);
      NoOverlap(all, 0, j, token);
    } else if j + |token| <= m {
      assert all[j + |token| - 1] == marker[j - 1];
      Mismatch(all, j, token, |token| - 1);
    } else {
      assert all[m - 1] == marker[|marker| - 1];
      Mismatch(all, j, token, m - 1 - j);
    }
  }

  lemma TokenWasThere(token: seq<Byte>, marker: seq<Byte>, s: seq<Byte>)
    requires IsToken(token) && s != []
    requires token <= [s[0]] + Redact(token, marker, IsNameByte(s[0]), s[1..])
    ensures token <= s
  {
    var out := [s[0]] + Redact(token, marker, IsNameByte(s[0]), s[1..]);
    assert token[0] == s[0] && token == [token[0]] + token[1..];
    assert out[1..] == Redact(token, marker, true, s[1..]);
    TailWasThere(token, marker, s[1..], 1);
  }

  lemma {:induction false} RedactHides(token: seq<Byte>, marker: seq<Byte>, inName: bool, s: seq<Byte>)
    requires IsToken(token) && IsMarker(marker)
    ensures Hidden(token, marker, inName, Redact(token, marker, inName, s))
    decreases |s|
  {
    var out := Redact(token, marker, inName, s);
    if s == [] {
    } else if token <= s && !inName {
      var rest := s[|token|..];
      RedactHides(token, marker, false, rest[ValueEnd(rest)..]);
      HiddenMarker(token, marker, Redact(token, marker, false, rest[ValueEnd(rest)..]));
    } else {
      var tail := Redact(token, marker, IsNameByte(s[0]), s[1..]);
      RedactHides(token, marker, IsNameByte(s[0]), s[1..]);
      forall j: nat | At(out, j, token) && !(if j == 0 then inName else IsNameByte(out[j - 1]))
        ensures At(out, j + |token|, marker)
      {
        if j == 0 {
          TokenWasThere(token, marker, s);
          assert false;
        } else {
          assert out[j..] == tail[j - 1..];
          assert At(tail, j - 1, token);
          assert out[j + |token|..] == tail[j - 1 + |token|..];
        }
      }
    }
  }

  // ----- the value does not matter -----

  lemma {:induction false} ValueEndIs(v: seq<Byte>, post: seq<Byte>)
    requires DelimiterFree(v) && Closed(post)
    ensures ValueEnd(v + post) == |v|
  {
    if v == [] {
      assert v + post == post;
    } else {
      assert (v + post)[1..] == v[1..] + post;
      ValueEndIs(v[1..], post);
    }
  }

  /** `s` is `t` with a value inserted after the token that both begin with. */
  ghost predicate SameTail(token: seq<Byte>, s: seq<Byte>, t: seq<Byte>, v: seq<Byte>, post: seq<Byte>) {
    && DelimiterFree(v) && Closed(post)
    && s == token + (v + post) && t == token + post
  }

  lemma FrontErased(token: seq<Byte>, marker: seq<Byte>, s: seq<Byte>, t: seq<Byte>, v: seq<Byte>, post: seq<Byte>)
    requires IsToken(token) && SameTail(token, s, t, v, post)
    ensures Redact(token, marker, false, s) == Redact(token, marker, false, t)
  {
    RedactFront(token, marker, v, post);
    RedactFront(token, marker, [], post);
    assert [] + post == post;
  }

  lemma SplitPre(token: seq<Byte>, pre: seq<Byte>, s: seq<Byte>)
    requires token <= pre
    ensures pre + s == token + (pre[|token|..] + s)
  {
    assert pre == token + pre[|token|..];
  }

  lemma TailErased(
    token: seq<Byte>, marker: seq<Byte>, u: seq<Byte>, s: seq<Byte>, t: seq<Byte>, v: seq<Byte>, post: seq<Byte>)
    requires IsToken(token) && SameTail(token, s, t, v, post) && DelimiterFree(u)
    ensures Redact(token, marker, false, token + (u + s)) == Redact(token, marker, false, token + (u + t))
  {
    assert u + s == (u + token + v) + post && u + t == (u + token) + post;
    RedactFront(token, marker, u + token + v, post);
    RedactFront(token, marker, u + token, post);
  }

  lemma {:induction false} ValueErased(
    token: seq<Byte>, marker: seq<Byte>, inName: bool, pre: seq<Byte>, s: seq<Byte>, t: seq<Byte>,
    v: seq<Byte>, post: seq<Byte>)
    requires IsToken(token) && SameTail(token, s, t, v, post)
    requires if pre == [] then !inName else !IsNameByte(pre[|pre| - 1])
    ensures Redact(token, marker, inName, pre + s) == Redact(token, marker, inName, pre + t)
    decreases |pre|
  {
    if pre == [] {
      FrontErased(token, marker, s, t, v, post);
      assert pre + s == s && pre + t == t;
    } else if token <= pre && !inName {
      var u := pre[|token|..];
      SplitPre(token, pre, s);
      SplitPre(token, pre, t);
      var d := ValueEnd(u);
      if d == |u| {
        TailErased(token, marker, u, s, t, v, post);
      } else {
        ValueErased(token, marker, false, u[d..], s, t, v, post);
        MiddleErased(token, marker, u, d, s, t);
      }
    } else {
      ValueErased(token, marker, IsNameByte(pre[0]), pre[1..], s, t, v, post);
      RedactSteps(token, marker, inName, pre, s);
      RedactSteps(token, marker, inName, pre, t);
    }
  }

  /** What follows a value matters only through its own redaction. */
  lemma AfterValue(token: seq<Byte>, marker: seq<Byte>, v: seq<Byte>, a: seq<Byte>, b: seq<Byte>)
    requires IsToken(token) && DelimiterFree(v) && Closed(a) && Closed(b)
    requires Redact(token, marker, false, a) == Redact(token, marker, false, b)
    ensures Redact(token, marker, false, token + (v + a)) == Redact(token, marker, false, token + (v + b))
  {
    RedactFront(token, marker, v, a);
    RedactFront(token, marker, v, b);
  }

  lemma CutAt(u: seq<Byte>, d: nat, s: seq<Byte>)
    requires d < |u| && IsDelimiter(u[d])
    ensures u + s == u[..d] + (u[d..] + s) && Closed(u[d..] + s)
  {
    assert u == u[..d] + u[d..];
  }

  lemma MiddleErased(token: seq<Byte>, marker: seq<Byte>, u: seq<Byte>, d: nat, s: seq<Byte>, t: seq<Byte>)
    requires IsToken(token) && d < |u| && DelimiterFree(u[..d]) && IsDelimiter(u[d])
    requires Redact(token, marker, false, u[d..] + s) == Redact(token, marker, false, u[d..] + t)
    ensures Redact(token, marker, false, token + (u + s)) == Redact(token, marker, false, token + (u + t))
  {
    CutAt(u, d, s);
    CutAt(u, d, t);
    AfterValue(token, marker, u[..d], u[d..] + s, u[d..] + t);
  }

  lemma RedactSteps(token: seq<Byte>, marker: seq<Byte>, inName: bool, pre: seq<Byte>, s: seq<Byte>)
    requires IsToken(token) && pre != [] && !IsNameByte(pre[|pre| - 1]) && (inName || !(token <= pre))
    ensures Redact(token, marker, inName, pre + s)
         == [pre[0]] + Redact(token, marker, IsNameByte(pre[0]), pre[1..] + s)
  {
    assert (pre + s)[1..] == pre[1..] + s;
    PrefixOfPre(token, pre, s);
  }

  /** Two texts that differ only in the value of the parameter give the same
      output, wherever in the text that is. */
  lemma ValueDoesNotMatter(
    token: seq<Byte>, marker: seq<Byte>, pre: seq<Byte>, v: seq<Byte>, w: seq<Byte>, post: seq<Byte>)
    requires IsToken(token) && DelimiterFree(v) && DelimiterFree(w) && Closed(post)
    requires pre == [] || !IsNameByte(pre[|pre| - 1])
    ensures Redact(token, marker, false, pre + (token + (v + post)))
         == Redact(token, marker, false, pre + (token + (w + post)))
  {
    ValueErased(token, marker, false, pre, token + (v + post), token + post, v, post);
    ValueErased(token, marker, false, pre, token + (w + post), token + post, w, post);
  }

  lemma RedactFront(token: seq<Byte>, marker: seq<Byte>, v: seq<Byte>, post: seq<Byte>)
    requires IsToken(token) && DelimiterFree(v) && Closed(post)
    ensures Redact(token, marker, false, token + (v + post)) == token + marker + Redact(token, marker, false, post)
  {
    ValueEndIs(v, post);
    assert (token + (v + post))[|token|..] == v + post;
    assert (v + post)[|v|..] == post;
  }

  /** A value ends at the first delimiter: that is kept, and what follows it is
      redacted on its own. */
  lemma KeptFromDelimiter(token: seq<Byte>, marker: seq<Byte>, v: seq<Byte>, d: Byte, rest: seq<Byte>)
    requires IsToken(token) && DelimiterFree(v) && IsDelimiter(d)
    ensures Redact(token, marker, false, token + (v + ([d] + rest)))
         == token + marker + ([d] + Redact(token, marker, false, rest))
  {
    RedactFront(token, marker, v, [d] + rest);
    assert token[0] != d && ([d] + rest)[1..] == rest;
  }

  /** A token at the front cannot straddle a byte that is not in a name. */
  lemma PrefixOfPre(token: seq<Byte>, pre: seq<Byte>, rest: seq<Byte>)
    requires IsToken(token) && pre != [] && !IsNameByte(pre[|pre| - 1])
    ensures token <= pre + rest <==> token <= pre
  {
    if |pre| < |token| {
      assert (pre + rest)[|pre| - 1] != token[|pre| - 1];
    }
  }

  // ----- what is kept -----

  datatype Piece = Plain(byte: Byte) | Secret(value: seq<Byte>)

  function Original(token: seq<Byte>, p: Piece): seq<Byte> {
    if p.Plain? then [p.byte] else token + p.value
  }

  function Shown(token: seq<Byte>, marker: seq<Byte>, p: Piece): seq<Byte> {
    if p.Plain? then [p.byte] else token + marker
  }

  function Joined(f: Piece -> seq<Byte>, pieces: seq<Piece>): seq<Byte> {
    if pieces == [] then [] else f(pieces[0]) + Joined(f, pieces[1..])
  }

  function Text(token: seq<Byte>, pieces: seq<Piece>): seq<Byte> {
    Joined(p => Original(token, p), pieces)
  }

  function Output(token: seq<Byte>, marker: seq<Byte>, pieces: seq<Piece>): seq<Byte> {
    Joined(p => Shown(token, marker, p), pieces)
  }

  /** A secret is a token that starts a name, with everything up to the next
      delimiter; no such token is left among the plain bytes. */
  predicate Proper(token: seq<Byte>, inName: bool, pieces: seq<Piece>)
    decreases |pieces|
  {
    pieces == [] ||
    if pieces[0].Plain? then
      && (inName || !(token <= Text(token, pieces)))
      && Proper(token, IsNameByte(pieces[0].byte), pieces[1..])
    else
      && !inName && DelimiterFree(pieces[0].value)
      && Closed(Text(token, pieces[1..]))
      && Proper(token, false, pieces[1..])
  }

  lemma {:induction false} ProperIsRedact(token: seq<Byte>, marker: seq<Byte>, inName: bool, pieces: seq<Piece>)
    requires IsToken(token) && Proper(token, inName, pieces)
    ensures Output(token, marker, pieces) == Redact(token, marker, inName, Text(token, pieces))
    decreases |pieces|
  {
    if pieces != [] {
      var rest := Text(token, pieces[1..]);
      if pieces[0].Plain? {
        ProperIsRedact(token, marker, IsNameByte(pieces[0].byte), pieces[1..]);
        assert Text(token, pieces)[1..] == rest;
      } else {
        ProperIsRedact(token, marker, false, pieces[1..]);
        assert Text(token, pieces) == token + (pieces[0].value + rest);
        RedactFront(token, marker, pieces[0].value, rest);
      }
    }
  }

  ghost predicate Explained(token: seq<Byte>, inName: bool, s: seq<Byte>) {
    exists pieces :: Proper(token, inName, pieces) && Text(token, pieces) == s
  }

  lemma AddSecret(token: seq<Byte>, v: seq<Byte>, rest: seq<Byte>)
    requires IsToken(token) && DelimiterFree(v) && Closed(rest) && Explained(token, false, rest)
    ensures Explained(token, false, token + v + rest)
  {
    var more :| Proper(token, false, more) && Text(token, more) == rest;
    var pieces := [Secret(v)] + more;
    assert pieces[1..] == more;
    assert Proper(token, false, pieces) && Text(token, pieces) == token + v + rest;
  }

  lemma AddPlain(token: seq<Byte>, inName: bool, b: Byte, rest: seq<Byte>)
    requires Explained(token, IsNameByte(b), rest) && (inName || !(token <= [b] + rest))
    ensures Explained(token, inName, [b] + rest)
  {
    var more :| Proper(token, IsNameByte(b), more) && Text(token, more) == rest;
    var pieces := [Plain(b)] + more;
    assert pieces[1..] == more;
    assert Text(token, pieces) == [b] + rest && Proper(token, inName, pieces);
  }

  lemma NothingToExplain(token: seq<Byte>, inName: bool)
    ensures Explained(token, inName, [])
  {
    assert Proper(token, inName, []) && Text(token, []) == [];
  }

  lemma SplitSecret(token: seq<Byte>, s: seq<Byte>) returns (v: seq<Byte>, post: seq<Byte>)
    requires token != [] && token <= s
    ensures s == token + v + post && DelimiterFree(v) && Closed(post) && |post| < |s|
  {
    var rest := s[|token|..];
    var n := ValueEnd(rest);
    v, post := rest[..n], rest[n..];
    assert s == token + rest;
  }

  lemma PlainExplained(token: seq<Byte>, inName: bool, s: seq<Byte>)
    requires s != [] && (inName || !(token <= s)) && Explained(token, IsNameByte(s[0]), s[1..])
    ensures Explained(token, inName, s)
  {
    assert s == [s[0]] + s[1..];
    AddPlain(token, inName, s[0], s[1..]);
  }

  lemma {:induction false} AllExplained(token: seq<Byte>, inName: bool, s: seq<Byte>)
    requires IsToken(token)
    ensures Explained(token, inName, s)
    decreases |s|
  {
    if s == [] {
      NothingToExplain(token, inName);
    } else if token <= s && !inName {
      var v, post := SplitSecret(token, s);
      AllExplained(token, false, post);
      AddSecret(token, v, post);
    } else {
      AllExplained(token, IsNameByte(s[0]), s[1..]);
      PlainExplained(token, inName, s);
    }
  }

  /** The output is the text with the values of its secrets replaced and every
      other byte kept in place. */
  lemma RedactMeaning(token: seq<Byte>, marker: seq<Byte>, s: seq<Byte>, out: seq<Byte>)
    requires IsToken(token)
    ensures out == Redact(token, marker, false, s) <==>
      exists pieces :: Proper(token, false, pieces) && Text(token, pieces) == s && Output(token, marker, pieces) == out
  {
    AllExplained(token, false, s);
    var pieces :| Proper(token, false, pieces) && Text(token, pieces) == s;
    ProperIsRedact(token, marker, false, pieces);
    forall other | Proper(token, false, other) && Text(token, other) == s
      ensures Output(token, marker, other) == Redact(token, marker, false, s)
    {
      ProperIsRedact(token, marker, false, other);
    }
  }

  // ----- the loop -----

  predicate InName(text: seq<Byte>, i: nat) {
    0 < i <= |text| && IsNameByte(text[i - 1])
  }

  ghost predicate Starts(token: seq<Byte>, text: seq<Byte>, i: nat) {
    At(text, i, token) && !InName(text, i)
  }

  ghost predicate Span(text: seq<Byte>, a: nat, b: nat) {
    && a <= b <= |text| && (b < |text| ==> IsDelimiter(text[b]))
    && forall i | a <= i < b :: !IsDelimiter(text[i])
  }

  /** The redaction of the text from `i` on for any parameter whatever: a token
      is taken whole, be it kept or followed by the marker, so that one which
      overlaps it is not seen. */
  function ByToken(token: seq<Byte>, marker: seq<Byte>, text: seq<Byte>, i: nat): seq<Byte>
    decreases |text| - i
  {
    if i >= |text| then []
    else if token == [] || !At(text, i, token) then [text[i]] + ByToken(token, marker, text, i + 1)
    else
      var after := i + |token|;
      assert after <= |text|;
      if InName(text, i) then token + ByToken(token, marker, text, after)
      else token + marker + ByToken(token, marker, text, after + ValueEnd(text[after..]))
  }

  ghost predicate Copies(text: seq<Byte>, rest: nat -> seq<Byte>, i: nat)
    requires i < |text|
  {
    rest(i) == [text[i]] + rest(i + 1)
  }

  ghost predicate Replaces(shown: seq<Byte>, rest: nat -> seq<Byte>, i: nat, end: nat) {
    rest(i) == shown + rest(end)
  }

  ghost predicate CopyRule(token: seq<Byte>, text: seq<Byte>, rest: nat -> seq<Byte>) {
    forall i: nat | i < |text| && !At(text, i, token) :: Copies(text, rest, i)
  }

  ghost predicate KeepRule(token: seq<Byte>, text: seq<Byte>, rest: nat -> seq<Byte>) {
    forall i: nat | At(text, i, token) && InName(text, i) :: Replaces(token, rest, i, i + |token|)
  }

  ghost predicate HideRule(token: seq<Byte>, marker: seq<Byte>, text: seq<Byte>, rest: nat -> seq<Byte>) {
    forall i: nat, end: nat | Starts(token, text, i) && Span(text, i + |token|, end) ::
      Replaces(token + marker, rest, i, end)
  }

  /** The equations of `ByToken`. */
  ghost predicate Steps(token: seq<Byte>, marker: seq<Byte>, text: seq<Byte>, rest: nat -> seq<Byte>) {
    && rest(|text|) == [] && CopyRule(token, text, rest) && KeepRule(token, text, rest)
    && HideRule(token, marker, text, rest)
  }

  ghost function From(token: seq<Byte>, marker: seq<Byte>, text: seq<Byte>, i: nat): seq<Byte> {
    if i <= |text| then Redact(token, marker, InName(text, i), text[i..]) else []
  }

  lemma FromCopies(token: seq<Byte>, marker: seq<Byte>, text: seq<Byte>, i: nat)
    requires i < |text| && !Starts(token, text, i)
    ensures From(token, marker, text, i) == [text[i]] + From(token, marker, text, i + 1)
  {
    assert text[i..][1..] == text[i + 1..];
  }

  lemma {:induction false} FromCopiesAll(token: seq<Byte>, marker: seq<Byte>, text: seq<Byte>, a: nat, b: nat)
    requires a <= b <= |text| && forall i: nat | a <= i < b :: !Starts(token, text, i)
    ensures From(token, marker, text, a) == text[a..b] + From(token, marker, text, b)
    decreases b - a
  {
    if a < b {
      FromCopies(token, marker, text, a);
      FromCopiesAll(token, marker, text, a + 1, b);
      Regroup(text, a, b, From(token, marker, text, b));
    }
  }

  lemma Regroup(text: seq<Byte>, a: nat, b: nat, rest: seq<Byte>)
    requires a < b <= |text|
    ensures [text[a]] + (text[a + 1..b] + rest) == text[a..b] + rest
  {
    assert text[a..b] == [text[a]] + text[a + 1..b];
  }

  /** Before a delimiter it does not matter whether a name went before. */
  lemma FlagIsIdle(token: seq<Byte>, marker: seq<Byte>, inName: bool, s: seq<Byte>)
    requires IsToken(token) && Closed(s)
    ensures Redact(token, marker, inName, s) == Redact(token, marker, false, s)
  {
    if s != [] {
      assert token[0] != s[0];
    }
  }

  lemma SpanSplits(token: seq<Byte>, text: seq<Byte>, i: nat, end: nat)
    requires At(text, i, token) && Span(text, i + |token|, end)
    ensures text[i..] == token + (text[i + |token|..end] + text[end..])
    ensures DelimiterFree(text[i + |token|..end]) && Closed(text[end..])
  {
    assert text[i..][|token|..] == text[i + |token|..];
  }

  lemma FromHides(token: seq<Byte>, marker: seq<Byte>, text: seq<Byte>, i: nat, end: nat)
    requires IsToken(token) && Starts(token, text, i) && Span(text, i + |token|, end)
    ensures From(token, marker, text, i) == token + marker + From(token, marker, text, end)
  {
    SpanSplits(token, text, i, end);
    RedactFront(token, marker, text[i + |token|..end], text[end..]);
    FlagIsIdle(token, marker, InName(text, end), text[end..]);
  }

  lemma SpanIs(text: seq<Byte>, a: nat, end: nat)
    requires Span(text, a, end)
    ensures a + ValueEnd(text[a..]) == end
  {
    assert text[a..] == text[a..end] + text[end..];
    ValueEndIs(text[a..end], text[end..]);
  }

  lemma ValueSpans(text: seq<Byte>, a: nat)
    requires a <= |text|
    ensures Span(text, a, a + ValueEnd(text[a..]))
  {
    var n := ValueEnd(text[a..]);
    forall i | a <= i < a + n ensures !IsDelimiter(text[i]) {
      assert !IsDelimiter(text[a..][i - a]);
    }
  }

  lemma TokenEnds(text: seq<Byte>, i: nat, token: seq<Byte>)
    requires At(text, i, token)
    ensures i + |token| <= |text| && text[i..i + |token|] == token
  {
    assert text[i..][..|token|] == text[i..i + |token|];
  }

  lemma ByTokenHides(token: seq<Byte>, marker: seq<Byte>, text: seq<Byte>, i: nat, end: nat)
    requires token != [] && Starts(token, text, i) && Span(text, i + |token|, end)
    ensures ByToken(token, marker, text, i) == token + marker + ByToken(token, marker, text, end)
  {
    SpanIs(text, i + |token|, end);
    TokenEnds(text, i, token);
  }

  lemma ByTokenKeeps(token: seq<Byte>, marker: seq<Byte>, text: seq<Byte>, i: nat)
    requires token != [] && At(text, i, token) && InName(text, i)
    ensures ByToken(token, marker, text, i) == token + ByToken(token, marker, text, i + |token|)
  {
    TokenEnds(text, i, token);
  }

  lemma ByTokenCopies(token: seq<Byte>, marker: seq<Byte>, text: seq<Byte>, i: nat)
    requires token != [] && i < |text| && !At(text, i, token)
    ensures ByToken(token, marker, text, i) == [text[i]] + ByToken(token, marker, text, i + 1)
  {
  }

  lemma AllByTokenCopies(token: seq<Byte>, marker: seq<Byte>, text: seq<Byte>, rest: nat -> seq<Byte>)
    requires token != [] && forall i: nat :: rest(i) == ByToken(token, marker, text, i)
    ensures CopyRule(token, text, rest)
  {
    forall i: nat | i < |text| && !At(text, i, token) ensures Copies(text, rest, i) {
      ByTokenCopies(token, marker, text, i);
    }
  }

  lemma AllByTokenKeeps(token: seq<Byte>, marker: seq<Byte>, text: seq<Byte>, rest: nat -> seq<Byte>)
    requires token != [] && forall i: nat :: rest(i) == ByToken(token, marker, text, i)
    ensures KeepRule(token, text, rest)
  {
    forall i: nat | At(text, i, token) && InName(text, i) ensures Replaces(token, rest, i, i + |token|) {
      ByTokenKeeps(token, marker, text, i);
    }
  }

  lemma AllByTokenHides(token: seq<Byte>, marker: seq<Byte>, text: seq<Byte>, rest: nat -> seq<Byte>)
    requires token != [] && forall i: nat :: rest(i) == ByToken(token, marker, text, i)
    ensures HideRule(token, marker, text, rest)
  {
    forall i: nat, end: nat | Starts(token, text, i) && Span(text, i + |token|, end)
      ensures Replaces(token + marker, rest, i, end)
    {
      ByTokenHides(token, marker, text, i, end);
    }
  }

  lemma ByPosition(token: seq<Byte>, marker: seq<Byte>, text: seq<Byte>) returns (rest: nat -> seq<Byte>)
    requires token != []
    ensures rest(0) == ByToken(token, marker, text, 0)
    ensures Steps(token, marker, text, rest)
  {
    rest := i => ByToken(token, marker, text, i);
    AllByTokenCopies(token, marker, text, rest);
    AllByTokenKeeps(token, marker, text, rest);
    AllByTokenHides(token, marker, text, rest);
  }

  lemma FromKeeps(token: seq<Byte>, marker: seq<Byte>, text: seq<Byte>, i: nat)
    requires IsToken(token) && At(text, i, token) && InName(text, i)
    ensures From(token, marker, text, i) == token + From(token, marker, text, i + |token|)
  {
    TokenEnds(text, i, token);
    NothingStartsInside(token, text, i);
    FromCopiesAll(token, marker, text, i, i + |token|);
  }

  lemma AllFromCopies(token: seq<Byte>, marker: seq<Byte>, text: seq<Byte>, rest: nat -> seq<Byte>)
    requires IsToken(token) && forall i: nat :: rest(i) == From(token, marker, text, i)
    ensures CopyRule(token, text, rest)
  {
    forall i: nat | i < |text| && !At(text, i, token) ensures Copies(text, rest, i) {
      FromCopies(token, marker, text, i);
    }
  }

  lemma AllFromKeeps(token: seq<Byte>, marker: seq<Byte>, text: seq<Byte>, rest: nat -> seq<Byte>)
    requires IsToken(token) && forall i: nat :: rest(i) == From(token, marker, text, i)
    ensures KeepRule(token, text, rest)
  {
    forall i: nat | At(text, i, token) && InName(text, i) ensures Replaces(token, rest, i, i + |token|) {
      FromKeeps(token, marker, text, i);
    }
  }

  lemma AllFromHides(token: seq<Byte>, marker: seq<Byte>, text: seq<Byte>, rest: nat -> seq<Byte>)
    requires IsToken(token) && forall i: nat :: rest(i) == From(token, marker, text, i)
    ensures HideRule(token, marker, text, rest)
  {
    forall i: nat, end: nat | Starts(token, text, i) && Span(text, i + |token|, end)
      ensures Replaces(token + marker, rest, i, end)
    {
      FromHides(token, marker, text, i, end);
    }
  }

  lemma FromByPosition(token: seq<Byte>, marker: seq<Byte>, text: seq<Byte>) returns (rest: nat -> seq<Byte>)
    requires IsToken(token)
    ensures rest(0) == Redact(token, marker, false, text)
    ensures Steps(token, marker, text, rest)
  {
    rest := i => From(token, marker, text, i);
    assert text[0..] == text;
    AllFromCopies(token, marker, text, rest);
    AllFromKeeps(token, marker, text, rest);
    AllFromHides(token, marker, text, rest);
  }

  lemma {:induction false} StepsAgree(
    token: seq<Byte>, marker: seq<Byte>, text: seq<Byte>, rest: nat -> seq<Byte>, other: nat -> seq<Byte>, i: nat)
    requires token != [] && i <= |text| && Steps(token, marker, text, rest) && Steps(token, marker, text, other)
    ensures rest(i) == other(i)
    decreases |text| - i
  {
    if i < |text| {
      if !At(text, i, token) {
        StepsAgree(token, marker, text, rest, other, i + 1);
        assert Copies(text, rest, i) && Copies(text, other, i);
      } else {
        TokenEnds(text, i, token);
        var after := i + |token|;
        if InName(text, i) {
          StepsAgree(token, marker, text, rest, other, after);
          assert Replaces(token, rest, i, after) && Replaces(token, other, i, after);
        } else {
          ValueSpans(text, after);
          var end := after + ValueEnd(text[after..]);
          StepsAgree(token, marker, text, rest, other, end);
          assert Replaces(token + marker, rest, i, end) && Replaces(token + marker, other, i, end);
        }
      }
    }
  }

  /** For a parameter made of name characters, taking tokens whole is reading
      byte by byte. */
  lemma ByTokenIsRedact(token: seq<Byte>, marker: seq<Byte>, text: seq<Byte>)
    requires IsToken(token)
    ensures ByToken(token, marker, text, 0) == Redact(token, marker, false, text)
  {
    var rest := ByPosition(token, marker, text);
    var other := FromByPosition(token, marker, text);
    StepsAgree(token, marker, text, rest, other, 0);
  }

  /** Bytes up to `b` are copied when there is no token among them. */
  lemma {:induction false} StepsCopy(
    token: seq<Byte>, marker: seq<Byte>, text: seq<Byte>, rest: nat -> seq<Byte>, a: nat, b: nat)
    requires Steps(token, marker, text, rest) && a <= b <= |text|
    requires forall i: nat | a <= i < b :: !At(text, i, token)
    ensures rest(a) == text[a..b] + rest(b)
    decreases b - a
  {
    if a < b {
      StepsCopy(token, marker, text, rest, a + 1, b);
      assert !At(text, a, token) && Copies(text, rest, a);
      assert text[a..b] == [text[a]] + text[a + 1..b];
    }
  }

  method Find(text: seq<Byte>, from: nat, token: seq<Byte>) returns (r: Option<nat>)
    requires from <= |text|
    ensures r.Some? ==> from <= r.value && At(text, r.value, token)
    ensures forall i: nat | from <= i < (if r.Some? then r.value else |text| + 1) :: !At(text, i, token)
  {
    for i := from to |text| + 1
      invariant forall j: nat | from <= j < i :: !At(text, j, token)
    {
      if token <= text[i..] {
        return Some(i);
      }
    }
    r := None;
  }

  lemma AfterAscii(s: seq<Byte>, i: nat)
    requires WellFormed(s) && i < |s| && s[i] < 0x80
    ensures Boundary(s, i) && Boundary(s, i + 1)
  {
    WellFormedSplits(s, i);
    var text :| s[i..] == EncodeAll(text);
    EncodeAllIs(text);
    assert Encode(text[0])[0] == s[i];
    assert s[i..][1..] == EncodeBy(Encode, text[1..]) == s[i + 1..];
    EncodeAllIs(text[1..]);
    WellFormedStart(s[i + 1..]);
  }

  /** A parameter and `=`, as text. */
  ghost predicate IsQueryToken(token: seq<Byte>) {
    token != [] && WellFormed(token) && token[|token| - 1] == EQUALS
  }

  lemma TokenBoundaries(text: seq<Byte>, start: nat, token: seq<Byte>)
    requires WellFormed(text) && IsQueryToken(token) && At(text, start, token)
    ensures Boundary(text, start) && Boundary(text, start + |token|)
  {
    TokenBytes(text, start, token, 0);
    TokenBytes(text, start, token, |token| - 1);
    WellFormedStart(token);
    AfterAscii(text, start + |token| - 1);
  }

  /** `text[a..b]` of a string, which fails off a character boundary. */
  function Slice(text: seq<Byte>, a: nat, b: nat): (r: seq<Byte>)
    requires a <= b <= |text| && Boundary(text, a) && Boundary(text, b)
  {
    text[a..b]
  }

  lemma SliceWellFormed(text: seq<Byte>, a: nat, b: nat)
    requires WellFormed(text) && a <= b <= |text| && Boundary(text, a) && Boundary(text, b)
    ensures WellFormed(text[a..b])
  {
    WellFormedSplits(text, b);
    WellFormedSplits(text[..b], a);
    assert text[..b][a..] == text[a..b];
  }

  lemma WellFormedHidden(token: seq<Byte>, marker: seq<Byte>, redacted: seq<Byte>)
    requires WellFormed(token) && WellFormed(marker) && WellFormed(redacted)
    ensures WellFormed(redacted + token + marker)
  {
    WellFormedAppend(redacted, token);
    WellFormedAppend(redacted + token, marker);
  }

  lemma WellFormedCopied(text: seq<Byte>, a: nat, b: nat, redacted: seq<Byte>)
    requires WellFormed(text) && WellFormed(redacted) && a <= b <= |text| && Boundary(text, a) && Boundary(text, b)
    ensures WellFormed(redacted + Slice(text, a, b))
  {
    SliceWellFormed(text, a, b);
    WellFormedAppend(redacted, text[a..b]);
  }

  lemma NothingStartsInside(token: seq<Byte>, text: seq<Byte>, start: nat)
    requires IsToken(token) && At(text, start, token) && InName(text, start)
    ensures forall i: nat | start <= i < start + |token| :: !Starts(token, text, i)
  {
    forall i: nat | start < i < start + |token| ensures !At(text, i, token) {
      NoOverlap(text, start, i, token);
    }
  }

  /** What has been written, followed by the redaction of the rest of the text,
      is the answer. */
  ghost predicate Progress(text: seq<Byte>, rest: nat -> seq<Byte>, redacted: seq<Byte>, cursor: nat) {
    && cursor <= |text| && Boundary(text, cursor) && WellFormed(redacted)
    && rest(0) == redacted + rest(cursor)
  }

  lemma CopyStep(
    token: seq<Byte>, marker: seq<Byte>, text: seq<Byte>, rest: nat -> seq<Byte>, redacted: seq<Byte>, a: nat, b: nat)
    requires WellFormed(text) && Steps(token, marker, text, rest) && Progress(text, rest, redacted, a)
    requires a <= b <= |text| && Boundary(text, b) && forall i: nat | a <= i < b :: !At(text, i, token)
    ensures Progress(text, rest, redacted + Slice(text, a, b), b)
  {
    StepsCopy(token, marker, text, rest, a, b);
    WellFormedCopied(text, a, b, redacted);
    assert redacted + (text[a..b] + rest(b)) == redacted + text[a..b] + rest(b);
  }

  lemma KeepStep(
    token: seq<Byte>, marker: seq<Byte>, text: seq<Byte>, rest: nat -> seq<Byte>, redacted: seq<Byte>,
    cursor: nat, start: nat)
    requires WellFormed(text) && IsQueryToken(token)
    requires Steps(token, marker, text, rest) && Progress(text, rest, redacted, cursor)
    requires cursor <= start && At(text, start, token) && InName(text, start)
    requires forall i: nat | cursor <= i < start :: !At(text, i, token)
    ensures start + |token| <= |text| && Boundary(text, start + |token|)
    ensures Progress(text, rest, redacted + Slice(text, cursor, start + |token|), start + |token|)
  {
    TokenBoundaries(text, start, token);
    TokenEnds(text, start, token);
    StepsCopy(token, marker, text, rest, cursor, start);
    assert Replaces(token, rest, start, start + |token|);
    WellFormedCopied(text, cursor, start + |token|, redacted);
    assert text[cursor..start + |token|] == text[cursor..start] + token;
    Reassociate(redacted, text[cursor..start], token, rest(start + |token|));
  }

  lemma Reassociate(a: seq<Byte>, b: seq<Byte>, c: seq<Byte>, d: seq<Byte>)
    ensures a + (b + (c + d)) == a + (b + c) + d
  {
  }

  lemma HideStep(
    token: seq<Byte>, marker: seq<Byte>, text: seq<Byte>, rest: nat -> seq<Byte>, redacted: seq<Byte>,
    start: nat, end: nat)
    requires WellFormed(marker) && IsQueryToken(token)
    requires Steps(token, marker, text, rest) && Progress(text, rest, redacted, start)
    requires Starts(token, text, start) && Span(text, start + |token|, end) && Boundary(text, end)
    ensures Progress(text, rest, redacted + token + marker, end)
  {
    WellFormedHidden(token, marker, redacted);
    assert Replaces(token + marker, rest, start, end);
    assert redacted + (token + marker + rest(end)) == redacted + token + marker + rest(end);
  }

  /** For every parameter and replacement, every slice is on character
      boundaries, so the output is text again. */
  method RedactQueryParam(text: seq<Byte>, param: seq<Byte>, replacement: seq<Byte>) returns (redacted: seq<Byte>)
    requires WellFormed(text) && WellFormed(param) && WellFormed(replacement)
    ensures redacted == ByToken(param + [EQUALS], replacement, text, 0)
    ensures IsToken(param + [EQUALS]) ==> redacted == Redact(param + [EQUALS], replacement, false, text)
    ensures WellFormed(redacted)
  {
    var token := param + [EQUALS];
    AsciiWellFormed([EQUALS]);
    WellFormedAppend(param, [EQUALS]);
    ghost var rest := ByPosition(token, replacement, text);
    redacted := ReplaceValues(text, token, replacement, rest);
    if IsToken(token) {
      ByTokenIsRedact(token, replacement, text);
    }
  }

  method ReplaceValues(text: seq<Byte>, token: seq<Byte>, replacement: seq<Byte>, ghost rest: nat -> seq<Byte>)
    returns (redacted: seq<Byte>)
    requires WellFormed(text) && WellFormed(replacement) && IsQueryToken(token)
    requires Steps(token, replacement, text, rest)
    ensures redacted == rest(0) && WellFormed(redacted)
  {
    redacted := [];
    var cursor := 0;
    EmptyWellFormed();
    while true
      invariant Progress(text, rest, redacted, cursor)
      decreases |text| - cursor
    {
      var found := Find(text, cursor, token);
      if found.None? {
        break;
      }
      var start := found.value;
      if InName(text, start) {
        KeepStep(token, replacement, text, rest, redacted, cursor, start);
        var keepUntil := start + |token|;
        redacted := redacted + Slice(text, cursor, keepUntil);
        cursor := keepUntil;
        continue;
      }
      TokenBoundaries(text, start, token);
      TokenEnds(text, start, token);
      CopyStep(token, replacement, text, rest, redacted, cursor, start);
      redacted := redacted + Slice(text, cursor, start);
      var valueEnd := SkipValue(text, start + |token|);
      HideStep(token, replacement, text, rest, redacted, start, valueEnd);
      redacted := redacted + token + replacement;
      cursor := valueEnd;
    }
    CopyStep(token, replacement, text, rest, redacted, cursor, |text|);
    redacted := redacted + Slice(text, cursor, |text|);
  }

  method SkipValue(text: seq<Byte>, start: nat) returns (valueEnd: nat)
    requires start <= |text|
    ensures Span(text, start, valueEnd) && Boundary(text, valueEnd)
  {
    valueEnd := start;
    while valueEnd < |text| && !IsDelimiter(text[valueEnd])
      invariant start <= valueEnd <= |text|
      invariant forall i | start <= i < valueEnd :: !IsDelimiter(text[i])
    {
      valueEnd := valueEnd + 1;
    }
  }

  const KEY: seq<Byte> := [0x6B, 0x65, 0x79]

  /** "<redacted>" */
  const REDACTED: seq<Byte> := [0x3C, 0x72, 0x65, 0x64, 0x61, 0x63, 0x74, 0x65, 0x64, 0x3E]

  lemma {:induction false} AsciiWellFormed(s: seq<Byte>)
    requires forall i | 0 <= i < |s| :: s[i] < 0x80
    ensures WellFormed(s)
  {
    EmptyWellFormed();
    if s != [] {
      AsciiWellFormed(s[1..]);
      EncodeAllIs([s[0]]);
      assert EncodeAll([s[0]]) == [s[0]];
      WellFormedAppend([s[0]], s[1..]);
      assert s == [s[0]] + s[1..];
    }
  }

  method RedactApiKeyQueryParams(text: seq<Byte>) returns (redacted: seq<Byte>)
    requires WellFormed(text)
    ensures WellFormed(redacted) && redacted == Redact(KEY + [EQUALS], REDACTED, false, text)
    ensures Hidden(KEY + [EQUALS], REDACTED, false, redacted)
  {
    AsciiWellFormed(KEY);
    AsciiWellFormed(REDACTED);
    redacted := RedactQueryParam(text, KEY, REDACTED);
    RedactHides(KEY + [EQUALS], REDACTED, false, text);
  }

  // ----- redacting twice -----

  /** A marker that is read back as a value and one delimiter. */
  predicate EndsInDelimiter(marker: seq<Byte>) {
    marker != [] && DelimiterFree(marker[..|marker| - 1]) && IsDelimiter(marker[|marker| - 1])
  }

  /** How many values are replaced. */
  function Secrets(token: seq<Byte>, inName: bool, s: seq<Byte>): nat
    decreases |s|
  {
    if s == [] then 0
    else if token != [] && token <= s && !inName then
      var rest := s[|token|..];
      1 + Secrets(token, false, rest[ValueEnd(rest)..])
    else Secrets(token, IsNameByte(s[0]), s[1..])
  }

  lemma MarkerAgain(token: seq<Byte>, marker: seq<Byte>, out: seq<Byte>)
    requires IsToken(token) && EndsInDelimiter(marker)
    ensures Redact(token, marker, false, token + marker + out)
         == token + marker + ([marker[|marker| - 1]] + Redact(token, marker, false, out))
  {
    var n := |marker| - 1;
    var post := [marker[n]] + out;
    assert token + marker + out == token + (marker[..n] + post);
    RedactFront(token, marker, marker[..n], post);
    assert token[0] != post[0] && post[1..] == out;
  }

  /** A second redaction lengthens the text by one byte for each secret. */
  lemma {:induction false} SecondTimeGrows(token: seq<Byte>, marker: seq<Byte>, inName: bool, s: seq<Byte>)
    requires IsToken(token) && EndsInDelimiter(marker)
    ensures var out := Redact(token, marker, inName, s);
            |Redact(token, marker, inName, out)| == |out| + Secrets(token, inName, s)
    decreases |s|
  {
    if s == [] {
    } else if token <= s && !inName {
      var rest := s[|token|..];
      var later := rest[ValueEnd(rest)..];
      SecondTimeGrows(token, marker, false, later);
      MarkerAgain(token, marker, Redact(token, marker, false, later));
    } else {
      SecondTimeGrows(token, marker, IsNameByte(s[0]), s[1..]);
      var tail := Redact(token, marker, IsNameByte(s[0]), s[1..]);
      var out := [s[0]] + tail;
      assert out[1..] == tail;
      if token <= out {
        TokenWasThere(token, marker, s);
      }
    }
  }

  lemma {:induction false} NoSecretsNoChange(token: seq<Byte>, marker: seq<Byte>, inName: bool, s: seq<Byte>)
    requires Secrets(token, inName, s) == 0
    ensures Redact(token, marker, inName, s) == s
    decreases |s|
  {
    if s != [] {
      NoSecretsNoChange(token, marker, IsNameByte(s[0]), s[1..]);
    }
  }

  /** Every token in `s` is the end of a longer name. */
  ghost predicate NothingToHide(token: seq<Byte>, inName: bool, s: seq<Byte>) {
    forall i: nat | At(s, i, token) :: if i == 0 then inName else InName(s, i)
  }

  lemma {:induction false} SecretsAre(token: seq<Byte>, inName: bool, s: seq<Byte>)
    requires token != []
    ensures Secrets(token, inName, s) == 0 <==> NothingToHide(token, inName, s)
    decreases |s|
  {
    if s != [] {
      assert s[0..] == s;
      if token <= s && !inName {
        assert At(s, 0, token);
      } else {
        SecretsAre(token, IsNameByte(s[0]), s[1..]);
        HideLater(token, inName, s);
      }
    }
  }

  lemma HideLater(token: seq<Byte>, inName: bool, s: seq<Byte>)
    requires token != [] && s != [] && (inName || !(token <= s))
    ensures NothingToHide(token, inName, s) <==> NothingToHide(token, IsNameByte(s[0]), s[1..])
  {
    assert s[0..] == s;
    var t := s[1..];
    forall i: nat ensures At(t, i, token) <==> At(s, i + 1, token) {
      if i <= |t| {
        assert t[i..] == s[i + 1..];
      }
    }
    if NothingToHide(token, inName, s) {
      forall i: nat | At(t, i, token) ensures if i == 0 then IsNameByte(s[0]) else InName(t, i) {
        assert At(s, i + 1, token);
      }
    }
    if NothingToHide(token, IsNameByte(s[0]), t) {
      forall i: nat | At(s, i, token) ensures if i == 0 then inName else InName(s, i) {
        if i > 0 {
          assert At(t, i - 1, token);
        }
      }
    }
  }

  /** Redacting twice is redacting once if and only if the text holds no secret:
      every token in it ends a longer name. */
  lemma TwiceIsOnceIffNothingToHide(token: seq<Byte>, marker: seq<Byte>, s: seq<Byte>)
    requires IsToken(token) && EndsInDelimiter(marker)
    ensures Redact(token, marker, false, Redact(token, marker, false, s)) == Redact(token, marker, false, s)
       <==> forall i: nat | At(s, i, token) :: InName(s, i)
  {
    SecretsAre(token, false, s);
    SecondTimeGrows(token, marker, false, s);
    if Secrets(token, false, s) == 0 {
      NoSecretsNoChange(token, marker, false, s);
    }
    if NothingToHide(token, false, s) {
      forall i: nat | At(s, i, token) ensures InName(s, i) {
      }
    }
  }

  /** For the parameter and the marker in use: "key=x" gives "key=<redacted>",
      and that gives "key=<redacted>>". */
  lemma RedactingTwiceDiffers(out: seq<Byte>)
    ensures var token := KEY + [EQUALS];
      Redact(token, REDACTED, false, token + REDACTED + out)
      == token + REDACTED + ([0x3E] + Redact(token, REDACTED, false, out))
  {
    MarkerAgain(KEY + [EQUALS], REDACTED, out);
  }

  lemma KeyRedactedTwice(text: seq<Byte>)
    ensures var token := KEY + [EQUALS];
      Redact(token, REDACTED, false, Redact(token, REDACTED, false, text)) == Redact(token, REDACTED, false, text)
      <==> forall i: nat | At(text, i, token) :: InName(text, i)
  {
    TwiceIsOnceIffNothingToHide(KEY + [EQUALS], REDACTED, text);
  }
}
