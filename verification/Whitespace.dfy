/** `char::is_whitespace` and the trims built on it. */
module Whitespace {

  /** Unicode White_Space. */
  predicate IsSpace(c: char) {
    || '\U{0009}' <= c <= '\U{000D}' || c == '\U{0020}' || c == '\U{0085}' || c == '\U{00A0}' || c == '\U{1680}'
    || '\U{2000}' <= c <= '\U{200A}' || c == '\U{2028}' || c == '\U{2029}' || c == '\U{202F}' || c == '\U{205F}'
    || c == '\U{3000}'
  }

  /** Which characters a trim removes.  What is said of trimming does not depend
      on that. */
  type Blank = char -> bool

  function DropEnd(blank: Blank, s: string): string {
    if s != [] && blank(s[|s| - 1]) then DropEnd(blank, s[..|s| - 1]) else s
  }

  function DropStart(blank: Blank, s: string): string {
    if s != [] && blank(s[0]) then DropStart(blank, s[1..]) else s
  }

  function TrimEnd(s: string): string { DropEnd(IsSpace, s) }

  function Trim(s: string): string { DropStart(IsSpace, DropEnd(IsSpace, s)) }

  predicate All(blank: Blank, s: string) { forall i | 0 <= i < |s| :: blank(s[i]) }

  predicate AllSpace(s: string) { All(IsSpace, s) }

  lemma {:induction false} DropEndSplits(blank: Blank, s: string)
    ensures var e := DropEnd(blank, s);
      && |e| <= |s| && s == e + s[|e|..] && All(blank, s[|e|..]) && (e == [] || !blank(e[|e| - 1]))
  {
    if s != [] && blank(s[|s| - 1]) {
      var t := s[..|s| - 1];
      DropEndSplits(blank, t);
      var e := DropEnd(blank, t);
      assert s[|e|..] == t[|e|..] + [s[|s| - 1]];
    }
  }

  lemma {:induction false} DropStartSplits(blank: Blank, s: string) returns (k: nat)
    ensures k <= |s| && DropStart(blank, s) == s[k..] && All(blank, s[..k])
  {
    k := 0;
    if s != [] && blank(s[0]) {
      k := DropStartSplits(blank, s[1..]);
      assert s[..k + 1] == [s[0]] + s[1..][..k];
      k := k + 1;
    }
  }

  lemma {:induction false} DropEndIgnores(blank: Blank, core: string, after: string)
    requires All(blank, after)
    ensures DropEnd(blank, core + after) == DropEnd(blank, core)
  {
    if after == [] {
      assert core + after == core;
    } else {
      assert (core + after)[..|core + after| - 1] == core + after[..|after| - 1];
      DropEndIgnores(blank, core, after[..|after| - 1]);
    }
  }

  lemma {:induction false} DropStartIgnores(blank: Blank, before: string, core: string)
    requires All(blank, before)
    ensures DropStart(blank, before + core) == DropStart(blank, core)
  {
    if before == [] {
      assert before + core == core;
    } else {
      assert (before + core)[1..] == before[1..] + core;
      DropStartIgnores(blank, before[1..], core);
    }
  }

  lemma BothDrop(blank: Blank, before: string, e: string)
    requires All(blank, before) && (e == [] || !blank(e[|e| - 1]))
    ensures DropStart(blank, DropEnd(blank, before + e)) == DropStart(blank, e)
  {
    if e == [] {
      assert before + e == [] + before;
      DropEndIgnores(blank, [], before);
    } else {
      assert (before + e)[|before + e| - 1] == e[|e| - 1];
      DropStartIgnores(blank, before, e);
    }
  }

  /** Blanks around a text do not matter to the trim. */
  lemma DropIgnores(blank: Blank, before: string, core: string, after: string)
    requires All(blank, before) && All(blank, after)
    ensures DropStart(blank, DropEnd(blank, before + core + after)) == DropStart(blank, DropEnd(blank, core))
  {
    var e := DropEnd(blank, core);
    DropEndSplits(blank, core);
    DropEndIgnores(blank, before + core, after);
    assert before + core == (before + e) + core[|e|..];
    DropEndIgnores(blank, before + e, core[|e|..]);
    BothDrop(blank, before, e);
  }

  lemma TrimIgnores(before: string, core: string, after: string)
    requires AllSpace(before) && AllSpace(after)
    ensures Trim(before + core + after) == Trim(core)
  {
    DropIgnores(IsSpace, before, core, after);
  }

  lemma TrimSplits(raw: string) returns (before: string, after: string)
    ensures raw == before + Trim(raw) + after && AllSpace(before) && AllSpace(after)
  {
    DropEndSplits(IsSpace, raw);
    var e := TrimEnd(raw);
    var k := DropStartSplits(IsSpace, e);
    before, after := e[..k], raw[|e|..];
  }

  /** The same text, but for white space at the end. */
  ghost predicate SameButEnd(l: string, r: string) {
    exists core, a, b :: l == core + a && r == core + b && AllSpace(a) && AllSpace(b)
  }

  /** The same text, but for white space around it. */
  ghost predicate SameButAround(l: string, r: string) {
    exists core, a, b, c, d ::
      l == a + core + b && r == c + core + d && AllSpace(a) && AllSpace(b) && AllSpace(c) && AllSpace(d)
  }

  lemma TrimEndMeans(l: string, r: string)
    ensures TrimEnd(l) == TrimEnd(r) <==> SameButEnd(l, r)
  {
    if SameButEnd(l, r) {
      var core, a, b :| l == core + a && r == core + b && AllSpace(a) && AllSpace(b);
      DropEndIgnores(IsSpace, core, a);
      DropEndIgnores(IsSpace, core, b);
    }
    if TrimEnd(l) == TrimEnd(r) {
      DropEndSplits(IsSpace, l);
      DropEndSplits(IsSpace, r);
    }
  }

  lemma TrimMeans(l: string, r: string)
    ensures Trim(l) == Trim(r) <==> SameButAround(l, r)
  {
    if SameButAround(l, r) {
      var core, a, b, c, d :|
        l == a + core + b && r == c + core + d && AllSpace(a) && AllSpace(b) && AllSpace(c) && AllSpace(d);
      TrimIgnores(a, core, b);
      TrimIgnores(c, core, d);
    }
    if Trim(l) == Trim(r) {
      var a, b := TrimSplits(l);
      var c, d := TrimSplits(r);
      assert l == a + Trim(l) + b && r == c + Trim(l) + d;
    }
  }
}
