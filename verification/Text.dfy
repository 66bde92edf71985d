/** Strings as the Go standard library sees them: substring search and white-space trimming.

    Text that reaches this code was decoded from JSON, so it is valid UTF-8 and every cut the
    code makes falls between code points; a `string` of Unicode scalar values represents it. */
module Text {

  /** Go's `unicode.IsSpace`. */
  predicate IsSpace(c: char) {
    c in "\t\n\U{B}\U{C}\r " || c == '\U{85}' || c == '\U{A0}' || c == '\U{1680}' || '\U{2000}' <= c <= '\U{200A}'
    || c == '\U{2028}' || c == '\U{2029}' || c == '\U{202F}' || c == '\U{205F}' || c == '\U{3000}'
  }

  predicate Blank(s: string) {
    forall k :: 0 <= k < |s| ==> IsSpace(s[k])
  }

  // ---------------------------------------------------------------- substring search

  predicate OccursAt(s: string, m: string, i: int) {
    0 <= i && i + |m| <= |s| && s[i..i + |m|] == m
  }

  function IndexFrom(s: string, m: string, from: nat): (r: int)
    requires from <= |s|
    ensures r == -1 || (from <= r && OccursAt(s, m, r))
    ensures forall k :: from <= k && (r < 0 || k < r) ==> !OccursAt(s, m, k)
    decreases |s| - from
  {
    if OccursAt(s, m, from) then from
    else if from == |s| then -1
    else IndexFrom(s, m, from + 1)
  }

  /** Go's `strings.Index`: the first occurrence, or -1. */
  function Index(s: string, m: string): (r: int)
    ensures r == -1 || OccursAt(s, m, r)
    ensures forall k :: 0 <= k && (r < 0 || k < r) ==> !OccursAt(s, m, k)
  {
    IndexFrom(s, m, 0)
  }

  lemma IndexBounds(s: string, m: string)
    ensures Index(s, m) == -1 || 0 <= Index(s, m) <= |s| - |m|
  {
    hide Index;
  }

  /** The two clauses of `Index` determine its result. */
  lemma {:induction false} IndexUnique(s: string, m: string, r: int)
    requires r == -1 || OccursAt(s, m, r)
    requires forall k :: 0 <= k && (r < 0 || k < r) ==> !OccursAt(s, m, k)
    ensures Index(s, m) == r
  {
  }

  lemma {:induction false} OccursInPrefix(a: string, b: string, m: string, k: int)
    requires 0 <= k && k + |m| <= |a|
    ensures OccursAt(a + b, m, k) == OccursAt(a, m, k)
  {
    assert (a + b)[k..k + |m|] == a[k..k + |m|];
  }

  lemma {:induction false} OccursInSuffix(a: string, b: string, m: string, k: int)
    requires |a| <= k
    ensures OccursAt(a + b, m, k) == OccursAt(b, m, k - |a|)
  {
    if k + |m| <= |a + b| {
      assert (a + b)[k..k + |m|] == b[k - |a|..k - |a| + |m|];
    }
  }

  /** An occurrence that is already complete stays the first one when more text arrives. */
  lemma {:induction false} IndexStable(a: string, b: string, m: string)
    requires Index(a, m) >= 0
    ensures Index(a + b, m) == Index(a, m)
  {
    var r := Index(a, m);
    forall k | 0 <= k <= r
      ensures OccursAt(a + b, m, k) == OccursAt(a, m, k)
    {
      OccursInPrefix(a, b, m, k);
    }
    IndexUnique(a + b, m, r);
  }

  // ---------------------------------------------------------------- trimming

  predicate Trimmed(s: string) {
    s == "" || (!IsSpace(s[0]) && !IsSpace(s[|s| - 1]))
  }

  function TrimLeft(s: string): (t: string)
    ensures |t| <= |s| && t == s[|s| - |t|..] && Blank(s[..|s| - |t|])
    ensures t == "" || !IsSpace(t[0])
  {
    if s == "" || !IsSpace(s[0]) then s else
      var t := TrimLeft(s[1..]);
      assert forall k :: 1 <= k < |s| - |t| ==> s[k] == s[1..][..|s| - 1 - |t|][k - 1];
      t
  }

  function TrimRight(s: string): (t: string)
    ensures t <= s && Blank(s[|t|..])
    ensures t == "" || !IsSpace(t[|t| - 1])
  {
    if s == "" || !IsSpace(s[|s| - 1]) then s else
      var t := TrimRight(s[..|s| - 1]);
      assert forall k :: 0 <= k < |s| - 1 - |t| ==> s[|t|..][k] == s[..|s| - 1][|t|..][k];
      t
  }

  /** Go's `strings.TrimSpace`. */
  function TrimSpace(s: string): (t: string)
    ensures Trimmed(t)
  {
    TrimRight(TrimLeft(s))
  }

  lemma {:induction false} TrimLeftIs(lead: string, rest: string)
    requires Blank(lead)
    requires rest == "" || !IsSpace(rest[0])
    ensures TrimLeft(lead + rest) == rest
  {
    if lead == "" {
      assert lead + rest == rest;
    } else {
      assert (lead + rest)[1..] == lead[1..] + rest;
      TrimLeftIs(lead[1..], rest);
    }
  }

  /** Trimming the right end never eats a core that ends in a non-blank, and stops exactly
      at the core when everything after it is blank. */
  lemma {:induction false} TrimRightKeeps(core: string, more: string)
    requires core != "" && !IsSpace(core[|core| - 1])
    ensures core <= TrimRight(core + more)
    ensures TrimRight(core + more) == core <==> Blank(more)
  {
    var s := core + more;
    if more == "" {
      assert s == core;
    } else {
      var last := more[|more| - 1];
      assert s[|s| - 1] == last;
      if IsSpace(last) {
        var less := more[..|more| - 1];
        assert s[..|s| - 1] == core + less;
        TrimRightKeeps(core, less);
        assert more == less + [last];
        assert Blank(more) <==> Blank(less);
      }
    }
  }

  /** What trimming means: only white space is cut off, and the cut is unique. */
  lemma {:induction false} TrimIs(lead: string, core: string, trail: string)
    requires Blank(lead) && Blank(trail)
    requires Trimmed(core)
    ensures TrimSpace(lead + core + trail) == core
  {
    if core == "" {
      assert lead + core + trail == (lead + trail) + "";
      TrimLeftIs(lead + trail, "");
    } else {
      assert lead + core + trail == lead + (core + trail);
      TrimLeftIs(lead, core + trail);
      TrimRightKeeps(core, trail);
    }
  }

  lemma {:induction false} TrimParts(s: string) returns (lead: string, trail: string)
    ensures s == lead + TrimSpace(s) + trail && Blank(lead) && Blank(trail)
  {
    hide TrimLeft, TrimRight;
    var l := TrimLeft(s);
    var core := TrimRight(l);
    lead, trail := s[..|s| - |l|], l[|core|..];
    assert l == core + trail && s == lead + l;
    assert lead + (core + trail) == lead + core + trail;
  }

  lemma {:induction false} BlankIffTrimsAway(s: string)
    ensures Blank(s) <==> TrimSpace(s) == ""
  {
    var lead, trail := TrimParts(s);
    if Blank(s) {
      TrimIs(s, "", "");
      assert s + "" + "" == s;
    }
  }

  /** Trimming keeps the prefix order: cutting white space off two cumulative frames
      leaves two cumulative frames. */
  lemma {:induction false} TrimMonotone(a: string, b: string)
    requires a <= b
    ensures TrimSpace(a) <= TrimSpace(b)
  {
    hide TrimSpace;
    var lead, trail := TrimParts(a);
    var head, rest := lead + TrimSpace(a), b[|a|..];
    assert b == a + rest;
    assert (head + trail) + rest == head + (trail + rest);
    TrimOfMore(lead, TrimSpace(a), trail + rest);
  }

  lemma {:induction false} TrimOfMore(lead: string, core: string, more: string)
    requires Blank(lead) && Trimmed(core)
    ensures core <= TrimSpace(lead + core + more)
  {
    if core != "" {
      assert lead + core + more == lead + (core + more);
      TrimLeftIs(lead, core + more);
      TrimRightKeeps(core, more);
    }
  }

  lemma {:induction false} TrimTwice(s: string)
    ensures TrimSpace(TrimSpace(s)) == TrimSpace(s)
  {
    var t := TrimSpace(s);
    TrimIs("", t, "");
    assert "" + t + "" == t;
  }

  // ---------------------------------------------------------------- letter case

  /** Go's `strings.ToLower`, exact wherever the result is an ASCII letter: besides A to Z, the
      Kelvin sign and the dotted capital I map to one. Other letters are left alone. */
  function LowerChar(c: char): char {
    if 'A' <= c <= 'Z' then c - 'A' + 'a'
    else if c == '\U{212A}' then 'k'
    else if c == '\U{130}' then 'i'
    else c
  }

  function ToLower(s: string): (r: string)
    ensures |r| == |s|
  {
    seq(|s|, i requires 0 <= i < |s| => LowerChar(s[i]))
  }

  // ---------------------------------------------------------------- pieces

  function Flatten(parts: seq<string>): string {
    if parts == [] then "" else parts[0] + Flatten(parts[1..])
  }

  lemma {:induction false} FlattenAppend(a: seq<string>, b: seq<string>)
    ensures Flatten(a + b) == Flatten(a) + Flatten(b)
  {
    if a == [] {
      assert a + b == b;
    } else {
      FlattenAppend(a[1..], b);
      assert (a + b)[1..] == a[1..] + b && (a + b)[0] == a[0];
      assert a[0] + (Flatten(a[1..]) + Flatten(b)) == (a[0] + Flatten(a[1..])) + Flatten(b);
    }
  }
}
