/** Cookie strings (`cookie_pool.go`): taking "k=v; k=v" apart, merging `Set-Cookie` headers
    into it, and the part of it that says whose account it is. */
module CookieJar {
  import opened Options
  import opened Text

  datatype Pair = Pair(name: string, value: string)

  /** Position of the first `c`, or -1. */
  function Find(s: string, c: char): (i: int)
    ensures -1 <= i < |s|
    ensures i >= 0 ==> s[i] == c
    ensures forall k :: 0 <= k < (if i < 0 then |s| else i) ==> s[k] != c
  {
    if s == "" then -1
    else if s[0] == c then 0
    else
      var i := Find(s[1..], c);
      assert forall k :: 1 <= k < |s| ==> s[k] == s[1..][k - 1];
      if i < 0 then -1 else i + 1
  }

  lemma {:induction false} FindIs(a: string, c: char, b: string)
    requires c !in a
    ensures Find(a + [c] + b, c) == |a|
  {
    var s := a + [c] + b;
    assert s[|a|] == c;
    assert forall k :: 0 <= k < |a| ==> s[k] == a[k];
  }

  lemma {:induction false} FindNone(a: string, c: char)
    requires c !in a
    ensures Find(a, c) == -1
  {
  }

  /** Go's `strings.Split(s, ";")`. */
  function Pieces(s: string): seq<string>
    decreases |s|
  {
    var i := Find(s, ';');
    if i < 0 then [s] else [s[..i]] + Pieces(s[i + 1..])
  }

  /** The name and value in one piece, if it has an equals sign behind a name. */
  function PairOf(piece: string): Option<Pair> {
    var p := TrimSpace(piece);
    var i := Find(p, '=');
    if i > 0 then Some(Pair(p[..i], p[i + 1..])) else None
  }

  function PairIn(piece: string): seq<Pair> {
    match PairOf(piece)
    case None => []
    case Some(p) => [p]
  }

  function PairsOf(pieces: seq<string>): seq<Pair>
    decreases |pieces|
  {
    if pieces == [] then [] else PairIn(pieces[0]) + PairsOf(pieces[1..])
  }

  function Pairs(cookie: string): seq<Pair> {
    PairsOf(Pieces(cookie))
  }

  /** The pieces with semicolons between them. */
  function Joint(pieces: seq<string>): string
    requires pieces != []
  {
    if |pieces| == 1 then pieces[0] else pieces[0] + ";" + Joint(pieces[1..])
  }

  /** `pieces` is what lies between the semicolons of `s`. */
  ghost predicate IsCut(s: string, pieces: seq<string>) {
    pieces != [] && Joint(pieces) == s && forall i :: 0 <= i < |pieces| ==> ';' !in pieces[i]
  }

  lemma {:induction false} PiecesAreCut(s: string)
    ensures IsCut(s, Pieces(s))
    decreases |s|
  {
    var i := Find(s, ';');
    if i >= 0 {
      var tail := Pieces(s[i + 1..]);
      PiecesAreCut(s[i + 1..]);
      assert ([s[..i]] + tail)[1..] == tail;
      assert s == s[..i] + ";" + s[i + 1..];
    }
  }

  /** Apart from space around it, the piece is a name that is not empty, an equals sign, and a value. */
  ghost predicate IsPair(piece: string, p: Pair) {
    p.name != "" && '=' !in p.name && TrimSpace(piece) == p.name + "=" + p.value
  }

  lemma {:induction false} PairIs(piece: string, p: Pair)
    ensures PairOf(piece) == Some(p) <==> IsPair(piece, p)
  {
    hide TrimSpace;
    if IsPair(piece, p) {
      assert p.name + "=" + p.value == p.name + ['='] + p.value;
      FindIs(p.name, '=', p.value);
      assert TrimSpace(piece)[..|p.name|] == p.name && TrimSpace(piece)[|p.name| + 1..] == p.value;
    } else {
      var t := TrimSpace(piece);
      var i := Find(t, '=');
      if i > 0 {
        assert t == t[..i] + "=" + t[i + 1..];
      }
    }
  }

  /** The pairs are those of the pieces at these positions, and no other piece holds one. */
  ghost predicate ArePairs(pieces: seq<string>, at: seq<int>, pairs: seq<Pair>) {
    && |at| == |pairs| && (forall i, j :: 0 <= i < j < |at| ==> at[i] < at[j])
    && (forall i :: 0 <= i < |at| ==> 0 <= at[i] < |pieces| && IsPair(pieces[at[i]], pairs[i]))
    && (forall j :: 0 <= j < |pieces| && j !in at ==> HoldsNone(pieces[j]))
  }

  ghost predicate HoldsNone(piece: string) {
    forall p :: !IsPair(piece, p)
  }

  lemma OneMorePair(pieces: seq<string>, at: seq<int>, pairs: seq<Pair>, piece: string) returns (more: seq<int>)
    requires ArePairs(pieces, at, pairs)
    ensures ArePairs(pieces + [piece], more, pairs + PairIn(piece))
  {
    hide PairOf, IsPair;
    var all := pieces + [piece];
    assert forall j :: 0 <= j < |pieces| ==> all[j] == pieces[j];
    match PairOf(piece)
    case None =>
      forall p
        ensures !IsPair(piece, p)
      {
        PairIs(piece, p);
      }
      more := at;
      assert pairs + PairIn(piece) == pairs;
    case Some(p) =>
      PairIs(piece, p);
      more := at + [|pieces|];
      assert forall j :: j in at ==> j in more;
      assert more[|at|] == |pieces|;
  }

  ghost predicate IsSplit(cookie: string, pairs: seq<Pair>) {
    exists pieces, at :: IsCut(cookie, pieces) && ArePairs(pieces, at, pairs)
  }

  /** `splitCookiePairs`. */
  method SplitCookiePairs(cookie: string) returns (out: seq<Pair>)
    ensures out == Pairs(cookie) && IsSplit(cookie, out)
  {
    hide IsCut, ArePairs;
    out := [];
    ghost var at: seq<int> := [];
    NoPairsYet();
    PiecesAreCut(cookie);
    var pieces := Pieces(cookie);
    hide PairOf, Pieces, PairsOf;
    PairsOfNothing();
    for i := 0 to |pieces|
      invariant out == PairsOf(pieces[..i]) && ArePairs(pieces[..i], at, out)
    {
      at := OneMorePair(pieces[..i], at, out, pieces[i]);
      PairsOfSnoc(pieces[..i], pieces[i]);
      assert pieces[..i + 1] == pieces[..i] + [pieces[i]];
      match PairOf(pieces[i])
      case None =>
        assert out + [] == out;
      case Some(p) =>
        out := out + [p];
    }
    assert pieces[..|pieces|] == pieces;
  }

  lemma NoPairsYet()
    ensures ArePairs([], [], [])
  {
  }

  lemma {:induction false} PairsOfNothing()
    ensures PairsOf([]) == []
  {
  }

  lemma {:induction false} PairsOfCons(piece: string, pieces: seq<string>)
    ensures PairsOf([piece] + pieces) == PairIn(piece) + PairsOf(pieces)
  {
    hide PairIn;
    assert ([piece] + pieces)[1..] == pieces;
  }

  lemma {:induction false} PairsOfSnoc(pieces: seq<string>, piece: string)
    ensures PairsOf(pieces + [piece]) == PairsOf(pieces) + PairIn(piece)
    decreases |pieces|
  {
    hide PairIn;
    if pieces == [] {
      assert [] + [piece] == [piece] + [];
      PairsOfCons(piece, []);
      assert [] + PairIn(piece) == PairIn(piece) + [];
    } else {
      PairsOfSnoc(pieces[1..], piece);
      assert pieces + [piece] == [pieces[0]] + (pieces[1..] + [piece]);
      PairsOfCons(pieces[0], pieces[1..] + [piece]);
      assert (PairIn(pieces[0]) + PairsOf(pieces[1..])) + PairIn(piece)
          == PairIn(pieces[0]) + (PairsOf(pieces[1..]) + PairIn(piece));
    }
  }

  // ---------------------------------------------------------------- taking apart and putting together

  /** A pair that survives being written into a cookie string and read back. */
  ghost predicate Writable(p: Pair) {
    && p.name != "" && '=' !in p.name && ';' !in p.name && ';' !in p.value
    && Trimmed(Written(p))
  }

  function Written(p: Pair): string {
    p.name + "=" + p.value
  }

  /** `strings.Join(parts, "; ")` over the pairs. */
  function Render(pairs: seq<Pair>): string {
    if pairs == [] then ""
    else if |pairs| == 1 then Written(pairs[0])
    else Written(pairs[0]) + "; " + Render(pairs[1..])
  }

  lemma {:induction false} ReadBackOne(p: Pair, lead: string)
    requires Writable(p) && Blank(lead)
    ensures PairOf(lead + Written(p)) == Some(p)
  {
    hide TrimSpace, Find;
    TrimIs(lead, Written(p), "");
    assert lead + Written(p) + "" == lead + Written(p);
    var w := p.name + ['='] + p.value;
    assert Written(p) == w;
    FindIs(p.name, '=', p.value);
    assert w[..|p.name|] == p.name && w[|p.name| + 1..] == p.value;
  }

  lemma {:induction false} PairWritable(piece: string)
    requires ';' !in piece && PairOf(piece).Some?
    ensures Writable(PairOf(piece).value)
  {
    hide TrimSpace, Find;
    var p := TrimSpace(piece);
    var lead, trail := TrimParts(piece);
    assert forall k :: 0 <= k < |p| ==> p[k] == piece[|lead| + k];
    var i := Find(p, '=');
    assert p[..i] + "=" + p[i + 1..] == p;
  }

  lemma {:induction false} PiecesClean(s: string)
    ensures forall k :: 0 <= k < |Pieces(s)| ==> ';' !in Pieces(s)[k]
    decreases |s|
  {
    var i := Find(s, ';');
    if i >= 0 {
      PiecesClean(s[i + 1..]);
    }
  }

  lemma {:induction false} PairsWritableIn(pieces: seq<string>)
    requires forall k :: 0 <= k < |pieces| ==> ';' !in pieces[k]
    ensures AllWritable(PairsOf(pieces))
    decreases |pieces|
  {
    hide PairOf, Writable;
    if pieces != [] {
      PairsWritableIn(pieces[1..]);
      if PairOf(pieces[0]).Some? {
        PairWritable(pieces[0]);
      }
    }
  }

  lemma {:induction false} PairsWritable(cookie: string)
    ensures AllWritable(Pairs(cookie))
  {
    PiecesClean(cookie);
    PairsWritableIn(Pieces(cookie));
  }

  ghost predicate AllWritable(pairs: seq<Pair>) {
    forall k :: 0 <= k < |pairs| ==> Writable(pairs[k])
  }

  lemma {:induction false} PiecesCut(a: string, b: string)
    requires ';' !in a
    ensures Pieces(a + ";" + b) == [a] + Pieces(b)
  {
    var s := a + [';'] + b;
    assert s == a + ";" + b;
    FindIs(a, ';', b);
    assert s[..|a|] == a && s[|a| + 1..] == b;
  }

  /** Reading a written cookie string gives the pairs back, in order, whatever white space
      stands in front of it. */
  lemma {:induction false} ReadBack(pairs: seq<Pair>, lead: string)
    requires AllWritable(pairs) && Blank(lead) && ';' !in lead
    ensures Pairs(lead + Render(pairs)) == pairs
    decreases |pairs|
  {
    hide TrimSpace, Pieces, Find, PairOf, PairsOf, Writable;
    if pairs == [] {
      assert lead + Render(pairs) == lead;
      OnePiece(lead);
      BlankHasNoPair(lead);
    } else {
      var p, rest := pairs[0], pairs[1..];
      var first := lead + Written(p);
      NoSemicolon(p, lead);
      ReadBackOne(p, lead);
      if |pairs| == 1 {
        assert lead + Render(pairs) == first;
        OnePiece(first);
      } else {
        RenderCut(pairs, lead);
        PiecesCut(first, " " + Render(rest));
        ReadBack(rest, " ");
        PairsOfCons(first, Pieces(" " + Render(rest)));
      }
      assert pairs == [p] + rest;
    }
  }

  lemma {:induction false} NoSemicolon(p: Pair, lead: string)
    requires Writable(p) && ';' !in lead
    ensures ';' !in lead + Written(p)
  {
  }

  lemma {:induction false} OnePiece(s: string)
    requires ';' !in s
    ensures Pieces(s) == [s] && PairsOf(Pieces(s)) == PairIn(s)
  {
    hide PairIn;
    FindNone(s, ';');
    assert [s] == [s] + [];
    PairsOfCons(s, []);
    assert PairIn(s) + [] == PairIn(s);
  }

  lemma {:induction false} BlankHasNoPair(s: string)
    requires Blank(s)
    ensures PairIn(s) == []
  {
    hide TrimSpace;
    BlankIffTrimsAway(s);
  }

  lemma {:induction false} RenderCut(pairs: seq<Pair>, lead: string)
    requires |pairs| > 1
    ensures lead + Render(pairs) == (lead + Written(pairs[0])) + ";" + (" " + Render(pairs[1..]))
  {
    var w, r := Written(pairs[0]), Render(pairs[1..]);
    hide Written, Render;
    assert w + "; " + r == w + ";" + (" " + r);
    assert lead + (w + ";" + (" " + r)) == (lead + w) + ";" + (" " + r);
  }

  // ---------------------------------------------------------------- reading one cookie

  function FirstValue(pairs: seq<Pair>, name: string): string
    decreases |pairs|
  {
    if pairs == [] then ""
    else if pairs[0].name == name then pairs[0].value
    else FirstValue(pairs[1..], name)
  }

  /** `cookieValue`: the first value of that name. */
  function CookieValue(cookie: string, name: string): string {
    FirstValue(Pairs(cookie), name)
  }

  function LastValue(pairs: seq<Pair>, name: string): string
    decreases |pairs|
  {
    if pairs == [] then ""
    else if pairs[|pairs| - 1].name == name then pairs[|pairs| - 1].value
    else LastValue(pairs[..|pairs| - 1], name)
  }

  function Names(pairs: seq<Pair>): seq<string> {
    seq(|pairs|, i requires 0 <= i < |pairs| => pairs[i].name)
  }

  // ---------------------------------------------------------------- Set-Cookie headers

  const EXPIRED: string := "expires=thu, 01 jan 1970"

  /** What one `Set-Cookie` header asks for; nothing when it is malformed or a deletion. */
  function UpdateOf(header: string): Option<Pair> {
    match PairOf(Pieces(header)[0])
    case None => None
    case Some(p) => if p.value == "" && Index(ToLower(header), EXPIRED) >= 0 then None else Some(p)
  }

  /** The effective updates: for each name, the last one that is not a deletion. */
  function Updates(headers: seq<string>): map<string, string>
    decreases |headers|
  {
    if headers == [] then map[]
    else
      var before := Updates(headers[..|headers| - 1]);
      match UpdateOf(headers[|headers| - 1])
      case None => before
      case Some(p) => before[p.name := p.value]
  }

  /** The header's part before the first semicolon is that pair, and it is not a deletion: one with an
      empty value that expired long ago. */
  ghost predicate Sets(header: string, p: Pair) {
    && (exists head: string :: IsHead(header, head) && IsPair(head, p))
    && !(p.value == "" && exists i :: OccursAt(ToLower(header), "expires=thu, 01 jan 1970", i))
  }

  ghost predicate IsHead(header: string, head: string) {
    head <= header && ';' !in head && (|head| < |header| ==> header[|head|] == ';')
  }

  lemma {:induction false} FirstPieceIsHead(header: string, head: string)
    ensures IsHead(header, head) <==> head == Pieces(header)[0]
  {
    var first := Pieces(header)[0];
    var i := Find(header, ';');
    assert first == if i < 0 then header else header[..i];
    if IsHead(header, head) {
      assert |head| < |header| ==> |head| == |first|;
    }
  }

  lemma {:induction false} UpdateIs(header: string, p: Pair)
    ensures UpdateOf(header) == Some(p) <==> Sets(header, p)
  {
    hide Pieces, PairOf, IsPair, IsHead, ToLower, OccursAt, Index;
    FirstPieceClean(header);
    var first := Pieces(header)[0];
    forall head
      ensures IsHead(header, head) <==> head == first
    {
      FirstPieceIsHead(header, head);
    }
    PairIs(first, p);
    var i := Index(ToLower(header), EXPIRED);
    IndexBounds(ToLower(header), EXPIRED);
    OccursFromZero(ToLower(header), EXPIRED);
  }

  lemma OccursFromZero(s: string, m: string)
    ensures forall k :: OccursAt(s, m, k) ==> 0 <= k
  {
  }

  /** The last header that sets a name counts. */
  ghost predicate IsLastSet(headers: seq<string>, k: int, p: Pair) {
    && 0 <= k < |headers| && Sets(headers[k], p)
    && forall j, q :: k < j < |headers| && Sets(headers[j], q) ==> q.name != p.name
  }

  lemma {:induction false} UpdatesAre(headers: seq<string>, name: string)
    ensures name in Updates(headers) ==> exists k :: IsLastSet(headers, k, Pair(name, Updates(headers)[name]))
    ensures name !in Updates(headers) ==> forall j, q :: 0 <= j < |headers| && Sets(headers[j], q) ==> q.name != name
    decreases |headers|
  {
    hide UpdateOf, Sets;
    if headers != [] {
      var n := |headers| - 1;
      var init := headers[..n];
      UpdatesAre(init, name);
      forall q
        ensures UpdateOf(headers[n]) == Some(q) <==> Sets(headers[n], q)
      {
        UpdateIs(headers[n], q);
      }
      if name in Updates(headers) {
        var p := Pair(name, Updates(headers)[name]);
        if UpdateOf(headers[n]).Some? && UpdateOf(headers[n]).value.name == name {
          assert IsLastSet(headers, n, p);
        } else {
          var k :| IsLastSet(init, k, p);
          assert IsLastSet(headers, k, p);
        }
      }
    }
  }

  /** Every effective update can be written into a cookie string. */
  lemma {:induction false} UpdatesWritable(headers: seq<string>)
    ensures forall n :: n in Updates(headers) ==> Writable(Pair(n, Updates(headers)[n]))
    decreases |headers|
  {
    hide Writable, PairOf, Pieces;
    if headers != [] {
      var last := headers[|headers| - 1];
      UpdatesWritable(headers[..|headers| - 1]);
      FirstPieceClean(last);
      if PairOf(Pieces(last)[0]).Some? {
        PairWritable(Pieces(last)[0]);
      }
    }
  }

  lemma {:induction false} FirstPieceClean(s: string)
    ensures |Pieces(s)| > 0 && ';' !in Pieces(s)[0]
  {
  }

  // ---------------------------------------------------------------- merging

  function Refreshed(p: Pair, updates: map<string, string>): Pair {
    if p.name in updates then Pair(p.name, updates[p.name]) else p
  }

  function Replaced(pairs: seq<Pair>, updates: map<string, string>): seq<Pair> {
    seq(|pairs|, i requires 0 <= i < |pairs| => Refreshed(pairs[i], updates))
  }

  /** The updates of names not seen before, each once, in some order. */
  ghost predicate IsAppendix(extra: seq<Pair>, updates: map<string, string>, seen: seq<string>) {
    && (forall k :: 0 <= k < |extra| ==>
          extra[k].name in updates && extra[k].value == updates[extra[k].name] && extra[k].name !in seen)
    && (forall n :: n in updates && n !in seen ==> exists k :: 0 <= k < |extra| && extra[k].name == n)
    && (forall i, j :: 0 <= i < j < |extra| ==> extra[i].name != extra[j].name)
  }

  /** All strings `mergeSetCookie` may return; new names come in map-iteration order. */
  ghost predicate IsMerge(merged: string, cookie: string, headers: seq<string>) {
    var updates := Updates(headers);
    if updates == map[] then merged == cookie
    else exists extra :: IsAppendix(extra, updates, Names(Pairs(cookie)))
                         && merged == Render(Replaced(Pairs(cookie), updates) + extra)
  }

  method CollectUpdates(headers: seq<string>) returns (updates: map<string, string>)
    ensures updates == Updates(headers)
  {
    hide Pieces, PairOf, ToLower, Index;
    updates := map[];
    for i := 0 to |headers|
      invariant updates == Updates(headers[..i])
    {
      assert headers[..i + 1][..i] == headers[..i];
      FirstPieceClean(headers[i]);
      match PairOf(Pieces(headers[i])[0])
      case None =>
      case Some(p) =>
        if p.value == "" && Index(ToLower(headers[i]), EXPIRED) >= 0 {
          continue;
        }
        updates := updates[p.name := p.value];
    }
    assert headers[..|headers|] == headers;
  }

  method MergeSetCookie(cookie: string, headers: seq<string>) returns (merged: string)
    ensures IsMerge(merged, cookie, headers)
  {
    hide Pairs, Render, UpdateOf, IsSplit;
    if |headers| == 0 {
      return cookie;
    }
    var updates := CollectUpdates(headers);
    if |updates| == 0 {
      return cookie;
    }
    var pairs := SplitCookiePairs(cookie);
    var parts: seq<Pair> := [];
    var seen: set<string> := {};
    for i := 0 to |pairs|
      invariant parts == Replaced(pairs[..i], updates)
      invariant seen == set n | n in Names(pairs[..i])
    {
      assert pairs[..i + 1] == pairs[..i] + [pairs[i]];
      assert Names(pairs[..i + 1]) == Names(pairs[..i]) + [pairs[i].name];
      seen := seen + {pairs[i].name};
      parts := parts + [if pairs[i].name in updates then Pair(pairs[i].name, updates[pairs[i].name]) else pairs[i]];
    }
    assert pairs[..|pairs|] == pairs;
    var extra := AppendNew(updates, seen);
    AppendixSeen(extra, updates, seen, Names(pairs));
    merged := Render(parts + extra);
  }

  /** The loop over the update map, in whatever order it yields the names. */
  method AppendNew(updates: map<string, string>, seen: set<string>) returns (extra: seq<Pair>)
    ensures forall k :: 0 <= k < |extra| ==>
              extra[k].name in updates && extra[k].value == updates[extra[k].name] && extra[k].name !in seen
    ensures forall n :: n in updates && n !in seen ==> exists k :: 0 <= k < |extra| && extra[k].name == n
    ensures forall i, j :: 0 <= i < j < |extra| ==> extra[i].name != extra[j].name
  {
    extra := [];
    var rest := updates.Keys;
    while rest != {}
      invariant rest <= updates.Keys
      invariant forall k :: 0 <= k < |extra| ==>
                  && extra[k].name in updates && extra[k].value == updates[extra[k].name]
                  && extra[k].name !in seen && extra[k].name !in rest
      invariant forall n :: n in updates && n !in seen && n !in rest ==>
                  exists k :: 0 <= k < |extra| && extra[k].name == n
      invariant forall i, j :: 0 <= i < j < |extra| ==> extra[i].name != extra[j].name
      decreases |rest|
    {
      var name :| name in rest;
      rest := rest - {name};
      if name !in seen {
        ghost var before := extra;
        extra := extra + [Pair(name, updates[name])];
        assert extra[|extra| - 1].name == name;
        assert forall k :: 0 <= k < |before| ==> extra[k] == before[k];
      }
    }
  }

  lemma {:induction false} AppendixSeen(extra: seq<Pair>, updates: map<string, string>, seen: set<string>,
                                        names: seq<string>)
    requires seen == set n | n in names
    requires forall k :: 0 <= k < |extra| ==>
               extra[k].name in updates && extra[k].value == updates[extra[k].name] && extra[k].name !in seen
    requires forall n :: n in updates && n !in seen ==> exists k :: 0 <= k < |extra| && extra[k].name == n
    requires forall i, j :: 0 <= i < j < |extra| ==> extra[i].name != extra[j].name
    ensures IsAppendix(extra, updates, names)
  {
  }

  // ---------------------------------------------------------------- the merge algebra

  /** A merge with updates writes exactly the replaced pairs and the new ones: reading the
      result back loses nothing and keeps the old order. */
  lemma {:induction false} MergedPairs(merged: string, cookie: string, headers: seq<string>) returns (extra: seq<Pair>)
    requires IsMerge(merged, cookie, headers) && Updates(headers) != map[]
    ensures IsAppendix(extra, Updates(headers), Names(Pairs(cookie)))
    ensures Pairs(merged) == Replaced(Pairs(cookie), Updates(headers)) + extra
    ensures merged == Render(Pairs(merged))
  {
    hide Pairs, Render, Updates, Writable;
    var updates := Updates(headers);
    extra :| IsAppendix(extra, updates, Names(Pairs(cookie)))
      && merged == Render(Replaced(Pairs(cookie), updates) + extra);
    var all := Replaced(Pairs(cookie), updates) + extra;
    PairsWritable(cookie);
    UpdatesWritable(headers);
    ReadBack(all, "");
    assert "" + Render(all) == Render(all);
  }

  /** Existing names keep their places; new names only come behind them. */
  lemma {:induction false} MergeKeepsOrder(merged: string, cookie: string, headers: seq<string>)
    requires IsMerge(merged, cookie, headers)
    ensures Names(Pairs(cookie)) <= Names(Pairs(merged))
    ensures forall n :: n in Names(Pairs(merged)) <==> n in Names(Pairs(cookie)) || n in Updates(headers)
  {
    if Updates(headers) != map[] {
      var extra := MergedPairs(merged, cookie, headers);
      NamesOfMerged(Pairs(cookie), Updates(headers), extra);
    }
  }

  lemma {:induction false} NamesOfMerged(pairs: seq<Pair>, updates: map<string, string>, extra: seq<Pair>)
    requires IsAppendix(extra, updates, Names(pairs))
    ensures var all := Names(Replaced(pairs, updates) + extra);
            Names(pairs) <= all && forall n :: n in all <==> n in Names(pairs) || n in updates
  {
    var replaced := Replaced(pairs, updates);
    assert Names(replaced) == Names(pairs);
    assert Names(replaced + extra) == Names(pairs) + Names(extra);
    forall n
      ensures n in Names(extra) <==> n in updates && n !in Names(pairs)
    {
      if n in updates && n !in Names(pairs) {
        var k :| 0 <= k < |extra| && extra[k].name == n;
        assert Names(extra)[k] == n;
      }
    }
  }

  ghost predicate IsFirst(pairs: seq<Pair>, name: string, k: nat) {
    k < |pairs| && pairs[k].name == name && forall j :: 0 <= j < k ==> pairs[j].name != name
  }

  ghost predicate IsLast(pairs: seq<Pair>, name: string, k: nat) {
    k < |pairs| && pairs[k].name == name && forall j :: k < j < |pairs| ==> pairs[j].name != name
  }

  lemma {:induction false} FirstValueAt(pairs: seq<Pair>, name: string, k: nat)
    requires IsFirst(pairs, name, k)
    ensures FirstValue(pairs, name) == pairs[k].value
    decreases |pairs|
  {
    if k > 0 {
      assert pairs[0].name != name;
      assert forall j :: 0 <= j < |pairs| - 1 ==> pairs[1..][j] == pairs[j + 1];
      FirstValueAt(pairs[1..], name, k - 1);
    }
  }

  lemma {:induction false} LastValueAt(pairs: seq<Pair>, name: string, k: nat)
    requires IsLast(pairs, name, k)
    ensures LastValue(pairs, name) == pairs[k].value
    decreases |pairs|
  {
    var n := |pairs| - 1;
    if k < n {
      assert pairs[n].name != name;
      LastValueAt(pairs[..n], name, k);
    }
  }

  lemma {:induction false} NoValue(pairs: seq<Pair>, name: string)
    requires name !in Names(pairs)
    ensures FirstValue(pairs, name) == "" && LastValue(pairs, name) == ""
    decreases |pairs|
  {
    if pairs != [] {
      var n := |pairs| - 1;
      assert Names(pairs)[0] == pairs[0].name && Names(pairs)[n] == pairs[n].name;
      assert Names(pairs)[1..] == Names(pairs[1..]) && Names(pairs)[..n] == Names(pairs[..n]);
      NoValue(pairs[1..], name);
      NoValue(pairs[..n], name);
    }
  }

  lemma {:induction false} FindFirst(pairs: seq<Pair>, name: string) returns (k: nat)
    requires name in Names(pairs)
    ensures IsFirst(pairs, name, k)
    decreases |pairs|
  {
    var n := |pairs| - 1;
    if name in Names(pairs[..n]) {
      k := FindFirst(pairs[..n], name);
    } else {
      assert forall j :: 0 <= j < n ==> Names(pairs[..n])[j] == pairs[j].name;
      k := n;
    }
  }

  lemma {:induction false} FindLast(pairs: seq<Pair>, name: string) returns (k: nat)
    requires name in Names(pairs)
    ensures IsLast(pairs, name, k)
    decreases |pairs|
  {
    if name in Names(pairs[1..]) {
      k := FindLast(pairs[1..], name);
      k := k + 1;
    } else {
      assert forall j :: 1 <= j < |pairs| ==> Names(pairs[1..])[j - 1] == pairs[j].name;
      k := 0;
    }
  }

  /** Both readings of a merged string: an updated name has its new value, every other name
      the value it had. */
  lemma {:induction false} ValuesOfMerged(pairs: seq<Pair>, updates: map<string, string>, extra: seq<Pair>,
                                          name: string)
    requires IsAppendix(extra, updates, Names(pairs))
    ensures var all := Replaced(pairs, updates) + extra;
            && FirstValue(all, name) == (if name in updates then updates[name] else FirstValue(pairs, name))
            && LastValue(all, name) == (if name in updates then updates[name] else LastValue(pairs, name))
  {
    hide FirstValue, LastValue;
    if name in Names(pairs) {
      ValuesOfOld(pairs, updates, extra, name);
    } else if name in updates {
      ValuesOfNew(pairs, updates, extra, name);
    } else {
      NamesOfMerged(pairs, updates, extra);
      NoValue(pairs, name);
      NoValue(Replaced(pairs, updates) + extra, name);
    }
  }

  lemma {:induction false} ValuesOfOld(pairs: seq<Pair>, updates: map<string, string>, extra: seq<Pair>, name: string)
    requires IsAppendix(extra, updates, Names(pairs)) && name in Names(pairs)
    ensures var all := Replaced(pairs, updates) + extra;
            && FirstValue(all, name) == (if name in updates then updates[name] else FirstValue(pairs, name))
            && LastValue(all, name) == (if name in updates then updates[name] else LastValue(pairs, name))
  {
    hide FirstValue, LastValue;
    var all, n := Replaced(pairs, updates) + extra, |pairs|;
    forall j | 0 <= j < n
      ensures all[j] == Refreshed(pairs[j], updates) && all[j].name == pairs[j].name
    {
    }
    forall j | n <= j < |all|
      ensures all[j].name != name
    {
      assert all[j] == extra[j - n];
    }
    var f := FindFirst(pairs, name);
    FirstValueAt(pairs, name, f);
    FirstValueAt(all, name, f);
    var l := FindLast(pairs, name);
    LastValueAt(pairs, name, l);
    LastValueAt(all, name, l);
  }

  lemma {:induction false} ValuesOfNew(pairs: seq<Pair>, updates: map<string, string>, extra: seq<Pair>, name: string)
    requires IsAppendix(extra, updates, Names(pairs)) && name !in Names(pairs) && name in updates
    ensures var all := Replaced(pairs, updates) + extra;
            FirstValue(all, name) == LastValue(all, name) == updates[name]
  {
    hide FirstValue, LastValue;
    NotNamed(pairs, updates, name);
    var kept := Replaced(pairs, updates);
    var k :| 0 <= k < |extra| && extra[k].name == name;
    hide Replaced, Names;
    OnlyBehind(kept, extra, k, name);
    FirstValueAt(kept + extra, name, |kept| + k);
    LastValueAt(kept + extra, name, |kept| + k);
  }

  lemma NotNamed(pairs: seq<Pair>, updates: map<string, string>, name: string)
    requires name !in Names(pairs)
    ensures forall p :: p in Replaced(pairs, updates) ==> p.name != name
  {
    forall j | 0 <= j < |pairs|
      ensures Replaced(pairs, updates)[j].name != name
    {
      assert Names(pairs)[j] == pairs[j].name;
    }
  }

  lemma OnlyBehind(kept: seq<Pair>, extra: seq<Pair>, k: nat, name: string)
    requires k < |extra| && extra[k].name == name && forall p :: p in kept ==> p.name != name
    requires forall j :: 0 <= j < |extra| && j != k ==> extra[j].name != name
    ensures IsFirst(kept + extra, name, |kept| + k) && IsLast(kept + extra, name, |kept| + k)
    ensures (kept + extra)[|kept| + k] == extra[k]
  {
  }

  /** Reading back: each updated name gives its last value that was not a deletion, and every
      other name keeps its value. */
  lemma {:induction false} MergeReadsBack(merged: string, cookie: string, headers: seq<string>, name: string)
    requires IsMerge(merged, cookie, headers)
    ensures var updates := Updates(headers);
            CookieValue(merged, name) == if name in updates then updates[name] else CookieValue(cookie, name)
  {
    if Updates(headers) != map[] {
      var extra := MergedPairs(merged, cookie, headers);
      hide Pairs, Updates;
      ValuesOfMerged(Pairs(cookie), Updates(headers), extra, name);
    }
  }

  /** Merging the same headers again changes nothing, byte for byte, whatever order new names
      were appended in. */
  lemma {:induction false} MergeIdempotent(once: string, twice: string, cookie: string, headers: seq<string>)
    requires IsMerge(once, cookie, headers) && IsMerge(twice, once, headers)
    ensures twice == once
  {
    hide Pairs, Updates, Render, Names;
    var updates := Updates(headers);
    if updates != map[] {
      var extra := MergedPairs(once, cookie, headers);
      var more := MergedPairs(twice, once, headers);
      NamesOfMerged(Pairs(cookie), updates, extra);
      NothingNew(more, updates, Names(Pairs(once)));
      AlreadyFresh(Pairs(cookie), updates, extra);
      assert Pairs(twice) == Pairs(once) + [];
      assert Pairs(once) + [] == Pairs(once);
    }
  }

  lemma {:induction false} NothingNew(extra: seq<Pair>, updates: map<string, string>, seen: seq<string>)
    requires IsAppendix(extra, updates, seen) && forall n :: n in updates ==> n in seen
    ensures extra == []
  {
    var first := if |extra| > 0 then extra[0].name else "";
    assert extra == [] || first in updates;
  }

  lemma {:induction false} AlreadyFresh(pairs: seq<Pair>, updates: map<string, string>, extra: seq<Pair>)
    requires IsAppendix(extra, updates, Names(pairs))
    ensures var all := Replaced(pairs, updates) + extra; Replaced(all, updates) == all
  {
    var all, n := Replaced(pairs, updates) + extra, |pairs|;
    forall j | 0 <= j < |all|
      ensures Refreshed(all[j], updates) == all[j]
    {
      if j < n {
        assert all[j] == Refreshed(pairs[j], updates);
      } else {
        assert all[j] == extra[j - n];
      }
    }
  }

  /** A merge does not leave a cookie empty. */
  lemma {:induction false} MergeKeepsSomething(merged: string, cookie: string, headers: seq<string>)
    requires IsMerge(merged, cookie, headers)
    ensures cookie != "" ==> merged != ""
  {
    hide IsMerge, Updates;
    if merged == "" {
      MergeKeepsOrder(merged, cookie, headers);
      NoPairs();
      assert forall n :: n in Updates(headers) ==> n in Names(Pairs(merged));
      assert Updates(headers) == map[];
      UntouchedWithout(merged, cookie, headers);
    }
  }

  lemma NoPairs()
    ensures Pairs("") == []
  {
  }

  lemma UntouchedWithout(merged: string, cookie: string, headers: seq<string>)
    requires IsMerge(merged, cookie, headers) && Updates(headers) == map[]
    ensures merged == cookie
  {
  }

  // ---------------------------------------------------------------- whose cookie it is

  const SAPISID: string := "SAPISID"
  const PSID: string := "__Secure-1PSID"

  function Sapisid(cookie: string): string {
    LastValue(Pairs(cookie), SAPISID)
  }

  function Psid(cookie: string): string {
    LastValue(Pairs(cookie), PSID)
  }

  function Joined(a: string, b: string): string {
    a + "|" + b
  }

  /** `cookieIdentity`: the loop keeps the last value of either name. */
  function Identity(cookie: string): string {
    Joined(Sapisid(cookie), Psid(cookie))
  }

  /** The last value of that name, or nothing without one. */
  ghost predicate IsLastValue(pairs: seq<Pair>, name: string, value: string) {
    if forall k :: 0 <= k < |pairs| ==> pairs[k].name != name then value == ""
    else exists k: nat :: IsLast(pairs, name, k) && value == pairs[k].value
  }

  lemma {:induction false} LastValueIs(pairs: seq<Pair>, name: string)
    ensures IsLastValue(pairs, name, LastValue(pairs, name))
  {
    hide LastValue;
    if k :| 0 <= k < |pairs| && pairs[k].name == name {
      assert Names(pairs)[k] == name;
      var l := FindLast(pairs, name);
      LastValueAt(pairs, name, l);
    } else {
      NoValue(pairs, name);
    }
  }

  method CookieIdentity(cookie: string) returns (identity: string)
    ensures identity == Identity(cookie)
    ensures exists a, b :: identity == a + "|" + b && IsLastValue(Pairs(cookie), "SAPISID", a)
                           && IsLastValue(Pairs(cookie), "__Secure-1PSID", b)
  {
    var sapisid, psid := "", "";
    var pairs := SplitCookiePairs(cookie);
    hide Pairs;
    for i := 0 to |pairs|
      invariant sapisid == LastValue(pairs[..i], SAPISID) && psid == LastValue(pairs[..i], PSID)
    {
      assert pairs[..i + 1][..i] == pairs[..i];
      if pairs[i].name == SAPISID {
        sapisid := pairs[i].value;
      } else if pairs[i].name == PSID {
        psid := pairs[i].value;
      }
    }
    assert pairs[..|pairs|] == pairs;
    LastValueIs(pairs, SAPISID);
    LastValueIs(pairs, PSID);
    return sapisid + "|" + psid;
  }

  /** The identity of a merge depends only on the updates of the two identifying names. */
  lemma {:induction false} IdentityOfMerge(merged: string, cookie: string, headers: seq<string>)
    requires IsMerge(merged, cookie, headers)
    ensures var u := Updates(headers);
            && Sapisid(merged) == (if SAPISID in u then u[SAPISID] else Sapisid(cookie))
            && Psid(merged) == (if PSID in u then u[PSID] else Psid(cookie))
  {
    if Updates(headers) != map[] {
      var extra := MergedPairs(merged, cookie, headers);
      hide Pairs, Updates;
      ValuesOfMerged(Pairs(cookie), Updates(headers), extra, SAPISID);
      ValuesOfMerged(Pairs(cookie), Updates(headers), extra, PSID);
    }
  }

  /** From the pair (a, b) to (x, y) a bar and the text `m` before it went over to the left. */
  ghost predicate BarMoved(a: string, b: string, x: string, y: string) {
    exists m: string :: x == Joined(a, m) && b == Joined(m, y)
  }

  lemma {:induction false} JoinLonger(a: string, b: string, x: string, y: string)
    requires Joined(a, b) == Joined(x, y) && |a| < |x|
    ensures BarMoved(a, b, x, y)
  {
    var s := Joined(a, b);
    var m := x[|a| + 1..];
    assert s[..|a|] == a && s[..|x|] == x && s[|a|] == '|';
    assert x == Joined(a, m);
    assert s[|a| + 1..] == b && s[|x| + 1..] == y && s[|x|] == '|';
    assert b == Joined(m, y);
  }

  /** Two pairs of values look alike exactly when they are equal or a bar changed sides. */
  lemma {:induction false} JoinLaw(a: string, b: string, x: string, y: string)
    ensures Joined(a, b) == Joined(x, y)
            <==> (a == x && b == y) || BarMoved(a, b, x, y) || BarMoved(x, y, a, b)
  {
    if Joined(a, b) == Joined(x, y) {
      var s := Joined(a, b);
      if |a| < |x| {
        JoinLonger(a, b, x, y);
      } else if |x| < |a| {
        JoinLonger(x, y, a, b);
      } else {
        assert a == s[..|a|] == x && b == s[|a| + 1..] == y;
      }
    }
    if m: string :| x == Joined(a, m) && b == Joined(m, y) {
      assert a + "|" + (m + "|" + y) == (a + "|" + m) + "|" + y;
    }
    if m: string :| a == Joined(x, m) && y == Joined(m, b) {
      assert x + "|" + (m + "|" + b) == (x + "|" + m) + "|" + b;
    }
  }

  /** So a pair of values can be told from every other pair exactly when neither holds a bar. */
  lemma {:induction false} JoinTells(a: string, b: string)
    ensures (forall x, y :: Joined(x, y) == Joined(a, b) ==> x == a && y == b) <==> '|' !in a && '|' !in b
  {
    if '|' in a {
      var k :| 0 <= k < |a| && a[k] == '|';
      assert a == Joined(a[..k], a[k + 1..]);
      JoinLaw(a[..k], Joined(a[k + 1..], b), a, b);
      assert Joined(a[..k], Joined(a[k + 1..], b)) == Joined(a, b);
    } else if '|' in b {
      var k :| 0 <= k < |b| && b[k] == '|';
      assert b == Joined(b[..k], b[k + 1..]);
      JoinLaw(a, b, Joined(a, b[..k]), b[k + 1..]);
      assert Joined(Joined(a, b[..k]), b[k + 1..]) == Joined(a, b);
      assert |b[k + 1..]| < |b|;
    } else {
      forall x, y | Joined(x, y) == Joined(a, b)
        ensures x == a && y == b
      {
        JoinLaw(a, b, x, y);
      }
    }
  }

  /** What a value in a cookie string can be. */
  predicate Storable(v: string) {
    ';' !in v && (v == "" || !IsSpace(v[|v| - 1]))
  }

  lemma {:induction false} LastValueStorable(pairs: seq<Pair>, name: string)
    requires AllWritable(pairs)
    ensures Storable(LastValue(pairs, name))
    decreases |pairs|
  {
    if pairs != [] {
      var p := pairs[|pairs| - 1];
      assert Written(p)[|Written(p)| - 1] == if p.value == "" then '=' else p.value[|p.value| - 1];
      LastValueStorable(pairs[..|pairs| - 1], name);
    }
  }

  /** Any two such values are those of some cookie. */
  lemma {:induction false} CookieWith(x: string, y: string) returns (cookie: string)
    requires Storable(x) && Storable(y)
    ensures cookie == SAPISID + "=" + x + "; " + PSID + "=" + y
    ensures Sapisid(cookie) == x && Psid(cookie) == y
  {
    var one, two := Pair(SAPISID, x), Pair(PSID, y);
    WritableValue(one);
    WritableValue(two);
    hide Writable, Pairs, LastValue, Storable, IsSpace;
    var pairs := [one, two];
    cookie := Render(pairs);
    assert pairs[1..] == [two] && Render([two]) == Written(two);
    assert cookie == SAPISID + "=" + x + "; " + PSID + "=" + y;
    ReadBack(pairs, "");
    assert "" + cookie == cookie;
    TwoValues(one, two);
  }

  lemma {:induction false} TwoValues(one: Pair, two: Pair)
    requires one.name == SAPISID && two.name == PSID
    ensures LastValue([one, two], SAPISID) == one.value && LastValue([one, two], PSID) == two.value
  {
    hide LastValue;
    assert one.name[0] != two.name[0];
    LastValueAt([one, two], SAPISID, 0);
    LastValueAt([one, two], PSID, 1);
  }

  lemma NameAndEquals()
    ensures !IsSpace('=') && !IsSpace(SAPISID[0]) && !IsSpace(PSID[0])
  {
  }

  lemma {:induction false} WritableValue(p: Pair)
    requires Storable(p.value) && (p.name == SAPISID || p.name == PSID)
    ensures Writable(p)
  {
    hide IsSpace;
    assert Written(p)[0] == p.name[0];
    NameAndEquals();
    assert Written(p)[|Written(p)| - 1] == if p.value == "" then '=' else p.value[|p.value| - 1];
  }

  /** A bar at which the value could have been cut in two: white space in front of it would not
      have survived as the end of a value. */
  predicate BarSplits(v: string) {
    exists k :: 0 <= k < |v| && v[k] == '|' && (k == 0 || !IsSpace(v[k - 1]))
  }

  lemma {:induction false} BarAfter(p: string, q: string)
    requires Storable(p)
    ensures BarSplits(Joined(p, q))
  {
    var v, k := Joined(p, q), |p|;
    assert v[k] == '|' && (k == 0 || v[k - 1] == p[k - 1]);
  }

  /** An identity tells its cookie's two values exactly when no bar in either could have stood
      between two values. */
  lemma {:induction false} IdentityTells(cookie: string)
    ensures (forall other :: Identity(other) == Identity(cookie) ==>
               Sapisid(other) == Sapisid(cookie) && Psid(other) == Psid(cookie))
            <==> !BarSplits(Sapisid(cookie)) && !BarSplits(Psid(cookie))
  {
    hide Pairs, LastValue, BarSplits, Joined;
    var a, b := Sapisid(cookie), Psid(cookie);
    ValuesStorable(cookie);
    if BarSplits(a) {
      var x, y := CutLeft(a, b);
      var other := CookieWith(x, y);
    } else if BarSplits(b) {
      var x, y := CutRight(a, b);
      var other := CookieWith(x, y);
    } else {
      forall other | Identity(other) == Identity(cookie)
        ensures Sapisid(other) == a && Psid(other) == b
      {
        ValuesStorable(other);
        SameOrSplit(a, b, Sapisid(other), Psid(other));
      }
    }
  }

  lemma {:induction false} ValuesStorable(cookie: string)
    ensures Storable(Sapisid(cookie)) && Storable(Psid(cookie))
  {
    PairsWritable(cookie);
    LastValueStorable(Pairs(cookie), SAPISID);
    LastValueStorable(Pairs(cookie), PSID);
  }

  lemma BarIsNoSpace()
    ensures !IsSpace('|')
  {
  }

  lemma {:induction false} CutLeft(a: string, b: string) returns (x: string, y: string)
    requires BarSplits(a) && Storable(a) && Storable(b)
    ensures Storable(x) && Storable(y) && x != a && Joined(x, y) == Joined(a, b)
  {
    var k :| 0 <= k < |a| && a[k] == '|' && (k == 0 || !IsSpace(a[k - 1]));
    hide IsSpace, BarSplits;
    BarIsNoSpace();
    x, y := a[..k], Joined(a[k + 1..], b);
    assert |x| < |a|;
    assert Joined(x, y) == Joined(a, b);
  }

  lemma {:induction false} CutRight(a: string, b: string) returns (x: string, y: string)
    requires BarSplits(b) && Storable(a) && Storable(b)
    ensures Storable(x) && Storable(y) && x != a && Joined(x, y) == Joined(a, b)
  {
    var k :| 0 <= k < |b| && b[k] == '|' && (k == 0 || !IsSpace(b[k - 1]));
    hide IsSpace, BarSplits;
    x, y := Joined(a, b[..k]), b[k + 1..];
    assert |a| < |x|;
    BarIsNoSpace();
    assert x[|x| - 1] == if k == 0 then '|' else b[k - 1];
    assert y == "" || y[|y| - 1] == b[|b| - 1];
    assert Joined(x, y) == Joined(a, b);
  }

  lemma {:induction false} SameOrSplit(a: string, b: string, x: string, y: string)
    requires Storable(a) && Storable(b) && Storable(x) && Storable(y) && Joined(a, b) == Joined(x, y)
    ensures (a == x && b == y) || BarSplits(a) || BarSplits(b)
  {
    hide BarSplits;
    JoinLaw(a, b, x, y);
    if m: string :| x == Joined(a, m) && b == Joined(m, y) {
      assert m == "" || m[|m| - 1] == x[|x| - 1];
      assert forall k :: 0 <= k < |m| ==> m[k] == b[k];
      BarAfter(m, y);
    }
    if m: string :| a == Joined(x, m) && y == Joined(m, b) {
      BarAfter(x, m);
    }
  }

  lemma CollidingCookies()
    ensures SAPISID + "=" + "a|b" + "; " + PSID + "=" + "c" == "SAPISID=a|b; __Secure-1PSID=c"
    ensures SAPISID + "=" + "a" + "; " + PSID + "=" + "b|c" == "SAPISID=a; __Secure-1PSID=b|c"
  {
  }

  lemma PlainIsStorable()
    ensures Storable("a|b") && Storable("a") && Storable("b|c") && Storable("c")
  {
  }

  lemma BothJoined()
    ensures Joined("a|b", "c") == Joined("a", "b|c")
  {
    assert Joined("a|b", "c") == "a|b|c" == Joined("a", "b|c");
  }

  /** Two cookies of different accounts with one identity. */
  lemma IdentityCanCollide()
    ensures var one, two := "SAPISID=a|b; __Secure-1PSID=c", "SAPISID=a; __Secure-1PSID=b|c";
            Identity(one) == Identity(two) && Sapisid(one) == "a|b" && Sapisid(two) == "a"
  {
    hide Sapisid, Psid, IsSpace, Joined;
    var ab, a, bc, c := "a|b", "a", "b|c", "c";
    PlainIsStorable();
    var one := CookieWith(ab, c);
    var two := CookieWith(a, bc);
    CollidingCookies();
    BothJoined();
  }
}
