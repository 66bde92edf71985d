/** `toolFenceGate`: an online scanner that forwards only text that cannot belong to a
    ```tool_call fence, and the offline clean-up `parseToolCalls` it must agree with. */
module FenceGate {
  import opened Options
  import opened Text

  const OPEN: string := "```tool_call"
  const CLOSE: string := "```"

  // ---------------------------------------------------------------- partial markers

  /** The last `k` characters of `s` are a proper prefix of `marker`. */
  predicate EndsInPrefix(s: string, marker: string, k: nat) {
    k <= |s| && k < |marker| && s[|s| - k..] <= marker
  }

  ghost predicate IsPartial(s: string, marker: string, k: nat) {
    && EndsInPrefix(s, marker, k)
    && forall j: nat :: EndsInPrefix(s, marker, j) ==> j <= k
  }

  method PartialPrefixLen(s: string, marker: string) returns (keep: nat)
    requires marker != ""
    ensures IsPartial(s, marker, keep)
  {
    var max := |marker| - 1;
    if |s| < max {
      max := |s|;
    }
    var k := max;
    while k > 0
      invariant 0 <= k <= max
      invariant forall j: nat :: EndsInPrefix(s, marker, j) ==> j <= k
    {
      if s[|s| - k..] <= marker {
        return k;
      }
      k := k - 1;
    }
    return 0;
  }

  /** The longest partial marker at the end of `s`, as a function. */
  function Partial(s: string, marker: string): (k: nat)
    requires marker != ""
    ensures IsPartial(s, marker, k)
  {
    PartialFrom(s, marker, if |s| < |marker| - 1 then |s| else |marker| - 1)
  }

  function PartialFrom(s: string, marker: string, top: nat): (k: nat)
    requires marker != "" && top <= |s| && top < |marker|
    ensures EndsInPrefix(s, marker, k)
    ensures forall j: nat :: j <= top && EndsInPrefix(s, marker, j) ==> j <= k
  {
    if EndsInPrefix(s, marker, top) then top else PartialFrom(s, marker, top - 1)
  }

  lemma PartialUnique(s: string, marker: string, k: nat)
    requires marker != "" && IsPartial(s, marker, k)
    ensures Partial(s, marker) == k
  {
    assert EndsInPrefix(s, marker, k) && EndsInPrefix(s, marker, Partial(s, marker));
  }

  // ---------------------------------------------------------------- the scanner as a function

  /** What the gate has let through, what it still holds, and whether it is inside a fence. */
  datatype Scan = Scan(sent: string, buf: string, inFence: bool) {
    /** The part of the input that was read but neither sent nor dropped with a closed fence. */
    function Pending(): string {
      if inFence then OPEN + buf else buf
    }
  }

  /** One turn of the scanning loop, and whether the loop goes round again. */
  datatype Turn = Turn(st: Scan, again: bool)

  function Step(st: Scan): (t: Turn)
    ensures t.again ==> |t.st.buf| < |st.buf|
    ensures st.sent <= t.st.sent
  {
    if st.inFence then
      var j := Index(st.buf, CLOSE);
      if j < 0 then Turn(st, false)
      else Turn(Scan(st.sent, st.buf[j + |CLOSE|..], false), true)
    else
      Outside(st.sent, st.buf, Index(st.buf, OPEN), Partial(st.buf, OPEN))
  }

  /** The turn taken outside a fence, given where the open marker is (`i`, -1 for nowhere)
      and how much of one stands at the end (`keep`). */
  function Outside(sent: string, buf: string, i: int, keep: nat): Turn
    requires i == -1 || 0 <= i <= |buf| - |OPEN|
    requires keep <= |buf|
  {
    if i >= 0 then Turn(Scan(sent + buf[..i], buf[i + |OPEN|..], true), true)
    else
      var cut := |buf| - keep;
      Turn(Scan(sent + buf[..cut], buf[cut..], false), false)
  }

  /** Scan on from a state until nothing more can be decided. */
  function Settle(st: Scan): (r: Scan)
    decreases |st.buf|
  {
    var t := Step(st);
    if t.again then Settle(t.st) else t.st
  }

  function With(st: Scan, delta: string): Scan {
    st.(buf := st.buf + delta)
  }

  function Feed(st: Scan, delta: string): Scan {
    Settle(With(st, delta))
  }

  function FeedAll(st: Scan, deltas: seq<string>): Scan
    decreases |deltas|
  {
    if deltas == [] then st else FeedAll(Feed(st, deltas[0]), deltas[1..])
  }

  /** The gate's state after a whole text, in one piece. */
  function Whole(text: string): Scan {
    Feed(Scan("", "", false), text)
  }

  lemma SettleIs(st: Scan)
    ensures Settle(st) == if Step(st).again then Settle(Step(st).st) else Step(st).st
  {
    hide Step;
  }

  lemma StepIs(st: Scan)
    ensures Step(st) ==
            if st.inFence then
              var j := Index(st.buf, CLOSE);
              if j < 0 then Turn(st, false) else Turn(Scan(st.sent, st.buf[j + |CLOSE|..], false), true)
            else Outside(st.sent, st.buf, Index(st.buf, OPEN), Partial(st.buf, OPEN))
  {
    hide Partial;
  }

  lemma SettleTurn(st: Scan)
    ensures Settle(st) == if Step(st).again then Settle(Step(st).st) else Step(st).st
    ensures Step(st) ==
            if st.inFence then
              var j := Index(st.buf, CLOSE);
              if j < 0 then Turn(st, false) else Turn(Scan(st.sent, st.buf[j + |CLOSE|..], false), true)
            else Outside(st.sent, st.buf, Index(st.buf, OPEN), Partial(st.buf, OPEN))
  {
  }

  lemma WholeOfNothing()
    ensures Whole("") == Scan("", "", false)
  {
    assert Partial("", OPEN) == 0;
    assert Step(Scan("", "", false)) == Turn(Scan("", "", false), false);
  }

  // ---------------------------------------------------------------- the gate

  class ToolFenceGate {
    var buf: string
    var inFence: bool
    var sent: string
    var emits: seq<string>   // the calls made to the emit callback, in order
    ghost var pushed: string // everything pushed so far

    ghost function State(): Scan
      reads this
    {
      Scan(sent, buf, inFence)
    }

    /** The state depends on the concatenation of the pushes only, not on how it was cut. */
    ghost predicate Valid()
      reads this
    {
      && State() == Whole(pushed)
      && Flatten(emits) == sent
      && "" !in emits
    }

    constructor ()
      ensures Valid() && pushed == "" && emits == []
    {
      buf, inFence, sent, emits, pushed := "", false, "", [], "";
      new;
      hide Settle;
      WholeOfNothing();
    }

    method Send(s: string)
      requires Flatten(emits) == sent && "" !in emits
      modifies this`sent, this`emits
      ensures Flatten(emits) == sent && "" !in emits
      ensures sent == old(sent) + s
      ensures emits == if s == "" then old(emits) else old(emits) + [s]
    {
      if s == "" {
        return;
      }
      FlattenAppend(emits, [s]);
      assert Flatten([s]) == s + Flatten([]) == s;
      sent := sent + s;
      emits := emits + [s];
    }

    /** One turn of the loop in `Push`. */
    method Advance() returns (again: bool)
      requires Flatten(emits) == sent && "" !in emits
      modifies this`buf, this`inFence, this`sent, this`emits
      ensures Flatten(emits) == sent && "" !in emits
      ensures Turn(State(), again) == Step(old(State()))
      ensures old(sent) <= sent && old(emits) <= emits
    {
      hide Step, Partial, Index, OccursAt, EndsInPrefix;
      StepIs(State());
      if inFence {
        var j := Index(buf, CLOSE);
        IndexBounds(buf, CLOSE);
        if j < 0 {
          return false;
        }
        buf := buf[j + |CLOSE|..];
        inFence := false;
        return true;
      }
      var i := Index(buf, OPEN);
      IndexBounds(buf, OPEN);
      if i >= 0 {
        Send(buf[..i]);
        buf := buf[i + |OPEN|..];
        inFence := true;
        return true;
      }
      var keep := PartialPrefixLen(buf, OPEN);
      PartialUnique(buf, OPEN, keep);
      PartialFits(buf, keep);
      Send(buf[..|buf| - keep]);
      buf := buf[|buf| - keep..];
      return false;
    }

    method Push(delta: string)
      requires Valid()
      modifies this
      ensures Valid() && pushed == old(pushed) + delta
      ensures old(sent) <= sent && old(emits) <= emits
    {
      hide Settle, Step, Whole;
      Continue(pushed, delta);
      ghost var target := Whole(pushed + delta);
      pushed := pushed + delta;
      buf := buf + delta;
      var again := true;
      while again
        invariant if again then Settle(State()) == target else State() == target
        invariant pushed == old(pushed) + delta && target == Whole(pushed)
        invariant old(sent) <= sent && old(emits) <= emits
        invariant Flatten(emits) == sent && "" !in emits
        decreases again, |buf|
      {
        SettleIs(State());
        again := Advance();
      }
    }
  }

  // ---------------------------------------------------------------- chunking invariance

  /** Text before the longest partial marker can take no part in any later marker. */
  lemma {:induction false} DropDecided(b: string, d: string)
    requires Index(b, OPEN) < 0
    ensures var cut := |b| - Partial(b, OPEN);
            && (Index(b + d, OPEN) < 0) == (Index(b[cut..] + d, OPEN) < 0)
            && (Index(b + d, OPEN) >= 0 ==> Index(b + d, OPEN) == cut + Index(b[cut..] + d, OPEN))
            && (Index(b + d, OPEN) < 0 ==> Partial(b + d, OPEN) == Partial(b[cut..] + d, OPEN))
  {
    hide Partial, Index;
    var cut := |b| - Partial(b, OPEN);
    var p, rest := b[..cut], b[cut..] + d;
    assert b + d == p + rest;
    forall k | 0 <= k < cut
      ensures !OccursAt(b + d, OPEN, k)
    {
      if k + |OPEN| <= |b| {
        OccursInPrefix(b, d, OPEN, k);
      } else if OccursAt(b + d, OPEN, k) {
        Straddles(b, d, k);
      }
    }
    forall k | cut <= k
      ensures OccursAt(b + d, OPEN, k) == OccursAt(rest, OPEN, k - cut)
    {
      OccursInSuffix(p, rest, OPEN, k);
    }
    var r := Index(rest, OPEN);
    IndexUnique(b + d, OPEN, if r < 0 then -1 else cut + r);
    PartialOfRest(b, d);
  }

  /** A marker that begins in `b` and ends behind it leaves a partial marker at the end of `b`. */
  lemma {:induction false} Straddles(b: string, d: string, k: nat)
    requires k < |b| < k + |OPEN| && OccursAt(b + d, OPEN, k)
    ensures EndsInPrefix(b, OPEN, |b| - k)
  {
    assert b[k..] == (b + d)[k..k + |OPEN|][..|b| - k];
  }

  lemma {:induction false} PartialOfRest(b: string, d: string)
    ensures var cut := |b| - Partial(b, OPEN);
            Partial(b + d, OPEN) == Partial(b[cut..] + d, OPEN)
  {
    hide Partial, EndsInPrefix;
    PartialFits(b, Partial(b, OPEN));
    var cut := |b| - Partial(b, OPEN);
    var p, rest := b[..cut], b[cut..] + d;
    assert b + d == p + rest;
    forall j: nat
      ensures EndsInPrefix(b + d, OPEN, j) <==> EndsInPrefix(rest, OPEN, j)
    {
      if j <= |rest| {
        ShorterPartial(p, rest, j);
      } else {
        PartialFits(rest, j);
        PartialFits(b + d, j);
        if EndsInPrefix(b + d, OPEN, j) {
          LongerPartial(b, d, j);
        }
      }
    }
    PartialUnique(b + d, OPEN, Partial(rest, OPEN));
  }

  lemma PartialFits(s: string, j: nat)
    ensures EndsInPrefix(s, OPEN, j) ==> j <= |s|
  {
  }

  lemma ShorterPartial(p: string, rest: string, j: nat)
    requires j <= |rest|
    ensures EndsInPrefix(p + rest, OPEN, j) <==> EndsInPrefix(rest, OPEN, j)
  {
    assert (p + rest)[|p + rest| - j..] == rest[|rest| - j..];
  }

  /** A partial marker that reaches back past `d` ends in a partial marker before `d`. */
  lemma {:induction false} LongerPartial(b: string, d: string, j: nat)
    requires EndsInPrefix(b + d, OPEN, j) && |d| <= j
    ensures EndsInPrefix(b, OPEN, j - |d|)
  {
    var m := j - |d|;
    assert b[|b| - m..] == (b + d)[|b + d| - j..][..m];
  }

  /** A turn that consumed a marker is not affected by text that arrives later. */
  lemma {:induction false} StepAgain(st: Scan, d: string)
    requires Step(st).again
    ensures Step(With(st, d)) == Turn(With(Step(st).st, d), true)
  {
    hide Step, Partial, Index, OccursAt, EndsInPrefix;
    StepIs(st);
    StepIs(With(st, d));
    var b := st.buf;
    var m := if st.inFence then CLOSE else OPEN;
    IndexStable(b, d, m);
    IndexBounds(b, m);
    var i := Index(b, m);
    assert (b + d)[i + |m|..] == b[i + |m|..] + d;
    assert (b + d)[..i] == b[..i];
  }

  /** A turn that had to stop loses nothing: the scanner resumes as if it had not run. */
  lemma {:induction false} StepStopped(st: Scan, d: string)
    requires !Step(st).again
    ensures Step(With(Step(st).st, d)) == Step(With(st, d))
  {
    hide Step, Partial, Index, OccursAt, EndsInPrefix, Outside;
    if st.inFence {
      StepIs(st);
    } else {
      StoppedOutside(st);
      var b := st.buf;
      var cut := |b| - Partial(b, OPEN);
      var head, held := b[..cut], b[cut..] + d;
      assert b + d == head + held;
      DropDecided(b, d);
      StepIs(With(st, d));
      StepIs(Scan(st.sent + head, held, false));
      IndexBounds(held, OPEN);
      IndexBounds(b + d, OPEN);
      PartialFits(held, Partial(held, OPEN));
      PartialFits(b + d, Partial(b + d, OPEN));
      OutsideShift(st.sent, head, held, Index(held, OPEN), Partial(held, OPEN),
                   Index(b + d, OPEN), Partial(b + d, OPEN));
    }
  }

  lemma {:induction false} OutsideShift(sent: string, head: string, held: string, i: int, keep: nat, later: int,
                                        kept: nat)
    requires i == -1 || 0 <= i <= |held| - |OPEN|
    requires keep <= |held| && kept <= |head + held|
    requires later == (if i < 0 then -1 else |head| + i) && (i < 0 ==> kept == keep)
    ensures Outside(sent + head, held, i, keep) == Outside(sent, head + held, later, kept)
  {
    var c := if i >= 0 then i else |held| - keep;
    assert (sent + head) + held[..c] == sent + (head + held)[..|head| + c];
    assert held[c..] == (head + held)[|head| + c..];
    if i >= 0 {
      assert held[i + |OPEN|..] == (head + held)[|head| + i + |OPEN|..];
    }
  }

  /** A turn outside a fence that found no marker. */
  lemma StoppedOutside(st: Scan)
    requires !Step(st).again && !st.inFence
    ensures Partial(st.buf, OPEN) <= |st.buf| && Index(st.buf, OPEN) < 0
    ensures var cut := |st.buf| - Partial(st.buf, OPEN);
            Step(st).st == Scan(st.sent + st.buf[..cut], st.buf[cut..], false)
  {
    hide Step, Partial, Index, OccursAt, EndsInPrefix;
    StepIs(st);
    PartialFits(st.buf, Partial(st.buf, OPEN));
  }

  /** Settling, then appending and settling again, is settling the longer text once. */
  lemma {:induction false} SettleAppend(st: Scan, d: string)
    ensures Feed(Settle(st), d) == Feed(st, d)
    decreases |st.buf|
  {
    hide Step;
    if Step(st).again {
      StepAgain(st, d);
      SettleAppend(Step(st).st, d);
    } else {
      StepStopped(st, d);
    }
  }

  lemma Continue(text: string, delta: string)
    ensures Feed(Whole(text), delta) == Whole(text + delta)
  {
    hide Settle;
    var start := Scan("", "", false);
    assert With(With(start, text), delta) == With(start, text + delta);
    SettleAppend(With(start, text), delta);
  }

  /** However a text is cut into pushes, the gate ends in the same state. */
  lemma {:induction false} ChunkingInvariance(deltas: seq<string>)
    ensures FeedAll(Scan("", "", false), deltas) == Whole(Flatten(deltas))
  {
    hide Settle;
    WholeOfNothing();
    ChunkingFrom("", deltas);
    assert "" + Flatten(deltas) == Flatten(deltas);
  }

  lemma {:induction false} ChunkingFrom(text: string, deltas: seq<string>)
    ensures FeedAll(Whole(text), deltas) == Whole(text + Flatten(deltas))
    decreases |deltas|
  {
    hide Settle;
    if deltas == [] {
      assert text + "" == text;
    } else {
      Continue(text, deltas[0]);
      ChunkingFrom(text + deltas[0], deltas[1..]);
      assert text + deltas[0] + Flatten(deltas[1..]) == text + Flatten(deltas);
    }
  }

  // ---------------------------------------------------------------- the offline clean-up

  /** A match of the pattern "open marker, anything, close marker" spanning [i, j + |CLOSE|). */
  ghost predicate IsFence(s: string, i: int, j: int) {
    OccursAt(s, OPEN, i) && i + |OPEN| <= j && OccursAt(s, CLOSE, j)
  }

  /** The match a leftmost, non-greedy search returns. */
  ghost predicate IsFirstFence(s: string, i: int, j: int) {
    && IsFence(s, i, j)
    && forall i', j' :: IsFence(s, i', j') ==> i < i' || (i == i' && j <= j')
  }

  datatype Match = NoMatch | Match(open: nat, close: nat)

  function FindFence(s: string): (f: Match)
    ensures f.Match? ==> f.open + |OPEN| <= f.close && f.close + |CLOSE| <= |s|
  {
    var i := Index(s, OPEN);
    if i < 0 then NoMatch else
      var j := Index(s[i + |OPEN|..], CLOSE);
      if j < 0 then NoMatch else Match(i, i + |OPEN| + j)
  }

  /** Searching for the first open marker and then for the first close marker behind it is
      the leftmost, non-greedy search. */
  lemma FindFenceIsFirst(s: string)
    ensures FindFence(s).NoMatch? ==> forall i, j :: !IsFence(s, i, j)
    ensures FindFence(s).Match? ==> IsFirstFence(s, FindFence(s).open, FindFence(s).close)
  {
    var i := Index(s, OPEN);
    if i >= 0 {
      OccursInRest(s, i + |OPEN|, CLOSE);
    }
  }

  lemma OccursInRest(s: string, at: nat, m: string)
    requires at <= |s|
    ensures forall k :: at <= k ==> OccursAt(s, m, k) == OccursAt(s[at..], m, k - at)
  {
    forall k | at <= k
      ensures OccursAt(s, m, k) == OccursAt(s[at..], m, k - at)
    {
      assert s == s[..at] + s[at..];
      OccursInSuffix(s[..at], s[at..], m, k);
    }
  }

  /** `toolCallRe.ReplaceAllString(s, "")`. */
  function Strip(s: string): string
    decreases |s|
  {
    match FindFence(s)
    case NoMatch => s
    case Match(i, j) => s[..i] + Strip(s[j + |CLOSE|..])
  }

  /** The contents of the fences, in order: the capture group of every match. */
  function Bodies(s: string): seq<string>
    decreases |s|
  {
    match FindFence(s)
    case NoMatch => []
    case Match(i, j) => [s[i + |OPEN|..j]] + Bodies(s[j + |CLOSE|..])
  }

  /** The call in one fence, or nothing when its content does not decode. */
  function CallIn<T>(body: string, decode: string -> Option<T>): seq<T> {
    match decode(TrimSpace(body))
    case None => []
    case Some(call) => [call]
  }

  function DecodeAll<T>(bodies: seq<string>, decode: string -> Option<T>): seq<T> {
    if bodies == [] then [] else CallIn(bodies[0], decode) + DecodeAll(bodies[1..], decode)
  }

  // ---------------------------------------------------------------- the fences of a text

  /** One match of the pattern, by where its markers stand in the text. */
  datatype Fence = Fence(open: nat, close: nat)

  /** Where the search for fence number `k` begins, the first one from `from` on. */
  function StartOf(from: nat, fences: seq<Fence>, k: nat): nat
    requires k <= |fences|
  {
    if k == 0 then from else fences[k - 1].close + |CLOSE|
  }

  ghost predicate IsNextFence(s: string, start: nat, f: Fence) {
    start <= f.open && start <= |s| && IsFirstFence(s[start..], f.open - start, f.close - start)
  }

  ghost predicate NoFence(s: string, start: nat) {
    start <= |s| && forall i, j :: !IsFence(s[start..], i, j)
  }

  /** Each fence is the first one behind the one before, and behind the last there is none. */
  ghost predicate AreFences(s: string, from: nat, fences: seq<Fence>) {
    && (forall k :: 0 <= k < |fences| ==> IsNextFence(s, StartOf(from, fences, k), fences[k]))
    && NoFence(s, StartOf(from, fences, |fences|))
  }

  /** The text from one place to another, if these are places of it. */
  function Piece(s: string, from: nat, to: nat): string {
    if from <= to <= |s| then s[from..to] else ""
  }

  function BodyOf(s: string, f: Fence): string {
    Piece(s, f.open + |OPEN|, f.close)
  }

  ghost predicate InText(s: string, from: nat, fences: seq<Fence>) {
    && (forall k :: 0 <= k < |fences| ==>
          StartOf(from, fences, k) <= fences[k].open && fences[k].open + |OPEN| <= fences[k].close <= |s|)
    && StartOf(from, fences, |fences|) <= |s|
  }

  /** What stands between the fences, from search number `k` on. */
  function OutsideFences(s: string, from: nat, fences: seq<Fence>, k: nat): string
    requires k <= |fences|
    decreases |fences| - k
  {
    var start := StartOf(from, fences, k);
    if k == |fences| then Piece(s, start, |s|)
    else Piece(s, start, fences[k].open) + OutsideFences(s, from, fences, k + 1)
  }

  /** The calls are those of the fences that decode: one each, and in order. */
  ghost predicate AreCalls<T>(decoded: seq<Option<T>>, at: seq<nat>, calls: seq<T>) {
    && |at| == |calls|
    && (forall i, j :: 0 <= i < j < |at| ==> at[i] < at[j])
    && (forall i :: 0 <= i < |at| ==> at[i] < |decoded| && decoded[at[i]] == Some(calls[i]))
    && (forall k: nat :: k < |decoded| && decoded[k].Some? ==> k in at)
  }

  /** What comes of decoding the contents of the fences, without surrounding space. */
  function Decodings<T>(text: string, fences: seq<Fence>, decode: string -> Option<T>): seq<Option<T>> {
    seq(|fences|, k requires 0 <= k < |fences| => decode(TrimSpace(BodyOf(text, fences[k]))))
  }

  /** What a text comes apart into: what stands outside its fences, trimmed, and the calls in them. */
  ghost predicate IsParsed<T>(text: string, decode: string -> Option<T>, clean: string, calls: seq<T>) {
    exists fences: seq<Fence>, at: seq<nat> ::
      && AreFences(text, 0, fences) && InText(text, 0, fences)
      && clean == TrimSpace(OutsideFences(text, 0, fences, 0))
      && AreCalls(Decodings(text, fences, decode), at, calls)
  }

  lemma NextFence(s: string, from: nat)
    requires from <= |s|
    ensures match FindFence(s[from..])
            case NoMatch => NoFence(s, from)
            case Match(i, j) => IsNextFence(s, from, Fence(from + i, from + j))
  {
    FindFenceIsFirst(s[from..]);
  }

  lemma {:induction false} FencesFrom(s: string, from: nat) returns (fences: seq<Fence>)
    requires from <= |s|
    ensures AreFences(s, from, fences) && InText(s, from, fences)
    ensures Strip(s[from..]) == OutsideFences(s, from, fences, 0)
    ensures AreBodies(s, fences, Bodies(s[from..]))
    decreases |s| - from
  {
    hide FindFence, IsFirstFence, IsFence, Strip, Bodies, BodyOf, AreFences, InText, OutsideFences, AreBodies,
         IsNextFence, NoFence;
    NextFence(s, from);
    StripTurn(s[from..]);
    BodiesAre(s[from..]);
    match FindFence(s[from..])
    case NoMatch =>
      fences := [];
      NoFencesLeft(s, from);
    case Match(i, j) =>
      var f := Fence(from + i, from + j);
      var next := f.close + |CLOSE|;
      CutFrom(s, from, i, j);
      var more := FencesFrom(s, next);
      fences := [f] + more;
      OneFenceMore(s, from, f, more);
      OneBodyMore(s, f, more, Bodies(s[next..]));
  }

  lemma CutFrom(s: string, from: nat, i: nat, j: nat)
    requires from <= |s| && i + |OPEN| <= j && j + |CLOSE| <= |s[from..]|
    ensures s[from..][j + |CLOSE|..] == s[from + j + |CLOSE|..]
    ensures s[from..][..i] == Piece(s, from, from + i)
    ensures s[from..][i + |OPEN|..j] == BodyOf(s, Fence(from + i, from + j))
  {
  }

  ghost predicate AreBodies(s: string, fences: seq<Fence>, bodies: seq<string>) {
    && |bodies| == |fences|
    && forall k :: 0 <= k < |bodies| ==>
         bodies[k] == BodyOf(s, fences[k])
  }

  lemma NoFencesLeft(s: string, from: nat)
    requires NoFence(s, from)
    ensures AreFences(s, from, []) && InText(s, from, []) && OutsideFences(s, from, [], 0) == s[from..]
    ensures AreBodies(s, [], [])
  {
    hide IsFence;
  }

  lemma StartBehind(from: nat, f: Fence, more: seq<Fence>, k: nat)
    requires k <= |more|
    ensures StartOf(from, [f] + more, k + 1) == StartOf(f.close + |CLOSE|, more, k)
  {
  }

  lemma {:induction false} OneFenceMore(s: string, from: nat, f: Fence, more: seq<Fence>)
    requires IsNextFence(s, from, f) && f.open + |OPEN| <= f.close && f.close + |CLOSE| <= |s|
    requires AreFences(s, f.close + |CLOSE|, more) && InText(s, f.close + |CLOSE|, more)
    ensures AreFences(s, from, [f] + more) && InText(s, from, [f] + more)
    ensures OutsideFences(s, from, [f] + more, 0)
         == Piece(s, from, f.open) + OutsideFences(s, f.close + |CLOSE|, more, 0)
  {
    hide IsNextFence, NoFence, StartOf, OutsideFences, Piece;
    var fences := [f] + more;
    forall k | 0 <= k < |fences|
      ensures IsNextFence(s, StartOf(from, fences, k), fences[k])
      ensures StartOf(from, fences, k) <= fences[k].open && fences[k].open + |OPEN| <= fences[k].close <= |s|
    {
      if k == 0 {
        StartAt(from, f, more);
        NextIsBehind(s, from, f);
      } else {
        StartBehind(from, f, more, k - 1);
        assert fences[k] == more[k - 1];
      }
    }
    StartBehind(from, f, more, |more|);
    ShiftOutside(s, from, f, more, 0);
    FirstOutside(s, from, f, more);
  }

  lemma StartAt(from: nat, f: Fence, more: seq<Fence>)
    ensures StartOf(from, [f] + more, 0) == from
  {
  }

  lemma FirstOutside(s: string, from: nat, f: Fence, more: seq<Fence>)
    ensures OutsideFences(s, from, [f] + more, 0) == Piece(s, from, f.open) + OutsideFences(s, from, [f] + more, 1)
  {
    StartAt(from, f, more);
    assert ([f] + more)[0] == f;
  }

  lemma NextIsBehind(s: string, from: nat, f: Fence)
    requires IsNextFence(s, from, f)
    ensures from <= f.open
  {
  }

  lemma OneBodyMore(s: string, f: Fence, more: seq<Fence>, bodies: seq<string>)
    requires f.open + |OPEN| <= f.close <= |s| && AreBodies(s, more, bodies)
    ensures AreBodies(s, [f] + more, [BodyOf(s, f)] + bodies)
  {
  }

  lemma {:induction false} ShiftOutside(s: string, from: nat, f: Fence, more: seq<Fence>, k: nat)
    requires k <= |more|
    ensures OutsideFences(s, from, [f] + more, k + 1) == OutsideFences(s, f.close + |CLOSE|, more, k)
    decreases |more| - k
  {
    hide StartOf, Piece;
    var fences := [f] + more;
    StartBehind(from, f, more, k);
    if k < |more| {
      assert fences[k + 1] == more[k];
      ShiftOutside(s, from, f, more, k + 1);
    }
  }

  lemma {:induction false} Decoded<T>(bodies: seq<string>, decode: string -> Option<T>)
      returns (decoded: seq<Option<T>>, at: seq<nat>)
    ensures |decoded| == |bodies| && forall k :: 0 <= k < |decoded| ==> decoded[k] == decode(TrimSpace(bodies[k]))
    ensures AreCalls(decoded, at, DecodeAll(bodies, decode))
    decreases |bodies|
  {
    hide TrimSpace, AreCalls, DecodeAll, CallIn;
    decoded, at := [], [];
    if bodies == [] {
      NoCalls(decode);
    } else {
      var n := |bodies| - 1;
      var init, body := bodies[..n], bodies[n];
      assert bodies == init + [body];
      DecodeSnoc(init, body, decode);
      decoded, at := Decoded(init, decode);
      CallInIs(body, decode);
      var d := decode(TrimSpace(body));
      OneMoreDecoded(decoded, at, DecodeAll(init, decode), d);
      decoded, at := decoded + [d], at + if d.Some? then [n] else [];
    }
  }

  lemma NoCalls<T>(decode: string -> Option<T>)
    ensures AreCalls([], [], DecodeAll([], decode))
  {
  }

  lemma CallInIs<T>(body: string, decode: string -> Option<T>)
    ensures var d := decode(TrimSpace(body)); CallIn(body, decode) == if d.Some? then [d.value] else []
  {
    hide TrimSpace;
  }

  lemma OneMoreDecoded<T>(decoded: seq<Option<T>>, at: seq<nat>, calls: seq<T>, d: Option<T>)
    requires AreCalls(decoded, at, calls)
    ensures AreCalls(decoded + [d], at + (if d.Some? then [|decoded|] else []),
                     calls + if d.Some? then [d.value] else [])
  {
    var n := |decoded|;
    assert (at + [n])[|at|] == n;
  }

  lemma {:induction false} DecodeSnoc<T>(bodies: seq<string>, body: string, decode: string -> Option<T>)
    ensures DecodeAll(bodies + [body], decode) == DecodeAll(bodies, decode) + CallIn(body, decode)
  {
    hide TrimSpace, CallIn;
    if bodies == [] {
      assert bodies + [body] == [body] && [body][1..] == [];
      assert DecodeAll([], decode) == [];
    } else {
      DecodeSnoc(bodies[1..], body, decode);
      assert (bodies + [body])[1..] == bodies[1..] + [body];
    }
  }

  /** The text without its fences, and the calls they hold. */
  lemma {:induction false} ParsedIs<T>(text: string, decode: string -> Option<T>)
    ensures IsParsed(text, decode, TrimSpace(Strip(text)), DecodeAll(Bodies(text), decode))
  {
    hide Strip, Bodies, TrimSpace, DecodeAll, AreFences, InText, AreCalls, OutsideFences, BodyOf;
    assert text[0..] == text;
    var fences := FencesFrom(text, 0);
    var decoded, at := Decoded(Bodies(text), decode);
    assert decoded == Decodings(text, fences, decode);
  }

  /** `parseToolCalls`; `decode` stands for the JSON decoding of one call. */
  method ParseToolCalls<T>(text: string, decode: string -> Option<T>) returns (clean: string, calls: seq<T>)
    ensures clean == TrimSpace(Strip(text))
    ensures calls == DecodeAll(Bodies(text), decode)
    ensures IsParsed(text, decode, clean, calls)
  {
    clean, calls := "", [];
    var rest := text;
    hide FindFence, Strip, Bodies, DecodeAll, TrimSpace, TrimLeft, TrimRight, IsParsed;
    while true
      invariant clean + Strip(rest) == Strip(text)
      invariant calls + DecodeAll(Bodies(rest), decode) == DecodeAll(Bodies(text), decode)
      decreases |rest|
    {
      StripTurn(rest);
      BodiesTurn(rest, decode);
      var m := FindFence(rest);
      if m.NoMatch? {
        break;
      }
      var body, after := rest[m.open + |OPEN|..m.close], rest[m.close + |CLOSE|..];
      Assoc(clean, rest[..m.open], Strip(after));
      Assoc(calls, CallIn(body, decode), DecodeAll(Bodies(after), decode));
      match decode(TrimSpace(body)) {
        case None =>
          assert calls + [] == calls;
        case Some(call) =>
          calls := calls + [call];
      }
      clean := clean + rest[..m.open];
      rest := after;
    }
    clean := TrimSpace(clean + rest);
    ParsedIs(text, decode);
  }

  lemma Assoc<T>(a: seq<T>, b: seq<T>, c: seq<T>)
    ensures (a + b) + c == a + (b + c)
  {
  }

  lemma {:induction false} DecodeCons<T>(body: string, rest: seq<string>, decode: string -> Option<T>)
    ensures DecodeAll([body] + rest, decode) == CallIn(body, decode) + DecodeAll(rest, decode)
  {
    assert ([body] + rest)[1..] == rest;
  }

  lemma BodiesAre(s: string)
    ensures var m := FindFence(s);
            Bodies(s) == if m.NoMatch? then [] else [s[m.open + |OPEN|..m.close]] + Bodies(s[m.close + |CLOSE|..])
  {
    hide FindFence;
  }

  lemma {:induction false} BodiesTurn<T>(s: string, decode: string -> Option<T>)
    ensures var m := FindFence(s);
            DecodeAll(Bodies(s), decode) ==
            if m.NoMatch? then []
            else CallIn(s[m.open + |OPEN|..m.close], decode) + DecodeAll(Bodies(s[m.close + |CLOSE|..]), decode)
  {
    hide FindFence, CallIn, Bodies;
    BodiesAre(s);
    var m := FindFence(s);
    if m.Match? {
      DecodeCons(s[m.open + |OPEN|..m.close], Bodies(s[m.close + |CLOSE|..]), decode);
    }
  }

  // ---------------------------------------------------------------- online agrees with offline

  /** Text before the first open marker takes no part in any fence. */
  lemma {:induction false} FindFromMarker(s: string, i: nat)
    requires Index(s, OPEN) == i
    ensures FindFence(s[i..]) == match FindFence(s)
                                 case NoMatch => NoMatch
                                 case Match(o, c) => Match(o - i, c - i)
    ensures FindFence(s).Match? ==> FindFence(s).open == i
  {
    var t := s[i..];
    assert t[0..|OPEN|] == s[i..i + |OPEN|];
    IndexUnique(t, OPEN, 0);
    assert t[|OPEN|..] == s[i + |OPEN|..];
  }

  lemma {:induction false} StripFromMarker(s: string, i: nat)
    requires Index(s, OPEN) == i
    ensures Strip(s) == s[..i] + Strip(s[i..])
  {
    hide FindFence, Index, IndexFrom, Strip;
    FindFromMarker(s, i);
    StripTurn(s);
    StripTurn(s[i..]);
    match FindFence(s)
    case NoMatch =>
      assert s == s[..i] + s[i..];
    case Match(o, c) =>
      var t, kept := s[i..], Strip(s[c + |CLOSE|..]);
      assert t[c - i + |CLOSE|..] == s[c + |CLOSE|..];
      assert t[..0] == "" && "" + kept == kept;
  }

  lemma {:induction false} StripOpened(b: string)
    ensures var j := Index(b, CLOSE);
            Strip(OPEN + b) == if j < 0 then OPEN + b else Strip(b[j + |CLOSE|..])
  {
    hide Index, Strip;
    var s := OPEN + b;
    assert s[0..|OPEN|] == OPEN;
    IndexUnique(s, OPEN, 0);
    assert s[|OPEN|..] == b;
    StripTurn(s);
    var j := Index(b, CLOSE);
    if j >= 0 {
      assert FindFence(s) == Match(0, |OPEN| + j);
      assert s[|OPEN| + j + |CLOSE|..] == b[j + |CLOSE|..];
      assert s[..0] == "" && "" + Strip(b[j + |CLOSE|..]) == Strip(b[j + |CLOSE|..]);
    }
  }

  lemma StripTurn(s: string)
    ensures var m := FindFence(s);
            Strip(s) == if m.NoMatch? then s else s[..m.open] + Strip(s[m.close + |CLOSE|..])
  {
  }

  lemma {:induction false} StepKeepsText(st: Scan)
    ensures var t := Step(st);
            if t.again then t.st.sent + Strip(t.st.Pending()) == st.sent + Strip(st.Pending())
            else t.st.sent + t.st.Pending() == st.sent + Strip(st.Pending())
  {
    hide Step, Settle, Partial, Index, FindFence, Strip;
    SettleTurn(st);
    var b := st.buf;
    if st.inFence {
      StripOpened(b);
    } else {
      var i := Index(b, OPEN);
      if i >= 0 {
        StripFromMarker(b, i);
        assert OPEN + b[i + |OPEN|..] == b[i..];
        Assoc(st.sent, b[..i], Strip(b[i..]));
      } else {
        StripNothing(b);
        var cut := |b| - Partial(b, OPEN);
        assert b == b[..cut] + b[cut..];
        Assoc(st.sent, b[..cut], b[cut..]);
      }
    }
  }

  lemma StripNothing(b: string)
    requires Index(b, OPEN) < 0
    ensures Strip(b) == b
  {
  }

  lemma {:induction false} SettleKeepsText(st: Scan)
    ensures Settle(st).sent + Settle(st).Pending() == st.sent + Strip(st.Pending())
    decreases |st.buf|
  {
    hide Step, Strip;
    StepKeepsText(st);
    if Step(st).again {
      SettleKeepsText(Step(st).st);
    }
  }

  /** The gate refines the regular expression: what was sent, followed by what is still held,
      is the text with every complete fence cut out. */
  lemma {:induction false} GateRefinesStrip(text: string)
    ensures Whole(text).sent + Whole(text).Pending() == Strip(text)
  {
    hide Settle, Strip;
    SettleKeepsText(With(Scan("", "", false), text));
    assert "" + text == text;
  }

  lemma {:induction false} SettleGrows(st: Scan)
    ensures st.sent <= Settle(st).sent
    decreases |st.buf|
  {
    hide Step;
    if Step(st).again {
      SettleGrows(Step(st).st);
    }
  }

  lemma {:induction false} SentGrows(text: string, more: string)
    ensures Whole(text).sent <= Whole(text + more).sent
  {
    hide Settle;
    Continue(text, more);
    SettleGrows(With(Whole(text), more));
  }

  /** Text that turns everything still held into a complete fence. */
  function Completion(st: Scan): string {
    if st.inFence then " " + CLOSE
    else OPEN[if |st.buf| <= |OPEN| then |st.buf| else 0..] + " " + CLOSE
  }

  /** What every reachable state looks like: no marker is complete in the held text. */
  ghost predicate Settled(st: Scan) {
    if st.inFence then Index(st.buf, CLOSE) < 0
    else |st.buf| < |OPEN| && st.buf == OPEN[..|st.buf|]
  }

  lemma {:induction false} SettleSettles(st: Scan)
    ensures Settled(Settle(st))
    decreases |st.buf|
  {
    if Step(st).again {
      SettleSettles(Step(st).st);
    }
  }

  lemma {:induction false} CloseAfterSpace(b: string)
    requires Index(b, CLOSE) < 0
    ensures Index(b + (" " + CLOSE), CLOSE) == |b| + 1
  {
    var s := b + (" " + CLOSE);
    assert s[|b| + 1..|b| + 1 + |CLOSE|] == CLOSE;
    forall k | 0 <= k < |b| + 1
      ensures !OccursAt(s, CLOSE, k)
    {
      if k + |CLOSE| <= |b| {
        OccursInPrefix(b, " " + CLOSE, CLOSE, k);
      } else {
        assert s[k..k + |CLOSE|][|b| - k] == ' ';
      }
    }
    IndexUnique(s, CLOSE, |b| + 1);
  }

  lemma {:induction false} CompletionOpens(st: Scan)
    requires Settled(st) && !st.inFence
    ensures Step(With(st, Completion(st))) == Turn(Scan(st.sent, " " + CLOSE, true), true)
  {
    hide Index, Partial;
    var full := st.buf + Completion(st);
    assert full == OPEN + (" " + CLOSE) by {
      assert OPEN == OPEN[..|st.buf|] + OPEN[|st.buf|..];
    }
    assert full[|OPEN|..] == " " + CLOSE;
    assert full[0..|OPEN|] == OPEN;
    IndexUnique(full, OPEN, 0);
    assert st.sent + full[..0] == st.sent;
  }

  lemma {:induction false} CompletionDrains(st: Scan)
    requires Settled(st)
    ensures Feed(st, Completion(st)) == Scan(st.sent, "", false)
  {
    if st.inFence {
      CompletionInside(st);
    } else {
      hide Step, Completion;
      CompletionOpens(st);
      SettleTurn(With(st, Completion(st)));
      assert "" + (" " + CLOSE) == " " + CLOSE;
      CompletionInside(Scan(st.sent, "", true));
    }
  }

  lemma {:induction false} CompletionInside(st: Scan)
    requires Settled(st) && st.inFence
    ensures Feed(st, " " + CLOSE) == Scan(st.sent, "", false)
  {
    CloseAfterSpace(st.buf);
    var full := st.buf + (" " + CLOSE);
    assert full[|st.buf| + 1 + |CLOSE|..] == "";
    SettleTurn(With(st, " " + CLOSE));
    SettleTurn(Scan(st.sent, "", false));
    assert st.sent + "" == st.sent;
    assert Partial("", OPEN) == 0;
  }

  /** What the gate has sent is safe whatever arrives later, and nothing longer would be:
      it is exactly the part every continuation's cleaned text starts with. */
  lemma {:induction false} GateIsOptimal(text: string, c: string)
    ensures c <= Whole(text).sent <==> forall more: string :: c <= Strip(text + more)
  {
    hide Settle, Strip;
    if c <= Whole(text).sent {
      forall more: string
        ensures c <= Strip(text + more)
      {
        SentGrows(text, more);
        GateRefinesStrip(text + more);
      }
    }
    if forall more: string :: c <= Strip(text + more) {
      var st := Whole(text);
      var more := Completion(st);
      SettleSettles(With(Scan("", "", false), text));
      CompletionDrains(st);
      Continue(text, more);
      GateRefinesStrip(text + more);
      assert c <= Strip(text + more);
    }
  }
}
