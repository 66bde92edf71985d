/** From cumulative upstream frames to what the client has seen: `deltaTracker`, the fence
    gate, and the tail the handler sends at the end. A frame is the text of one upstream
    line; code-execution artefacts are not part of this model, so cleaning is trimming. */
module StreamPipeline {
  import opened Options
  import opened Text
  import opened FenceGate

  // ---------------------------------------------------------------- deltaTracker

  /** What has been emitted once `fullText` has been seen. */
  function Track(emitted: string, fullText: string): (r: string)
    ensures emitted <= r
  {
    var cleaned := TrimSpace(fullText);
    if |cleaned| <= |emitted| || !(emitted <= cleaned) then emitted else cleaned
  }

  function TrackAll(emitted: string, frames: seq<string>): string
    decreases |frames|
  {
    if frames == [] then emitted else TrackAll(Track(emitted, frames[0]), frames[1..])
  }

  class DeltaTracker {
    var emitted: string

    constructor ()
      ensures emitted == ""
    {
      emitted := "";
    }

    method Push(fullText: string) returns (delta: string)
      modifies this
      ensures emitted == Track(old(emitted), fullText)
      ensures emitted == old(emitted) + delta
      // something is emitted exactly if the trimmed frame goes on where the emitted text ends, and then it
      // is all that the frame adds
      ensures delta != "" <==> old(emitted) <= TrimSpace(fullText) != old(emitted)
      ensures delta != "" ==> emitted == TrimSpace(fullText)
    {
      hide TrimSpace;
      var cleaned := TrimSpace(fullText);
      if |cleaned| <= |emitted| || !(emitted <= cleaned) {
        return "";
      }
      delta := cleaned[|emitted|..];
      emitted := cleaned;
    }
  }

  /** Every frame repeats the one before it and adds to it. */
  ghost predicate IsChain(frames: seq<string>) {
    forall i, j :: 0 <= i <= j < |frames| ==> frames[i] <= frames[j]
  }

  lemma {:induction false} TrackSnoc(emitted: string, frames: seq<string>, last: string)
    ensures TrackAll(emitted, frames + [last]) == Track(TrackAll(emitted, frames), last)
    decreases |frames|
  {
    if frames == [] {
      assert (frames + [last])[1..] == [];
    } else {
      assert (frames + [last])[1..] == frames[1..] + [last];
      TrackSnoc(Track(emitted, frames[0]), frames[1..], last);
    }
  }

  /** Over cumulative frames nothing is skipped: the deltas add up to the trimmed last frame. */
  lemma {:induction false} ChainIsTracked(frames: seq<string>)
    requires frames != [] && IsChain(frames)
    ensures TrackAll("", frames) == TrimSpace(frames[|frames| - 1])
    decreases |frames|
  {
    hide TrimSpace;
    var n := |frames| - 1;
    var before, last := frames[..n], frames[n];
    assert frames == before + [last];
    TrackSnoc("", before, last);
    if n > 0 {
      ChainIsTracked(before);
      TrimMonotone(before[n - 1], last);
    }
  }

  // ---------------------------------------------------------------- the complete reply

  /** The last text that is not blank, trimmed; "" when all are blank. */
  function LastText(texts: seq<string>): string
    decreases |texts|
  {
    if texts == [] then ""
    else
      var last := texts[|texts| - 1];
      if TrimSpace(last) != "" then TrimSpace(last) else LastText(texts[..|texts| - 1])
  }

  /** Nothing behind place `k` is more than white space, and what stands there is. */
  ghost predicate IsLastAt(texts: seq<string>, k: nat) {
    k < |texts| && !Blank(texts[k]) && forall j :: k < j < |texts| ==> Blank(texts[j])
  }

  ghost predicate AllBlank(texts: seq<string>) {
    forall k :: 0 <= k < |texts| ==> Blank(texts[k])
  }

  ghost predicate IsLastText(texts: seq<string>, text: string) {
    if AllBlank(texts) then text == "" else exists k: nat :: IsLastAt(texts, k) && text == TrimSpace(texts[k])
  }

  lemma {:induction false} LastTextIs(texts: seq<string>)
    ensures IsLastText(texts, LastText(texts)) && (LastText(texts) == "" <==> AllBlank(texts))
    decreases |texts|
  {
    hide TrimSpace, Blank;
    if texts != [] {
      var n := |texts| - 1;
      BlankIffTrimsAway(texts[n]);
      if Blank(texts[n]) {
        LastTextIs(texts[..n]);
        if k: nat :| IsLastAt(texts[..n], k) && LastText(texts[..n]) == TrimSpace(texts[..n][k]) {
          assert IsLastAt(texts, k);
        }
      } else {
        assert IsLastAt(texts, n);
      }
    }
  }

  method ExtractResponseText(texts: seq<string>) returns (text: string)
    ensures text == LastText(texts) && IsLastText(texts, text)
  {
    LastTextIs(texts);
    hide TrimSpace, IsLastText;
    var i := |texts|;
    assert texts[..i] == texts;
    while i > 0
      invariant 0 <= i <= |texts|
      invariant LastText(texts[..i]) == LastText(texts)
    {
      i := i - 1;
      assert texts[..i + 1][..i] == texts[..i];
      if TrimSpace(texts[i]) != "" {
        return TrimSpace(texts[i]);
      }
    }
    return "";
  }

  lemma {:induction false} LastOfChain(frames: seq<string>)
    requires frames != [] && IsChain(frames)
    ensures LastText(frames) == TrimSpace(frames[|frames| - 1])
    decreases |frames|
  {
    hide TrimSpace;
    var n := |frames| - 1;
    if TrimSpace(frames[n]) == "" && n > 0 {
      TrimMonotone(frames[n - 1], frames[n]);
      LastOfChain(frames[..n]);
    }
  }

  /** Length in UTF-8 bytes, which is what Go's `len` compares. */
  function ByteLen(s: string): nat {
    if s == "" then 0
    else
      var c := s[0];
      (if c < '\U{80}' then 1 else if c < '\U{800}' then 2 else if c < '\U{10000}' then 3 else 4) + ByteLen(s[1..])
  }

  /** The first of the longest texts. */
  function Longest(texts: seq<string>): string
    decreases |texts|
  {
    if texts == [] then ""
    else
      var best, last := Longest(texts[..|texts| - 1]), texts[|texts| - 1];
      if ByteLen(last) > ByteLen(best) then last else best
  }

  /** How many characters are not below `c`. */
  function AtLeast(s: string, c: char): nat {
    if s == "" then 0 else (if s[0] >= c then 1 else 0) + AtLeast(s[1..], c)
  }

  /** One byte for each character, and one more at each of three thresholds. */
  lemma {:induction false} ByteLenIs(s: string)
    ensures ByteLen(s) == |s| + AtLeast(s, '\U{80}') + AtLeast(s, '\U{800}') + AtLeast(s, '\U{10000}')
  {
    if s != "" {
      ByteLenIs(s[1..]);
    }
  }

  /** None is longer, and none before it as long. */
  ghost predicate IsFirstLongest(texts: seq<string>, k: nat) {
    && k < |texts| && (forall j :: 0 <= j < |texts| ==> ByteLen(texts[j]) <= ByteLen(texts[k]))
    && forall j :: 0 <= j < k ==> ByteLen(texts[j]) < ByteLen(texts[k])
  }

  lemma {:induction false} LongestIs(texts: seq<string>) returns (k: nat)
    requires texts != []
    ensures IsFirstLongest(texts, k) && Longest(texts) == texts[k]
    decreases |texts|
  {
    hide ByteLen;
    var n := |texts| - 1;
    var last := texts[n];
    ByteLenOfPrefix("", last);
    assert ByteLen("") == 0 by {
      ByteLenIs("");
    }
    k := n;
    if n > 0 {
      var before := texts[..n];
      var j := LongestIs(before);
      if ByteLen(last) <= ByteLen(before[j]) {
        k := j;
      }
    }
  }

  method ExtractReasoning(texts: seq<string>) returns (reasoning: string)
    ensures reasoning == TrimSpace(Longest(texts))
    ensures texts != [] ==> exists k: nat :: IsFirstLongest(texts, k) && reasoning == TrimSpace(texts[k])
  {
    if texts != [] {
      var k := LongestIs(texts);
    }
    hide TrimSpace, IsFirstLongest;
    var best := "";
    for i := 0 to |texts|
      invariant best == Longest(texts[..i])
    {
      assert texts[..i + 1][..i] == texts[..i];
      if ByteLen(texts[i]) > ByteLen(best) {
        best := texts[i];
      }
    }
    assert texts[..|texts|] == texts;
    return TrimSpace(best);
  }

  lemma {:induction false} ByteLenOfPrefix(a: string, b: string)
    requires a <= b
    ensures ByteLen(a) <= ByteLen(b)
    ensures ByteLen(a) == ByteLen(b) ==> a == b
  {
    if a != "" {
      ByteLenOfPrefix(a[1..], b[1..]);
      assert a == [a[0]] + a[1..] && b == [b[0]] + b[1..];
    }
  }

  lemma {:induction false} LongestOfChain(frames: seq<string>)
    requires frames != [] && IsChain(frames)
    ensures Longest(frames) == frames[|frames| - 1]
    decreases |frames|
  {
    var n := |frames| - 1;
    if n > 0 {
      LongestOfChain(frames[..n]);
      ByteLenOfPrefix(frames[n - 1], frames[n]);
    } else {
      ByteLenOfPrefix("", frames[n]);
    }
  }

  /** `remainingOf`: the tail not sent yet, or nothing when what was sent is no prefix. */
  function RemainingOf(full: string, emitted: string): string {
    if emitted == "" then full
    else if emitted <= full then full[|emitted|..]
    else ""
  }

  /** Everything the client receives: what was streamed, then the tail. */
  function ClientText(sent: string, text: string): string {
    sent + RemainingOf(text, sent)
  }

  /** The client ends up with exactly the final text when what it was sent is a prefix of it,
      and is otherwise left with just what it was sent: nothing is ever sent twice. */
  lemma ClientGetsTextIffPrefix(sent: string, text: string)
    ensures ClientText(sent, text) == text <==> sent <= text
    ensures !(sent <= text) ==> ClientText(sent, text) == sent
  {
    assert sent + "" == sent;
  }

  // ---------------------------------------------------------------- streamed against non-streamed

  /** Behind the gate the client's text agrees with the non-streamed text, up to surrounding
      white space, exactly when the gate had sent nothing, or had not started with white
      space, or was holding nothing back at the end. In the remaining case the part held
      back is lost. */
  lemma {:induction false} GatedAgreement(full: string)
    ensures var st := Whole(full);
            var text := TrimSpace(Strip(full));
            TrimSpace(ClientText(st.sent, text)) == text
            <==> st.sent == "" || !IsSpace(st.sent[0]) || st.Pending() == ""
  {
    hide Settle, Step, Strip;
    var st := Whole(full);
    GateRefinesStrip(full);
    SettleSettles(With(Scan("", "", false), full));
    PendingIsVisible(st);
    AgreementOf(st.sent, st.Pending());
  }

  /** Held text always contains a back-tick, so it is never just white space. */
  lemma PendingIsVisible(st: Scan)
    requires Settled(st)
    ensures st.Pending() == "" || !IsSpace(st.Pending()[0])
  {
  }

  lemma {:induction false} AgreementOf(sent: string, pending: string)
    requires pending == "" || !IsSpace(pending[0])
    ensures var text := TrimSpace(sent + pending);
            TrimSpace(ClientText(sent, text)) == text
            <==> sent == "" || !IsSpace(sent[0]) || pending == ""
  {
    var all := sent + pending;
    var text := TrimSpace(all);
    ClientGetsTextIffPrefix(sent, text);
    if sent != "" && pending == "" {
      assert all == sent;
      TrimTwice(all);
    } else if sent != "" && !IsSpace(sent[0]) {
      SentOrBlankMore(sent, pending);
      TrimTwice(all);
    } else if sent == "" {
      TrimTwice(all);
    } else {
      LeadingSpaceLoses(sent, pending);
    }
  }

  lemma {:induction false} SentOrBlankMore(sent: string, pending: string)
    requires sent != "" && !IsSpace(sent[0])
    requires pending == "" || !IsSpace(pending[0])
    ensures sent <= TrimSpace(sent + pending) || TrimSpace(sent) == TrimSpace(sent + pending)
  {
    hide TrimSpace;
    if pending != "" {
      KeepsPending("", sent, pending);
      assert "" + (sent + pending) == sent + pending;
      assert (sent + pending[..1])[..|sent|] == sent;
    } else {
      assert sent + pending == sent;
    }
  }

  /** Trimming cannot reach past the first held character. */
  lemma {:induction false} KeepsPending(lead: string, core: string, pending: string)
    requires Blank(lead) && (core == "" || !IsSpace(core[0]))
    requires pending != "" && !IsSpace(pending[0])
    ensures core + pending[..1] <= TrimSpace(lead + (core + pending))
  {
    var kept, more := core + pending[..1], pending[1..];
    assert core + pending == kept + more;
    TrimLeftIs(lead, core + pending);
    TrimRightKeeps(kept, more);
  }

  lemma {:induction false} LeadingSpaceLoses(sent: string, pending: string)
    requires sent != "" && IsSpace(sent[0])
    requires pending != "" && !IsSpace(pending[0])
    ensures var text := TrimSpace(sent + pending);
            !(sent <= text) && TrimSpace(sent) != text
  {
    var l := TrimLeft(sent);
    var lead := sent[..|sent| - |l|];
    assert sent + pending == lead + (l + pending);
    KeepsPending(lead, l, pending);
    assert |TrimSpace(sent)| <= |l|;
  }

  const FENCE: string := "```tool_call ```"

  lemma DrainedByFence(st: Scan)
    requires st.buf == "" && !st.inFence
    ensures Feed(st, FENCE) == Scan(st.sent, "", false)
  {
    assert Settled(st) && Completion(st) == FENCE;
    CompletionDrains(st);
  }

  lemma AfterOneFence(rest: string)
    ensures Whole(FENCE + rest) == Feed(Scan("", "", false), rest)
  {
    hide Settle, With, Feed, Whole;
    WholeOfNothing();
    DrainedByFence(Scan("", "", false));
    Continue("", FENCE);
    assert "" + FENCE == FENCE;
    Continue(FENCE, rest);
  }

  lemma HeldBackTick()
    ensures Feed(Scan("", "", false), "\n`") == Scan("\n", "`", false)
  {
    var st := Scan("", "\n`", false);
    assert "" + "\n`" == "\n`";
    assert EndsInPrefix("\n`", OPEN, 1);
    hide Partial;
    PartialUnique("\n`", OPEN, 1);
    assert Index("\n`", OPEN) < 0;
    SettleTurn(st);
  }

  /** The losing case exists: a fence, then a line that ends in one back-tick. */
  lemma TailCanBeLost()
    ensures var full := "```tool_call ```" + "\n`";
            var st := Whole(full);
            && st == Scan("\n", "`", false)
            && TrimSpace(Strip(full)) == "`"
            && ClientText(st.sent, "`") == "\n"
  {
    hide Settle, Strip, TrimSpace;
    AfterOneFence("\n`");
    HeldBackTick();
    GateRefinesStrip("```tool_call ```" + "\n`");
    TrimIs("\n", "`", "");
    assert "\n" + "`" + "" == "\n" + "`";
  }

  /** Two fences with a line break between them: the break is sent, and nothing is left of the
      text in the end. */
  lemma BlankBetweenFences()
    ensures var full := FENCE + "\n" + FENCE;
            && Whole(full) == Scan("\n", "", false)
            && TrimSpace(full) == full && TrimSpace(Strip(full)) == "" && Bodies(full) != []
  {
    var first, full := FENCE + "\n", FENCE + "\n" + FENCE;
    hide Settle, Strip, TrimSpace, Completion, Bodies;
    AfterOneFence("\n");
    BreakIsSent();
    Continue(first, FENCE);
    DrainedByFence(Scan("\n", "", false));
    GateRefinesStrip(full);
    TrimIs("\n", "", "");
    assert "\n" + "" + "" == "\n" + "";
    TrimIs("", full, "");
    assert "" + full + "" == full;
    FirstFence(full);
  }

  lemma BreakIsSent()
    ensures Feed(Scan("", "", false), "\n") == Scan("\n", "", false)
  {
    var st := Scan("", "\n", false);
    assert "" + "\n" == "\n";
    assert !EndsInPrefix("\n", OPEN, 1) by {
      assert "\n"[0..][0] == '\n' && OPEN[..1][0] == '`';
    }
    hide Partial;
    PartialUnique("\n", OPEN, 0);
    assert Index("\n", OPEN) < 0;
    SettleTurn(st);
  }

  lemma FirstFence(full: string)
    requires FENCE <= full
    ensures Bodies(full) != []
  {
    assert full[0..|OPEN|] == OPEN;
    assert full[|OPEN| + 1..|OPEN| + 1 + |CLOSE|] == CLOSE;
    assert IsFence(full, 0, |OPEN| + 1);
    FindFenceIsFirst(full);
  }

  // ---------------------------------------------------------------- end to end

  datatype Reply<+T> = NoContent | Reply(text: string, calls: seq<T>)

  /** What a non-streamed request returns for these frames (`callGemini`, and `callGeminiConv` when
      `multiTurn`): a text of nothing but undecodable fences is a reply to the one and none to the
      other. */
  function NonStreamed<T>(frames: seq<string>, hasTools: bool, multiTurn: bool, decode: string -> Option<T>): Reply<T> {
    var full := LastText(frames);
    if full == "" then NoContent
    else if hasTools then
      var text, calls := TrimSpace(Strip(full)), DecodeAll(Bodies(full), decode);
      if multiTurn && text == "" && calls == [] then NoContent else Reply(text, calls)
    else Reply(full, [])
  }

  /** The reply in the frames, told without the functions that find it: none if all frames are blank, or
      in a chat if nothing is left of the last one without its fences, text or call. */
  ghost predicate IsReply<T>(frames: seq<string>, hasTools: bool, multiTurn: bool, decode: string -> Option<T>,
                             reply: Reply<T>) {
    if AllBlank(frames) then reply.NoContent?
    else exists full: string :: IsLastText(frames, full) && IsReplyIn(full, hasTools, multiTurn, decode, reply)
  }

  ghost predicate IsReplyIn<T>(full: string, hasTools: bool, multiTurn: bool, decode: string -> Option<T>,
                               reply: Reply<T>) {
    if !hasTools then reply == Reply(full, [])
    else if reply.NoContent? then multiTurn && IsParsed(full, decode, "", [])
    else
      && IsParsed(full, decode, reply.text, reply.calls)
      && (multiTurn ==> reply.text != "" || |reply.calls| > 0)
  }

  lemma ReplyIs<T>(frames: seq<string>, hasTools: bool, multiTurn: bool, decode: string -> Option<T>)
    ensures IsReply(frames, hasTools, multiTurn, decode, NonStreamed(frames, hasTools, multiTurn, decode))
  {
    hide TrimSpace, Strip, Bodies, DecodeAll, IsParsed, LastText, IsLastText, AllBlank;
    LastTextIs(frames);
    var full := LastText(frames);
    ParsedIs(full, decode);
    assert IsLastText(frames, full);
  }

  /** What has been sent to the client once the tracker has emitted `emitted`. */
  function SentFor(emitted: string, hasTools: bool): string {
    if hasTools then Whole(emitted).sent else emitted
  }

  /** Streamed and non-streamed requests give the client the same text: exactly, without
      tools; with tools, up to surrounding white space, in all but the one losing case. */
  lemma {:induction false} StreamedEqualsNonStreamed<T>(frames: seq<string>, hasTools: bool, multiTurn: bool,
                                                        decode: string -> Option<T>)
    requires IsChain(frames) && NonStreamed(frames, hasTools, multiTurn, decode).Reply?
    ensures var text := NonStreamed(frames, hasTools, multiTurn, decode).text;
            var client := ClientText(SentFor(TrackAll("", frames), hasTools), text);
            && (!hasTools ==> client == text)
            && (hasTools ==>
                  var st := Whole(LastText(frames));
                  TrimSpace(client) == text
                  <==> st.sent == "" || !IsSpace(st.sent[0]) || st.Pending() == "")
  {
    hide Whole, Strip, TrimSpace;
    ChainIsTracked(frames);
    LastOfChain(frames);
    var full := LastText(frames);
    if hasTools {
      GatedAgreement(full);
    } else {
      ClientGetsTextIffPrefix(full, full);
    }
  }

  /** The reasoning chain has no gate, so over cumulative frames the client gets all of it. */
  lemma {:induction false} ReasoningArrivesWhole(frames: seq<string>)
    requires IsChain(frames)
    ensures var final := TrimSpace(Longest(frames));
            ClientText(TrackAll("", frames), final) == final
  {
    hide TrimSpace;
    var final := TrimSpace(Longest(frames));
    if frames != [] {
      ChainIsTracked(frames);
      LongestOfChain(frames);
    }
    ClientGetsTextIffPrefix(TrackAll("", frames), final);
  }

  // ---------------------------------------------------------------- lineCB

  /** The text half of the per-line callback: the tracker and, with tools, the gate behind it. */
  class Relay {
    const hasTools: bool
    const tracker: DeltaTracker
    const gate: ToolFenceGate
    ghost var frames: seq<string>

    ghost predicate Valid()
      reads this, tracker, gate
    {
      && gate.Valid()
      && tracker.emitted == TrackAll("", frames)
      && (hasTools ==> gate.pushed == tracker.emitted)
    }

    /** `sentText`: what the client has really been sent. */
    function Sent(): string
      reads this, tracker, gate
    {
      if hasTools then gate.sent else tracker.emitted
    }

    constructor (hasTools: bool)
      ensures Valid() && fresh(tracker) && fresh(gate)
      ensures this.hasTools == hasTools && frames == [] && Sent() == ""
    {
      hide Whole, Track;
      this.hasTools := hasTools;
      tracker := new DeltaTracker();
      gate := new ToolFenceGate();
      frames := [];
    }

    /** Returns the pieces handed to the client, in order. */
    method OnText(text: string) returns (pieces: seq<string>)
      requires Valid()
      modifies this, tracker, gate
      ensures Valid() && frames == old(frames) + [text]
      ensures Sent() == SentFor(TrackAll("", frames), hasTools)
      ensures Sent() == old(Sent()) + Flatten(pieces) && "" !in pieces
    {
      hide Whole, Track;
      TrackSnoc("", frames, text);
      frames := frames + [text];
      pieces := [];
      var delta := tracker.Push(text);
      if delta == "" {
        return;
      }
      if hasTools {
        var before := gate.emits;
        gate.Push(delta);
        pieces := gate.emits[|before|..];
        FlattenAppend(before, pieces);
        assert gate.emits == before + pieces;
      } else {
        pieces := [delta];
        assert Flatten([delta]) == delta + Flatten([]) == delta;
      }
    }
  }
}
