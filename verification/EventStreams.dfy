/** The two event streams the server writes: chat-completion chunks (`sseWriter`) and the
    Responses protocol (`handleResponses`). Each is checked against a client automaton that
    accepts only what its protocol allows. */
module EventStreams {
  import opened Options
  import opened Text
  import opened FenceGate
  import opened StreamPipeline

  datatype ToolCall = ToolCall(id: string, name: string, arguments: string)

  /** One upstream line: its reasoning text and its reply text, "" when it carries none. */
  datatype Line = Line(reasoning: string, text: string)

  function Carried(text: string): seq<string> {
    if text == "" then [] else [text]
  }

  function Texts(lines: seq<Line>): seq<string>
    decreases |lines|
  {
    if lines == [] then []
    else
      var n := |lines| - 1;
      Texts(lines[..n]) + Carried(lines[n].text)
  }

  function Reasonings(lines: seq<Line>): seq<string>
    decreases |lines|
  {
    if lines == [] then []
    else
      var n := |lines| - 1;
      Reasonings(lines[..n]) + Carried(lines[n].reasoning)
  }

  // ---------------------------------------------------------------- chat completions

  datatype ChatEvent =
    | Role
    | Content(delta: string)
    | Reasoning(delta: string)
    | ToolCalls(calls: seq<ToolCall>)
    | Finish(reason: string)
    | Usage
    | Error(message: string)
    | Done

  datatype ChatPhase = Waiting | Streaming | Finished | Metered | Failed | Closed | Broken

  /** What a strict client makes of the next event. */
  function ChatNext(p: ChatPhase, e: ChatEvent): ChatPhase {
    match (p, e)
    case (Waiting, Role) => Streaming
    case (Streaming, Content(d)) => if d == "" then Broken else Streaming
    case (Streaming, Reasoning(d)) => if d == "" then Broken else Streaming
    case (Streaming, ToolCalls(cs)) => if cs == [] then Broken else Streaming
    case (Streaming, Finish(_)) => Finished
    case (Streaming, Error(_)) => Failed
    case (Finished, Usage) => Metered
    case (Finished, Done) => Closed
    case (Metered, Done) => Closed
    case (Failed, Done) => Closed
    case _ => Broken
  }

  function ChatRun(out: seq<ChatEvent>): ChatPhase {
    if out == [] then Waiting else ChatNext(ChatRun(out[..|out| - 1]), out[|out| - 1])
  }

  /** The reply text the client puts together. */
  function ContentOf(out: seq<ChatEvent>): string {
    if out == [] then ""
    else ContentOf(out[..|out| - 1]) + (match out[|out| - 1] case Content(d) => d case _ => "")
  }

  function ReasoningOf(out: seq<ChatEvent>): string {
    if out == [] then ""
    else ReasoningOf(out[..|out| - 1]) + (match out[|out| - 1] case Reasoning(d) => d case _ => "")
  }

  function CallsOf(out: seq<ChatEvent>): seq<ToolCall> {
    if out == [] then []
    else CallsOf(out[..|out| - 1]) + (match out[|out| - 1] case ToolCalls(cs) => cs case _ => [])
  }

  class SseWriter {
    var started: bool
    var out: seq<ChatEvent> // the bytes written to the response, as events

    /** Nothing is written before the stream is started, and a started stream can go on. */
    ghost predicate Ready()
      reads this
    {
      if started then ChatRun(out) == Streaming else out == []
    }

    /** The stream is started by the first piece that is sent. */
    ghost predicate Lazy()
      reads this
    {
      started <==> ContentOf(out) != "" || ReasoningOf(out) != ""
    }

    constructor ()
      ensures Ready() && !started && out == []
    {
      started, out := false, [];
    }

    method Write(e: ChatEvent)
      modifies this`out
      ensures out == old(out) + [e]
      ensures ChatRun(out) == ChatNext(ChatRun(old(out)), e)
      ensures ContentOf(out) == ContentOf(old(out)) + (if e.Content? then e.delta else "")
      ensures ReasoningOf(out) == ReasoningOf(old(out)) + (if e.Reasoning? then e.delta else "")
      ensures CallsOf(out) == CallsOf(old(out)) + (if e.ToolCalls? then e.calls else [])
    {
      out := out + [e];
      assert out[..|out| - 1] == old(out);
    }

    /** What is out once the stream is started: the first event gives the role. */
    ghost function Opened(): seq<ChatEvent>
      reads this
    {
      if started then out else out + [Role]
    }

    method Start()
      requires Ready()
      modifies this
      ensures Ready() && started && out == old(Opened())
      ensures Same(old(out), out)
    {
      if started {
        return;
      }
      started := true;
      NothingRun();
      Write(Role);
    }

    method SendContent(delta: string)
      requires Ready()
      modifies this
      ensures Ready() && (delta != "" ==> started)
      ensures delta == "" ==> started == old(started) && out == old(out)
      ensures delta != "" ==> out == old(Opened()) + [Content(delta)]
      ensures Opened() == old(Opened()) + if delta != "" then [Content(delta)] else []
      ensures ContentOf(out) == ContentOf(old(out)) + delta
      ensures ReasoningOf(out) == ReasoningOf(old(out)) && CallsOf(out) == CallsOf(old(out))
      ensures old(Lazy()) ==> Lazy()
    {
      hide ContentOf, ReasoningOf, CallsOf, ChatRun;
      if delta == "" {
        return;
      }
      Start();
      Write(Content(delta));
    }

    method SendReasoning(delta: string)
      requires Ready()
      modifies this
      ensures Ready() && (delta != "" ==> started)
      ensures delta == "" ==> started == old(started) && out == old(out)
      ensures delta != "" ==> out == old(Opened()) + [Reasoning(delta)]
      ensures Opened() == old(Opened()) + if delta != "" then [Reasoning(delta)] else []
      ensures ReasoningOf(out) == ReasoningOf(old(out)) + delta
      ensures ContentOf(out) == ContentOf(old(out)) && CallsOf(out) == CallsOf(old(out))
      ensures old(Lazy()) ==> Lazy()
    {
      hide ContentOf, ReasoningOf, CallsOf, ChatRun;
      if delta == "" {
        return;
      }
      Start();
      Write(Reasoning(delta));
    }

    method SendToolCalls(calls: seq<ToolCall>)
      requires Ready()
      modifies this
      ensures started && (calls != [] ==> Ready())
      ensures out == Opened() == old(Opened()) + [ToolCalls(calls)]
      ensures CallsOf(out) == CallsOf(old(out)) + calls
      ensures ContentOf(out) == ContentOf(old(out)) && ReasoningOf(out) == ReasoningOf(old(out))
    {
      hide ContentOf, ReasoningOf, CallsOf, ChatRun;
      Start();
      Write(ToolCalls(calls));
    }

    method Finish(reason: string, usage: bool)
      requires Ready()
      modifies this
      ensures started && ChatRun(out) == Closed && Same(old(out), out)
      ensures out == old(Opened())
                     + ([ChatEvent.Finish(reason)] + (if usage then [Usage] else []) + [ChatEvent.Done])
    {
      hide ContentOf, ReasoningOf, CallsOf, ChatRun;
      Start();
      Write(ChatEvent.Finish(reason));
      if usage {
        Write(Usage);
      }
      Write(ChatEvent.Done);
    }

    method Fail(message: string)
      requires Ready()
      modifies this
      ensures started && ChatRun(out) == Closed && Same(old(out), out)
      ensures out == old(Opened()) + [Error(message), ChatEvent.Done]
    {
      hide ContentOf, ReasoningOf, CallsOf, ChatRun;
      Start();
      Write(Error(message));
      Write(ChatEvent.Done);
    }
  }

  lemma NothingRun()
    ensures ChatRun([]) == Waiting
  {
  }

  /** The events added carry no reply text, reasoning or calls. */
  ghost predicate Same(a: seq<ChatEvent>, b: seq<ChatEvent>) {
    ContentOf(a) == ContentOf(b) && ReasoningOf(a) == ReasoningOf(b) && CallsOf(a) == CallsOf(b)
  }

  /** Nothing comes behind `[DONE]` in a stream the client did not find broken, and it is closed
      exactly if it ends with that. */
  lemma {:induction false} NothingAfterDone(out: seq<ChatEvent>)
    requires ChatRun(out) != Broken
    ensures forall i :: 0 <= i < |out| && out[i].Done? ==> i == |out| - 1
    ensures ChatRun(out) == Closed <==> out != [] && out[|out| - 1].Done?
    decreases |out|
  {
    if out != [] {
      NothingAfterDone(out[..|out| - 1]);
    }
  }

  const NO_CONTENT: string := "upstream returned no content frame"

  /** What went wrong, if anything: the upstream error, or no reply in the answer taken. */
  function FailureOf(lines: seq<Line>, failure: Option<string>, hasTools: bool, multiTurn: bool,
                     decode: string -> Option<ToolCall>): Option<string> {
    if failure.Some? then failure
    else if NonStreamed(Texts(lines), hasTools, multiTurn, decode).NoContent? then Some(NO_CONTENT)
    else None
  }

  /** The end of `callGemini` and of `callGeminiConv`. */
  method TakeReply(lines: seq<Line>, hasTools: bool, multiTurn: bool, decode: string -> Option<ToolCall>)
      returns (r: Reply<ToolCall>)
    ensures r == NonStreamed(Texts(lines), hasTools, multiTurn, decode)
    ensures IsReply(Texts(lines), hasTools, multiTurn, decode, r)
  {
    ReplyIs(Texts(lines), hasTools, multiTurn, decode);
    hide Texts, TrimSpace, Strip, Bodies, DecodeAll, LastText, IsReply, IsParsed;
    var text := ExtractResponseText(Texts(lines));
    if !multiTurn && text == "" {
      return NoContent;
    }
    var calls := [];
    if hasTools {
      if text == "" {
        NothingToParse(decode);
      }
      text, calls := ParseToolCalls(text, decode);
    }
    if multiTurn && text == "" && |calls| == 0 {
      return NoContent;
    }
    return Reply(text, calls);
  }

  lemma NothingToParse(decode: string -> Option<ToolCall>)
    ensures TrimSpace(Strip("")) == "" && DecodeAll(Bodies(""), decode) == []
  {
    StripNothing("");
  }

  /** A streamed `handleChatCompletions`: `lines` is the answer finally taken, `earlier` what was
      relayed before it, by answers that were refused, and `failure` how the request ended.
      `jsonError` reports that a plain JSON error was written instead of events. */
  method StreamChat(earlier: seq<Line>, lines: seq<Line>, failure: Option<string>, hasTools: bool, multiTurn: bool,
                    decode: string -> Option<ToolCall>, includeUsage: bool)
    returns (sse: SseWriter, jsonError: bool)
    ensures var failed := FailureOf(lines, failure, hasTools, multiTurn, decode).Some?;
            var sent := SentFor(TrackAll("", Texts(earlier + lines)), hasTools);
            var sentReasoning := TrackAll("", Reasonings(earlier + lines));
            && (jsonError <==> failed && sent == "" && sentReasoning == "")
            && (if jsonError then sse.out == [] else ChatRun(sse.out) == Closed)
            && (failed ==>
              ContentOf(sse.out) == sent && ReasoningOf(sse.out) == sentReasoning && CallsOf(sse.out) == [])
            && (!failed ==>
                  var reply := NonStreamed(Texts(lines), hasTools, multiTurn, decode);
                  && ContentOf(sse.out) == ClientText(sent, reply.text)
                  && ReasoningOf(sse.out) == ClientText(sentReasoning, TrimSpace(Longest(Reasonings(lines))))
                  && CallsOf(sse.out) == reply.calls)
    // how it ends: with the error, or with the tails, thoughts before text, the calls, and the reason
    ensures var reply := NonStreamed(Texts(lines), hasTools, multiTurn, decode);
            && (failure.Some? && !jsonError ==> EndsWith(sse.out, [Error(failure.value), ChatEvent.Done]))
            && (failure.None? && reply.NoContent? && !jsonError ==>
                  EndsWith(sse.out, [Error("upstream returned no content frame"), ChatEvent.Done]))
            && (failure.None? && reply.Reply? ==>
                  var thoughts := TrimSpace(Longest(Reasonings(lines)));
                  EndsWith(sse.out,
                    Tails(RemainingOf(thoughts, TrackAll("", Reasonings(earlier + lines))),
                          RemainingOf(reply.text, SentFor(TrackAll("", Texts(earlier + lines)), hasTools)),
                          reply.calls)
                    + ([ChatEvent.Finish(if |reply.calls| > 0 then "tool_calls" else "stop")]
                       + (if includeUsage then [Usage] else []) + [ChatEvent.Done])))
  {
    hide Texts, Reasonings, TrackAll, SentFor, TrimSpace, ChatNext, NonStreamed, Longest;
    hide ContentOf, ReasoningOf, CallsOf, ChatRun, RemainingOf, EndsWith, Tails, IsReply, ClientText;
    sse := new SseWriter();
    NothingWritten();
    var relay := new Relay(hasTools);
    var rtracker := new DeltaTracker();
    RelayLines(earlier + lines, sse, relay, rtracker);

    var reply: Reply<ToolCall> := NoContent;
    if failure.None? {
      reply := TakeReply(lines, hasTools, multiTurn, decode);
    }
    if reply.NoContent? {
      if sse.started {
        FailChat(sse, if failure.Some? then failure.value else NO_CONTENT);
        return sse, false;
      }
      return sse, true;
    }
    var reasoning := ExtractReasoning(Reasonings(lines));
    ClientTextIs(relay.Sent(), reply.text);
    ClientTextIs(rtracker.emitted, reasoning);
    EndChat(sse, reply.text, relay.Sent(), reply.calls, reasoning, rtracker.emitted, includeUsage);
    jsonError := false;
  }

  lemma ClientTextIs(sent: string, text: string)
    ensures ClientText(sent, text) == sent + RemainingOf(text, sent)
  {
    hide RemainingOf;
  }

  /** A stream that was begun ends with the error. */
  method FailChat(sse: SseWriter, message: string)
    requires sse.Ready()
    modifies sse
    ensures ChatRun(sse.out) == Closed && Same(old(sse.out), sse.out)
    ensures EndsWith(sse.out, [Error(message), ChatEvent.Done])
  {
    hide ContentOf, ReasoningOf, CallsOf, ChatRun, SseWriter.Opened;
    sse.Fail(message);
  }

  ghost predicate EndsWith(out: seq<ChatEvent>, tail: seq<ChatEvent>) {
    |tail| <= |out| && out[|out| - |tail|..] == tail
  }

  /** What is left to be sent, in the order of thinking before answering. */
  function Tails(thoughts: string, text: string, calls: seq<ToolCall>): seq<ChatEvent> {
    (if thoughts != "" then [Reasoning(thoughts)] else [])
    + (if text != "" then [Content(text)] else [])
    + (if calls != [] then [ToolCalls(calls)] else [])
  }

  lemma NothingWritten()
    ensures ContentOf([]) == ReasoningOf([]) == "" && CallsOf([]) == []
  {
  }

  /** What the client was sent of these lines is what the trackers make of them. */
  ghost predicate IsRelayed(sse: SseWriter, relay: Relay, rtracker: DeltaTracker, lines: seq<Line>)
    reads sse, relay, relay.tracker, relay.gate, rtracker
  {
    && sse.Ready() && sse.Lazy() && relay.Valid() && relay.tracker != rtracker && relay.frames == Texts(lines)
    && rtracker.emitted == TrackAll("", Reasonings(lines)) && CallsOf(sse.out) == []
    && ContentOf(sse.out) == relay.Sent() == SentFor(TrackAll("", relay.frames), relay.hasTools)
    && ReasoningOf(sse.out) == rtracker.emitted
  }

  /** The per-line callback over all lines: reasoning first, then text. */
  method RelayLines(lines: seq<Line>, sse: SseWriter, relay: Relay, rtracker: DeltaTracker)
    requires sse.Ready() && sse.Lazy() && ContentOf(sse.out) == ReasoningOf(sse.out) == "" && CallsOf(sse.out) == []
    requires relay.Valid() && relay.frames == [] && relay.Sent() == ""
    requires rtracker.emitted == "" && relay.tracker != rtracker
    modifies sse, relay, relay.tracker, relay.gate, rtracker
    ensures IsRelayed(sse, relay, rtracker, lines)
  {
    SentForNothing(relay.hasTools);
    assert IsRelayed(sse, relay, rtracker, []);
    hide IsRelayed;
    for i := 0 to |lines|
      invariant IsRelayed(sse, relay, rtracker, lines[..i])
    {
      OneMoreLine(lines, i);
      RelayOne(lines[..i], lines[i], sse, relay, rtracker);
    }
    assert lines[..|lines|] == lines;
  }

  lemma OneMoreLine(lines: seq<Line>, i: nat)
    requires i < |lines|
    ensures lines[..i + 1] == lines[..i] + [lines[i]]
  {
  }

  method RelayOne(ghost before: seq<Line>, line: Line, sse: SseWriter, relay: Relay, rtracker: DeltaTracker)
    requires IsRelayed(sse, relay, rtracker, before)
    modifies sse, relay, relay.tracker, relay.gate, rtracker
    ensures IsRelayed(sse, relay, rtracker, before + [line])
  {
    hide TrackAll, SentFor, ContentOf, ReasoningOf, CallsOf, ChatRun, SseWriter.Ready, SseWriter.Lazy, Relay.Valid,
         Relay.Sent;
    LinesSnoc(before, line);
    var thought, pieces := RelayLine(line, sse, relay, rtracker, Reasonings(before));
  }

  lemma LinesSnoc(before: seq<Line>, line: Line)
    ensures Texts(before + [line]) == Texts(before) + Carried(line.text)
    ensures Reasonings(before + [line]) == Reasonings(before) + Carried(line.reasoning)
  {
    assert (before + [line])[..|before|] == before;
  }

  method RelayLine(line: Line, sse: SseWriter, relay: Relay, rtracker: DeltaTracker, ghost reasonings: seq<string>)
      returns (thought: string, pieces: seq<string>)
    requires sse.Ready() && sse.Lazy() && relay.Valid() && relay.tracker != rtracker
    requires ContentOf(sse.out) == relay.Sent() == SentFor(TrackAll("", relay.frames), relay.hasTools)
    requires ReasoningOf(sse.out) == rtracker.emitted == TrackAll("", reasonings)
    modifies sse, relay, relay.tracker, relay.gate, rtracker
    ensures sse.Ready() && sse.Lazy() && relay.Valid() && relay.frames == old(relay.frames) + Carried(line.text)
    ensures ContentOf(sse.out) == relay.Sent() == SentFor(TrackAll("", relay.frames), relay.hasTools)
    ensures ReasoningOf(sse.out) == rtracker.emitted == TrackAll("", reasonings + Carried(line.reasoning))
    ensures CallsOf(sse.out) == CallsOf(old(sse.out))
    // what is thought goes out before what is said
    ensures rtracker.emitted == old(rtracker.emitted) + thought
    ensures sse.Opened() == old(sse.Opened()) + Thought(thought) + Said(pieces)
  {
    hide TrackAll, ChatRun, SentFor, ContentOf, ReasoningOf, CallsOf, SseWriter.Opened, SseWriter.Ready, SseWriter.Lazy,
         Relay.Valid, Relay.Sent, Thought, Said;
    thought := RelayThought(line.reasoning, sse, rtracker, reasonings);
    pieces := RelayText(line.text, sse, relay);
  }

  method RelayThought(reasoning: string, sse: SseWriter, rtracker: DeltaTracker, ghost reasonings: seq<string>)
      returns (thought: string)
    requires sse.Ready() && sse.Lazy() && ReasoningOf(sse.out) == rtracker.emitted == TrackAll("", reasonings)
    modifies sse, rtracker
    ensures sse.Ready() && sse.Lazy() && rtracker.emitted == old(rtracker.emitted) + thought
    ensures ReasoningOf(sse.out) == rtracker.emitted == TrackAll("", reasonings + Carried(reasoning))
    ensures ContentOf(sse.out) == ContentOf(old(sse.out)) && CallsOf(sse.out) == CallsOf(old(sse.out))
    ensures sse.Opened() == old(sse.Opened()) + Thought(thought)
  {
    hide Track, ChatRun, ContentOf, ReasoningOf, CallsOf, SseWriter.Opened, SseWriter.Ready, SseWriter.Lazy;
    thought := "";
    if reasoning != "" {
      TrackSnoc("", reasonings, reasoning);
      thought := rtracker.Push(reasoning);
      sse.SendReasoning(thought);
    } else {
      assert reasonings + [] == reasonings;
    }
  }

  method RelayText(text: string, sse: SseWriter, relay: Relay) returns (pieces: seq<string>)
    requires sse.Ready() && sse.Lazy() && relay.Valid()
    requires ContentOf(sse.out) == relay.Sent() == SentFor(TrackAll("", relay.frames), relay.hasTools)
    modifies sse, relay, relay.tracker, relay.gate
    ensures sse.Ready() && sse.Lazy() && relay.Valid() && relay.frames == old(relay.frames) + Carried(text)
    ensures ContentOf(sse.out) == relay.Sent() == SentFor(TrackAll("", relay.frames), relay.hasTools)
    ensures ReasoningOf(sse.out) == ReasoningOf(old(sse.out)) && CallsOf(sse.out) == CallsOf(old(sse.out))
    ensures sse.Opened() == old(sse.Opened()) + Said(pieces)
  {
    hide TrackAll, ChatRun, SentFor, ContentOf, ReasoningOf, CallsOf, SseWriter.Opened, SseWriter.Ready, SseWriter.Lazy,
         Relay.Valid, Relay.Sent;
    pieces := [];
    if text != "" {
      pieces := relay.OnText(text);
      SendAll(sse, pieces);
    } else {
      assert relay.frames + [] == relay.frames;
    }
  }

  function Thought(delta: string): seq<ChatEvent> {
    if delta != "" then [Reasoning(delta)] else []
  }

  function Said(pieces: seq<string>): seq<ChatEvent> {
    seq(|pieces|, i requires 0 <= i < |pieces| => Content(pieces[i]))
  }

  lemma SentForNothing(hasTools: bool)
    ensures SentFor("", hasTools) == ""
  {
    WholeOfNothing();
  }

  /** The end of a successful streamed chat: the tails, the calls, the finish. */
  method EndChat(sse: SseWriter, text: string, sent: string, calls: seq<ToolCall>,
                 reasoning: string, sentReasoning: string, includeUsage: bool)
    requires sse.Ready()
    modifies sse
    ensures ChatRun(sse.out) == Closed
    ensures ContentOf(sse.out) == ContentOf(old(sse.out)) + RemainingOf(text, sent)
    ensures ReasoningOf(sse.out) == ReasoningOf(old(sse.out)) + RemainingOf(reasoning, sentReasoning)
    ensures CallsOf(sse.out) == CallsOf(old(sse.out)) + calls
    ensures EndsWith(sse.out,
              Tails(RemainingOf(reasoning, sentReasoning), RemainingOf(text, sent), calls)
              + ([ChatEvent.Finish(if |calls| > 0 then "tool_calls" else "stop")]
                 + (if includeUsage then [Usage] else []) + [ChatEvent.Done]))
  {
    hide ContentOf, ReasoningOf, CallsOf, ChatRun, SseWriter.Opened, EndsWith, RemainingOf;
    NothingRemains(sentReasoning);
    ghost var base := sse.Opened();
    if reasoning != "" {
      sse.SendReasoning(RemainingOf(reasoning, sentReasoning));
    } else {
      assert ReasoningOf(sse.out) + "" == ReasoningOf(sse.out);
    }
    sse.SendContent(RemainingOf(text, sent));
    if |calls| > 0 {
      sse.SendToolCalls(calls);
    } else {
      assert CallsOf(sse.out) + [] == CallsOf(sse.out);
    }
    assert sse.Opened() == base + Tails(RemainingOf(reasoning, sentReasoning), RemainingOf(text, sent), calls);
    var reason := if |calls| > 0 then "tool_calls" else "stop";
    sse.Finish(reason, includeUsage);
    EndsWithTail(base, Tails(RemainingOf(reasoning, sentReasoning), RemainingOf(text, sent), calls),
                 [ChatEvent.Finish(reason)] + (if includeUsage then [Usage] else []) + [ChatEvent.Done]);
  }

  lemma NothingRemains(sent: string)
    ensures RemainingOf("", sent) == ""
  {
  }

  lemma EndsWithTail(a: seq<ChatEvent>, b: seq<ChatEvent>, c: seq<ChatEvent>)
    ensures EndsWith(a + b + c, b + c)
  {
    assert a + b + c == a + (b + c);
  }

  method SendAll(sse: SseWriter, pieces: seq<string>)
    requires sse.Ready() && "" !in pieces
    modifies sse
    ensures sse.Ready() && sse.Opened() == old(sse.Opened()) + Said(pieces)
    ensures ContentOf(sse.out) == ContentOf(old(sse.out)) + Flatten(pieces)
    ensures ReasoningOf(sse.out) == ReasoningOf(old(sse.out)) && CallsOf(sse.out) == CallsOf(old(sse.out))
    ensures old(sse.Lazy()) ==> sse.Lazy()
  {
    hide ContentOf, ReasoningOf, CallsOf, ChatRun, SseWriter.Opened, SseWriter.Ready, SseWriter.Lazy;
    for i := 0 to |pieces|
      invariant sse.Ready() && (old(sse.Lazy()) ==> sse.Lazy())
      invariant sse.Opened() == old(sse.Opened()) + Said(pieces[..i])
      invariant ContentOf(sse.out) == ContentOf(old(sse.out)) + Flatten(pieces[..i])
      invariant ReasoningOf(sse.out) == ReasoningOf(old(sse.out)) && CallsOf(sse.out) == CallsOf(old(sse.out))
    {
      FlattenAppend(pieces[..i], [pieces[i]]);
      assert pieces[..i + 1] == pieces[..i] + [pieces[i]];
      assert Flatten([pieces[i]]) == pieces[i] + Flatten([]) == pieces[i];
      sse.SendContent(pieces[i]);
      assert Said(pieces[..i + 1]) == Said(pieces[..i]) + [Content(pieces[i])];
    }
    assert pieces[..|pieces|] == pieces;
  }

  // ---------------------------------------------------------------- responses

  datatype Item =
    | FunctionCall(call: ToolCall)
    | Message(text: string)

  datatype RespEvent =
    | Created
    | MessageAdded(index: nat)
    | PartAdded(index: nat)
    | TextDelta(index: nat, delta: string)
    | TextDone(index: nat, text: string)
    | PartDone(index: nat, text: string)
    | MessageDone(index: nat, text: string)
    | CallAdded(index: nat, call: ToolCall)
    | ArgumentsDone(call: ToolCall)
    | CallDone(index: nat, call: ToolCall)
    | Completed(output: seq<Item>)
    | ResponseFailed(message: string)

  /** How far the message item has got. */
  datatype MessageStage = Absent | Added | Open | TextClosed | PartClosed | ItemClosed

  /** How far the function call being written has got. */
  datatype CallStage = Idle | Declared(index: nat, call: ToolCall) | Argued(index: nat, call: ToolCall)

  datatype Phase = NotCreated | InProgress | Succeeded | GaveUp | Rejected

  /** A strict client. `items` are the finished items with their output index; `message` is
      the one message item. */
  datatype Client = Client(phase: Phase, next: nat, message: MessageStage, messageIndex: nat, text: string,
                           call: CallStage, items: seq<(nat, Item)>, output: seq<Item>)

  const IDLE_CLIENT: Client := Client(NotCreated, 0, Absent, 0, "", Idle, [], [])

  /** Every new item takes the next output index; a delta needs an open part of an added
      message; a call is added, gets its arguments, and is done, with nothing in between. */
  function RespNext(c: Client, e: RespEvent): Client {
    var bad := c.(phase := Rejected);
    if !e.Created? && !c.phase.InProgress? then bad
    else
      match e
      case Created =>
        if c.phase.NotCreated? then c.(phase := InProgress) else bad
      case MessageAdded(i) =>
        if i == c.next && c.message.Absent? && c.call.Idle?
        then c.(next := c.next + 1, message := Added, messageIndex := i) else bad
      case PartAdded(i) =>
        if c.message.Added? && i == c.messageIndex then c.(message := Open) else bad
      case TextDelta(i, d) =>
        if c.message.Open? && i == c.messageIndex && c.call.Idle? && d != "" then c.(text := c.text + d) else bad
      case TextDone(i, _) =>
        if c.message.Open? && i == c.messageIndex then c.(message := TextClosed) else bad
      case PartDone(i, _) =>
        if c.message.TextClosed? && i == c.messageIndex then c.(message := PartClosed) else bad
      case MessageDone(i, t) =>
        if c.message.PartClosed? && i == c.messageIndex
        then c.(message := ItemClosed, items := c.items + [(i, Message(t))]) else bad
      case CallAdded(i, k) =>
        if i == c.next && c.call.Idle? && !c.message.Added?
        then c.(next := c.next + 1, call := Declared(i, k)) else bad
      case ArgumentsDone(k) =>
        if c.call.Declared? && k == c.call.call then c.(call := Argued(c.call.index, k)) else bad
      case CallDone(i, k) =>
        if c.call.Argued? && i == c.call.index && k == c.call.call
        then c.(call := Idle, items := c.items + [(i, FunctionCall(k))]) else bad
      case Completed(output) =>
        if c.call.Idle? && !c.message.Added? then c.(phase := Succeeded, output := output) else bad
      case ResponseFailed(_) =>
        if c.call.Idle? then c.(phase := GaveUp) else bad
  }

  function RespRun(out: seq<RespEvent>): Client {
    if out == [] then IDLE_CLIENT else RespNext(RespRun(out[..|out| - 1]), out[|out| - 1])
  }

  /** The `output` array: the calls in order, then the message unless it is empty. */
  function OutputOf(text: string, calls: seq<ToolCall>): seq<Item> {
    seq(|calls|, i requires 0 <= i < |calls| => FunctionCall(calls[i]))
    + (if text != "" || |calls| == 0 then [Message(text)] else [])
  }

  /** The finished items of the calls when the first of them takes index `from`. */
  function CallItems(calls: seq<ToolCall>, from: nat): seq<(nat, Item)> {
    seq(|calls|, i requires 0 <= i < |calls| => (from + i, FunctionCall(calls[i])))
  }

  class ResponsesWriter {
    var msgIndex: int
    var nextIdx: nat
    var out: seq<RespEvent>
    ghost var text: string           // the deltas so far
    ghost var items: seq<(nat, Item)> // the finished items so far

    ghost predicate Ready()
      reads this
    {
      && -1 <= msgIndex < nextIdx
      && (msgIndex < 0 ==> text == "")
      && RespRun(out) == Client(InProgress, nextIdx, if msgIndex < 0 then Absent else Open,
                                if msgIndex < 0 then 0 else msgIndex, text, Idle, items, [])
    }

    /** The message item is opened by the first delta, and before anything else. */
    ghost predicate Lazy()
      reads this
    {
      && (msgIndex >= 0 <==> text != "")
      && (if msgIndex < 0 then nextIdx == 0 else msgIndex == 0 && nextIdx == 1)
    }

    constructor ()
      ensures Ready() && Lazy() && msgIndex == -1 && nextIdx == 0 && text == "" && items == []
    {
      msgIndex, nextIdx, text, items := -1, 0, "", [];
      out := [Created];
      new;
      assert out[..0] == [];
    }

    method WriteEvent(e: RespEvent)
      modifies this`out
      ensures out == old(out) + [e]
      ensures RespRun(out) == RespNext(RespRun(old(out)), e)
    {
      out := out + [e];
      assert out[..|out| - 1] == old(out);
    }

    method EnsureMsg()
      requires Ready()
      modifies this`msgIndex, this`nextIdx, this`out
      ensures Ready() && msgIndex >= 0
      ensures if old(msgIndex) >= 0 then msgIndex == old(msgIndex) && nextIdx == old(nextIdx)
              else msgIndex == old(nextIdx) && nextIdx == old(nextIdx) + 1
      ensures out == old(out) + if old(msgIndex) >= 0 then [] else [MessageAdded(msgIndex), PartAdded(msgIndex)]
    {
      if msgIndex >= 0 {
        return;
      }
      hide RespNext, RespRun;
      MessageOpened(RespRun(out));
      msgIndex := nextIdx;
      nextIdx := nextIdx + 1;
      WriteEvent(MessageAdded(msgIndex));
      WriteEvent(PartAdded(msgIndex));
    }

    method EmitDelta(d: string)
      requires Ready() && d != ""
      modifies this
      ensures Ready() && msgIndex >= 0 && text == old(text) + d && items == old(items)
      ensures if old(msgIndex) >= 0 then msgIndex == old(msgIndex) && nextIdx == old(nextIdx)
              else msgIndex == old(nextIdx) && nextIdx == old(nextIdx) + 1
      ensures out == old(out)
                     + (if old(msgIndex) >= 0 then [] else [MessageAdded(msgIndex), PartAdded(msgIndex)])
                     + [TextDelta(msgIndex, d)]
    {
      hide RespNext, RespRun;
      EnsureMsg();
      DeltaAccepted(RespRun(out), d);
      WriteEvent(TextDelta(msgIndex, d));
      text := text + d;
    }

    method WriteCall(call: ToolCall)
      requires Ready()
      modifies this
      ensures Ready() && msgIndex == old(msgIndex) && text == old(text)
      ensures nextIdx == old(nextIdx) + 1 && items == old(items) + [(old(nextIdx), FunctionCall(call))]
      ensures out == old(out) + [CallAdded(old(nextIdx), call), ArgumentsDone(call), CallDone(old(nextIdx), call)]
    {
      hide RespNext, RespRun;
      CallAccepted(RespRun(out), call);
      var idx := nextIdx;
      nextIdx := nextIdx + 1;
      WriteEvent(CallAdded(idx, call));
      WriteEvent(ArgumentsDone(call));
      WriteEvent(CallDone(idx, call));
      items := items + [(idx, FunctionCall(call))];
    }

    method WriteCalls(calls: seq<ToolCall>)
      requires Ready()
      modifies this
      ensures Ready() && msgIndex == old(msgIndex) && text == old(text)
      ensures nextIdx == old(nextIdx) + |calls| && items == old(items) + CallItems(calls, old(nextIdx))
    {
      for i := 0 to |calls|
        invariant Ready() && msgIndex == old(msgIndex) && text == old(text)
        invariant nextIdx == old(nextIdx) + i
        invariant items == old(items) + CallItems(calls[..i], old(nextIdx))
      {
        assert calls[..i + 1] == calls[..i] + [calls[i]];
        assert CallItems(calls[..i + 1], old(nextIdx))
            == CallItems(calls[..i], old(nextIdx)) + [(old(nextIdx) + i, FunctionCall(calls[i]))];
        WriteCall(calls[i]);
      }
      assert calls[..|calls|] == calls;
    }

    method WriteMessage(final: string)
      requires Ready()
      modifies this
      ensures if old(msgIndex) >= 0 then msgIndex == old(msgIndex) && nextIdx == old(nextIdx)
              else msgIndex == old(nextIdx) && nextIdx == old(nextIdx) + 1
      ensures msgIndex >= 0 && text == old(text) && items == old(items) + [(msgIndex, Message(final))]
      ensures RespRun(out) == Client(InProgress, nextIdx, ItemClosed, msgIndex, text, Idle, items, [])
      ensures out == old(out)
                     + (if old(msgIndex) >= 0 then [] else [MessageAdded(msgIndex), PartAdded(msgIndex)])
                     + [TextDone(msgIndex, final), PartDone(msgIndex, final), MessageDone(msgIndex, final)]
    {
      hide RespNext, RespRun;
      EnsureMsg();
      MessageAccepted(RespRun(out), final);
      WriteEvent(TextDone(msgIndex, final));
      WriteEvent(PartDone(msgIndex, final));
      WriteEvent(MessageDone(msgIndex, final));
      items := items + [(msgIndex, Message(final))];
    }

    method Close(output: seq<Item>)
      requires var c := RespRun(out); c.phase.InProgress? && c.call.Idle? && !c.message.Added?
      modifies this`out
      ensures RespRun(out) == RespRun(old(out)).(phase := Succeeded, output := output)
      ensures out == old(out) + [Completed(output)]
    {
      WriteEvent(Completed(output));
    }

    /** The end of a successful request: the calls, the message, then `response.completed`. */
    method Complete(final: string, calls: seq<ToolCall>)
      requires Ready() && items == []
      requires if msgIndex < 0 then nextIdx == 0 else msgIndex == 0 && nextIdx == 1
      modifies this
      ensures RespRun(out) == Ended(old(nextIdx), old(text), final, calls) && out != []
    {
      hide RespNext, RespRun, CallItems, OutputOf;
      WriteCalls(calls);
      assert [] + CallItems(calls, old(nextIdx)) == CallItems(calls, old(nextIdx));
      if final != "" || |calls| == 0 {
        WriteMessage(final);
      } else {
        assert CallItems(calls, old(nextIdx)) + [] == CallItems(calls, old(nextIdx));
      }
      Close(OutputOf(final, calls));
    }

    method Fail(message: string)
      requires Ready()
      modifies this
      ensures RespRun(out).phase.GaveUp? && RespRun(out).text == old(text)
      ensures out == old(out) + [ResponseFailed(message)]
    {
      WriteEvent(ResponseFailed(message));
    }
  }

  lemma MessageOpened(c: Client)
    requires c.phase.InProgress? && c.call.Idle? && c.message.Absent?
    ensures RespNext(RespNext(c, MessageAdded(c.next)), PartAdded(c.next))
         == c.(next := c.next + 1, message := Open, messageIndex := c.next)
  {
  }

  lemma DeltaAccepted(c: Client, d: string)
    requires c.phase.InProgress? && c.call.Idle? && c.message.Open? && d != ""
    ensures RespNext(c, TextDelta(c.messageIndex, d)) == c.(text := c.text + d)
  {
  }

  lemma MessageAccepted(c: Client, t: string)
    requires c.phase.InProgress? && c.call.Idle? && c.message.Open?
    ensures RespNext(RespNext(RespNext(c, TextDone(c.messageIndex, t)), PartDone(c.messageIndex, t)),
                     MessageDone(c.messageIndex, t))
         == c.(message := ItemClosed, items := c.items + [(c.messageIndex, Message(t))])
  {
  }

  lemma CallAccepted(c: Client, k: ToolCall)
    requires c.phase.InProgress? && c.call.Idle? && !c.message.Added?
    ensures RespNext(RespNext(RespNext(c, CallAdded(c.next, k)), ArgumentsDone(k)), CallDone(c.next, k))
         == c.(next := c.next + 1, items := c.items + [(c.next, FunctionCall(k))])
  {
  }

  /** The client after a successful stream; `first` is 1 if the message item was opened for
      deltas, which makes its output index 0, and 0 otherwise. */
  function Ended(first: nat, sent: string, final: string, calls: seq<ToolCall>): Client {
    var hasMessage := final != "" || |calls| == 0;
    var index := if first == 1 then 0 else if hasMessage then |calls| else 0;
    Client(Succeeded, first + |calls| + (if hasMessage && first == 0 then 1 else 0),
           if hasMessage then ItemClosed else if first == 1 then Open else Absent, index, sent, Idle,
           CallItems(calls, first) + (if hasMessage then [(index, Message(final))] else []), OutputOf(final, calls))
  }

  /** The finished items are the listed ones, each at the output index of its place in the list. */
  ghost predicate MatchesOutput(items: seq<(nat, Item)>, output: seq<Item>) {
    |items| == |output| && forall k :: 0 <= k < |items| ==> items[k] == (k, output[k])
  }

  lemma {:induction false} CallsMatchOutput(calls: seq<ToolCall>, first: nat, final: string)
    requires first <= 1
    ensures var message := if final != "" || |calls| == 0
                           then [(if first == 0 then |calls| else 0, Message(final))] else [];
            MatchesOutput(CallItems(calls, first) + message, OutputOf(final, calls)) <==> |calls| == 0 || first == 0
  {
    var n, last := |calls|, final != "" || |calls| == 0;
    var message := if last then [(if first == 0 then n else 0, Message(final))] else [];
    var items, output := CallItems(calls, first) + message, OutputOf(final, calls);
    assert |items| == |output| == n + |message|;
    assert forall k :: 0 <= k < n ==> items[k] == (first + k, FunctionCall(calls[k])) && output[k] == items[k].1;
    assert last ==> items[n] == message[0] && output[n] == Message(final);
    if n > 0 {
      assert items[0].0 == first;
    }
  }

  /** What every accepted stream has in common: finished items sit at distinct output indices
      below the next free one, and apart from an item still being written. */
  ghost predicate Sane(c: Client) {
    c.phase != Rejected ==>
      && (forall a, b :: 0 <= a < b < |c.items| ==> c.items[a].0 != c.items[b].0)
      && (forall a :: 0 <= a < |c.items| ==> c.items[a].0 < c.next)
      && (!c.message.Absent? ==> c.messageIndex < c.next)
      && (!c.message.Absent? && !c.message.ItemClosed? ==> forall a :: 0 <= a < |c.items| ==>
        c.items[a].0 != c.messageIndex)
      && (!c.call.Idle? ==> c.call.index < c.next && forall a :: 0 <= a < |c.items| ==> c.items[a].0 != c.call.index)
      && (!c.call.Idle? && !c.message.Absent? ==> c.call.index != c.messageIndex)
  }

  lemma {:induction false} AcceptedIndicesDistinct(out: seq<RespEvent>)
    ensures Sane(RespRun(out))
    decreases |out|
  {
    if out != [] {
      AcceptedIndicesDistinct(out[..|out| - 1]);
      SaneNext(RespRun(out[..|out| - 1]), out[|out| - 1]);
    }
  }

  lemma {:induction false} SaneNext(c: Client, e: RespEvent)
    requires Sane(c)
    ensures Sane(RespNext(c, e))
  {
  }

  method EmitAll(w: ResponsesWriter, pieces: seq<string>)
    requires w.Ready() && w.Lazy() && "" !in pieces
    modifies w
    ensures w.Ready() && w.Lazy() && w.text == old(w.text) + Flatten(pieces) && w.items == old(w.items)
  {
    hide ResponsesWriter.Ready, RespRun;
    for i := 0 to |pieces|
      invariant w.Ready() && w.Lazy() && w.text == old(w.text) + Flatten(pieces[..i]) && w.items == old(w.items)
    {
      FlattenAppend(pieces[..i], [pieces[i]]);
      assert pieces[..i + 1] == pieces[..i] + [pieces[i]];
      assert Flatten([pieces[i]]) == pieces[i] + Flatten([]) == pieces[i];
      w.EmitDelta(pieces[i]);
    }
    assert pieces[..|pieces|] == pieces;
  }

  method RespondLines(lines: seq<Line>, w: ResponsesWriter, relay: Relay)
    requires w.Ready() && w.Lazy() && w.text == "" && w.items == []
    requires relay.Valid() && relay.frames == [] && relay.Sent() == ""
    modifies w, relay, relay.tracker, relay.gate
    ensures w.Ready() && w.Lazy() && relay.Valid() && w.items == []
    ensures w.text == relay.Sent() == SentFor(TrackAll("", Texts(lines)), relay.hasTools)
  {
    SentForNothing(relay.hasTools);
    hide TrackAll, SentFor, ResponsesWriter.Ready, ResponsesWriter.Lazy, Relay.Valid, Relay.Sent;
    for i := 0 to |lines|
      invariant w.Ready() && w.Lazy() && relay.Valid() && w.items == []
      invariant relay.frames == Texts(lines[..i])
      invariant w.text == relay.Sent() == SentFor(TrackAll("", relay.frames), relay.hasTools)
    {
      assert lines[..i + 1][..i] == lines[..i];
      RespondLine(lines[i], w, relay);
    }
    assert lines[..|lines|] == lines;
  }

  method RespondLine(line: Line, w: ResponsesWriter, relay: Relay)
    requires w.Ready() && w.Lazy() && relay.Valid()
    requires w.text == relay.Sent() == SentFor(TrackAll("", relay.frames), relay.hasTools)
    modifies w, relay, relay.tracker, relay.gate
    ensures w.Ready() && w.Lazy() && relay.Valid() && w.items == old(w.items)
    ensures relay.frames == old(relay.frames) + Carried(line.text)
    ensures w.text == relay.Sent() == SentFor(TrackAll("", relay.frames), relay.hasTools)
  {
    hide TrackAll, SentFor, Whole, RespRun, ResponsesWriter.Ready, ResponsesWriter.Lazy, Relay.Valid, Relay.Sent;
    if line.text != "" {
      var pieces := relay.OnText(line.text);
      EmitAll(w, pieces);
    } else {
      assert relay.frames + [] == relay.frames;
    }
  }

  /** A streamed `handleResponses`; `earlier` and `lines` as in `StreamChat`. The client never
      rejects an event. A finished message item is missing exactly when a message was opened for
      deltas, the cleaned text is empty and there are calls; then the opened item is never closed. */
  method StreamResponses(earlier: seq<Line>, lines: seq<Line>, failure: Option<string>, hasTools: bool,
                         multiTurn: bool, decode: string -> Option<ToolCall>)
    returns (w: ResponsesWriter)
    ensures var failed := FailureOf(lines, failure, hasTools, multiTurn, decode).Some?;
            var sent := SentFor(TrackAll("", Texts(earlier + lines)), hasTools);
            var c := RespRun(w.out);
            && c.phase == (if failed then GaveUp else Succeeded)
            && (failed ==> c.text == sent)
            && (!failed ==>
                  var reply := NonStreamed(Texts(lines), hasTools, multiTurn, decode);
                  && c.text == ClientText(sent, reply.text)
                  && IsCompleted(c, reply.text, reply.calls))
    // a failed stream ends with what went wrong
    ensures w.out != [] && var last := w.out[|w.out| - 1];
            && (failure.Some? ==> last == ResponseFailed(failure.value))
            && (failure.None? && NonStreamed(Texts(lines), hasTools, multiTurn, decode).NoContent? ==>
                  last == ResponseFailed("upstream returned no content frame"))
  {
    hide Texts, TrackAll, SentFor, NonStreamed, RespNext, RespRun, IsCompleted, ClientText, ResponsesWriter.Ready;
    w := new ResponsesWriter();
    var relay := new Relay(hasTools);
    RespondLines(earlier + lines, w, relay);

    var reply: Reply<ToolCall> := NoContent;
    if failure.None? {
      reply := TakeReply(lines, hasTools, multiTurn, decode);
    }
    if reply.NoContent? {
      w.Fail(if failure.Some? then failure.value else NO_CONTENT);
      return;
    }
    EndResponse(w, relay.Sent(), reply.text, reply.calls);
  }

  /** The end of a successful streamed response: the tail, the calls, the message. */
  method EndResponse(w: ResponsesWriter, sent: string, text: string, calls: seq<ToolCall>)
    requires w.Ready() && w.Lazy() && w.items == [] && w.text == sent
    modifies w
    ensures var c := RespRun(w.out);
            c.phase.Succeeded? && c.text == ClientText(sent, text) && IsCompleted(c, text, calls)
    ensures w.out != []
  {
    hide RespNext, RespRun, IsCompleted, ResponsesWriter.Ready, CallItems, OutputOf;
    var rest := RemainingOf(text, sent);
    if rest != "" {
      w.EmitDelta(rest);
    } else {
      assert sent + "" == sent;
    }
    ghost var first, whole := w.nextIdx, w.text;
    w.Complete(text, calls);
    EndedIsCompleted(first, whole, text, calls);
  }

  /** How a successful Responses stream ends for the client. */
  ghost predicate IsCompleted(c: Client, text: string, calls: seq<ToolCall>) {
    && |c.items| == |c.output| == |calls| + (if text != "" || calls == [] then 1 else 0)
    && (forall i :: 0 <= i < |calls| ==>
          c.output[i] == FunctionCall(calls[i])
          && c.items[i] == (i + (if c.text == "" then 0 else 1), FunctionCall(calls[i])))
    && (text != "" || calls == [] ==>
          c.output[|calls|] == Message(text)
          && c.items[|calls|] == (if c.text == "" then |calls| else 0, Message(text)))
    && (c.message.ItemClosed? <==> text != "" || calls == [])
    && (c.message.Open? <==> c.text != "" && text == "" && calls != [])
    && (c.message.Absent? <==> c.text == "" && text == "" && calls != [])
    && c.next == |c.items| + (if c.message.Open? then 1 else 0)
    && (MatchesOutput(c.items, c.output) <==> calls == [] || c.text == "")
  }

  lemma {:induction false} EndedIsCompleted(first: nat, sent: string, final: string, calls: seq<ToolCall>)
    requires first == if sent == "" then 0 else 1
    ensures IsCompleted(Ended(first, sent, final, calls), final, calls)
  {
    CallsMatchOutput(calls, first, final);
    hide MatchesOutput;
  }

  /** The message that is opened and never closed exists: two calls with a line break between
      them. */
  method MessageStaysOpen(call: ToolCall) returns (w: ResponsesWriter)
    ensures RespRun(w.out).phase == Succeeded && RespRun(w.out).message.Open?
  {
    hide Whole, Strip, TrimSpace, Bodies, RespNext, RespRun, LastText, TrackAll, DecodeAll;
    var full := FENCE + "\n" + FENCE;
    BlankBetweenFences();
    OneFrame(full);
    Texts1(Line("", full));
    DecodedSome(Bodies(full), call);
    assert [] + [Line("", full)] == [Line("", full)];
    w := StreamResponses([], [Line("", full)], None, true, false, body => Some(call));
  }

  lemma OneFrame(full: string)
    requires TrimSpace(full) == full && full != ""
    ensures LastText([full]) == full && TrackAll("", [full]) == full
  {
    hide TrimSpace;
    assert [full][..0] == [] && [full][1..] == [];
  }

  lemma Texts1(line: Line)
    requires line.text != ""
    ensures Texts([line]) == [line.text]
  {
    assert [line][..0] == [] && [line][1..] == [];
  }

  lemma DecodedSome(bodies: seq<string>, call: ToolCall)
    requires bodies != []
    ensures DecodeAll(bodies, body => Some(call)) != []
  {
  }
}
