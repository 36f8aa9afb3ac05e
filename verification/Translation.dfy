/** The engine's stream translated into generation events: a queue filled by
    `absorb` and emptied by pulls. Frames arrive already decoded, in groups as
    the reads delivered them. */
module Translation {
  import opened Wrappers
  import opened Numbers

  function ClampU32(n: nat): nat { if n > U32_MAX then U32_MAX else n }

  datatype FinishReason = Stop | Length | ToolCalls

  datatype Usage = Usage(prompt: nat, completion: nat, total: nat, cached: nat)

  const NO_USAGE := Usage(0, 0, 0, 0)

  datatype Timings = Timings(promptN: nat, promptMs: real, predictedN: nat, predictedMs: real, cachedN: nat)

  datatype Event =
    | Started
    | ContentDelta(text: string)
    | ReasoningDelta(text: string)
    | ToolCallDelta(index: nat, id: Option<string>, name: Option<string>, arguments: Option<string>)
    | Timed(timings: Timings)
    | Finished(reason: FinishReason, usage: Usage)

  datatype BackendError =
    | GenerationFailed(detail: string)
    | EngineUnavailable
    | ContextOverflow(promptTokens: nat, nCtx: nat)

  type Item = Result<Event, BackendError>

  // ------------------------------------------------------ what the engine sends

  datatype ErrorBody = ErrorBody(kind: Option<string>, message: Option<string>, nPromptTokens: Option<nat>,
                                 nCtx: Option<nat>)

  datatype CallJson = CallJson(index: Option<nat>, id: Option<string>, name: Option<string>, arguments: Option<string>)

  datatype Delta = Delta(content: Option<string>, reasoningContent: Option<string>, reasoning: Option<string>,
                         toolCalls: seq<CallJson>)

  datatype Choice = Choice(delta: Option<Delta>, text: Option<string>, finishReason: Option<string>)

  /** One decoded event: `[DONE]`, a line that is not JSON, an error object, or
      a chunk. */
  datatype Frame =
    | Done
    | NotJson
    | Failure(body: ErrorBody)
    | Chunk(usage: Option<Usage>, timings: Option<Timings>, choice: Option<Choice>)

  predicate Terminal(frame: Frame) { frame.Done? || frame.Failure? }

  /** What one poll of the body yields; the body ends after the last of them. */
  datatype Read =
    | Frames(frames: seq<Frame>)
    | DecodeFailure(detail: string)
    | TransportFailure(error: BackendError)

  // ------------------------------------------------------------------- absorb

  datatype Flags = Flags(started: bool, finishReason: Option<FinishReason>, usage: Option<Usage>, finished: bool,
                         reported: bool)

  const FRESH := Flags(false, None, None, false, false)

  function UpstreamError(body: ErrorBody): BackendError {
    var nCtx := body.nCtx;
    if body.kind == Some("exceed_context_size_error") && nCtx.Some? && nCtx.value > 0 then
      ContextOverflow(ClampU32(if body.nPromptTokens.Some? then body.nPromptTokens.value else 0), ClampU32(nCtx.value))
    else
      GenerationFailed(if body.message.Some? then body.message.value else "the engine rejected the request")
  }

  function TextOf(text: Option<string>): string { if text.Some? then text.value else "" }

  function Content(text: Option<string>): seq<Item> {
    if TextOf(text) != "" then [Ok(ContentDelta(text.value))] else []
  }

  function ReasoningOf(delta: Delta): seq<Item> {
    if TextOf(delta.reasoningContent) != "" then [Ok(ReasoningDelta(delta.reasoningContent.value))]
    else if TextOf(delta.reasoning) != "" then [Ok(ReasoningDelta(delta.reasoning.value))]
    else []
  }

  function NonEmpty(text: Option<string>): Option<string> { if text == Some("") then None else text }

  function CallEvent(call: CallJson): Event {
    ToolCallDelta(ClampU32(if call.index.Some? then call.index.value else 0),
                  NonEmpty(call.id), NonEmpty(call.name), call.arguments)
  }

  function CallEvents(calls: seq<CallJson>): seq<Item> {
    if calls == [] then [] else [Ok(CallEvent(calls[0]))] + CallEvents(calls[1..])
  }

  function DeltaEvents(delta: Delta): seq<Item> {
    Content(delta.content) + ReasoningOf(delta) + CallEvents(delta.toolCalls)
  }

  function ChoiceEvents(choice: Option<Choice>): seq<Item> {
    if choice.None? then []
    else (if choice.value.delta.Some? then DeltaEvents(choice.value.delta.value) else []) + Content(choice.value.text)
  }

  function ReasonOf(text: string): FinishReason {
    if text == "length" then Length else if text == "tool_calls" then ToolCalls else Stop
  }

  /** The finish reason after a choice: its own, or the one known before. */
  function NewReason(known: Option<FinishReason>, choice: Choice): Option<FinishReason> {
    if choice.finishReason.Some? then Some(ReasonOf(choice.finishReason.value)) else known
  }

  function FinishItem(f: Flags): Item {
    Ok(Finished(if f.finishReason.Some? then f.finishReason.value else Length,
                if f.usage.Some? then f.usage.value else NO_USAGE))
  }

  datatype Absorption = Absorption(flags: Flags, pushed: seq<Item>)

  function StartItems(f: Flags): seq<Item> { if f.started then [] else [Ok(Started)] }

  function TimingItems(timings: Option<Timings>): seq<Item> {
    if timings.Some? then [Ok(Timed(timings.value))] else []
  }

  /** The new flags and the items pushed by one frame. */
  function Absorbed(f: Flags, frame: Frame): Absorption {
    match frame
    case Done =>
      Absorption(f.(finished := true, reported := true), if f.reported then [] else [FinishItem(f)])
    case NotJson => Absorption(f, [])
    case Failure(body) => Absorption(f.(finished := true, reported := true), [Err(UpstreamError(body))])
    case Chunk(usage, timings, choice) =>
      var reason := if choice.Some? then NewReason(f.finishReason, choice.value) else f.finishReason;
      Absorption(f.(started := true, usage := if usage.Some? then usage else f.usage, finishReason := reason),
                 StartItems(f) + TimingItems(timings) + ChoiceEvents(choice))
  }

  function AbsorbedAll(f: Flags, frames: seq<Frame>): Absorption
    decreases |frames|
  {
    if frames == [] then Absorption(f, [])
    else
      var first := Absorbed(f, frames[0]);
      var rest := AbsorbedAll(first.flags, frames[1..]);
      Absorption(rest.flags, first.pushed + rest.pushed)
  }

  // --------------------------------------------------- everything pulled from it

  /** What closing the body pushes. */
  function Closing(f: Flags): seq<Item> { if f.reported then [] else [FinishItem(f)] }

  /** Every item the stream still yields once its queue is empty. `polls` is how
      many polls of the body happen before a cancellation is seen, if one is. */
  function Output(f: Flags, body: seq<Read>, polls: Option<nat>): seq<Item>
    decreases |body|
  {
    if f.finished || polls == Some(0) then []
    else if body == [] then Closing(f)
    else
      match body[0]
      case DecodeFailure(detail) => [Err(GenerationFailed(detail))]
      case TransportFailure(error) => [Err(error)]
      case Frames(frames) =>
        var a := AbsorbedAll(f, frames);
        a.pushed + Output(a.flags, body[1..], if polls.Some? then Some(polls.value - 1) else None)
  }

  class Translator {
    var pending: seq<Item>
    var flags: Flags
    var body: seq<Read>
    var polls: Option<nat>

    /** What the consumer has yet to see. */
    ghost function Remaining(): seq<Item> reads this { pending + Output(flags, body, polls) }

    constructor (reads_: seq<Read>, polls_: Option<nat>)
      ensures Remaining() == Output(FRESH, reads_, polls_)
    {
      pending := [];
      flags := FRESH;
      body := reads_;
      polls := polls_;
    }

    method AbsorbDelta(delta: Delta)
      modifies this`pending
      ensures pending == old(pending) + DeltaEvents(delta)
    {
      if delta.content.Some? && delta.content.value != "" {
        pending := pending + [Ok(ContentDelta(delta.content.value))];
      }
      assert pending == old(pending) + Content(delta.content);
      if delta.reasoningContent.Some? && delta.reasoningContent.value != "" {
        pending := pending + [Ok(ReasoningDelta(delta.reasoningContent.value))];
      } else if delta.reasoning.Some? && delta.reasoning.value != "" {
        pending := pending + [Ok(ReasoningDelta(delta.reasoning.value))];
      }
      ghost var before := pending;
      assert before == old(pending) + Content(delta.content) + ReasoningOf(delta);
      PushCalls(delta.toolCalls);
      assert pending == old(pending) + (Content(delta.content) + ReasoningOf(delta) + CallEvents(delta.toolCalls));
    }

    method PushCalls(calls: seq<CallJson>)
      modifies this`pending
      ensures pending == old(pending) + CallEvents(calls)
    {
      hide CallEvent;
      for i := 0 to |calls|
        invariant pending + CallEvents(calls[i..]) == old(pending) + CallEvents(calls)
      {
        assert calls[i..][1..] == calls[i + 1..];
        Reassociate(pending, [Ok(CallEvent(calls[i]))], CallEvents(calls[i + 1..]));
        pending := pending + [Ok(CallEvent(calls[i]))];
      }
    }

    method AbsorbChunk(usage: Option<Usage>, timings: Option<Timings>, choice: Option<Choice>)
      modifies this`pending, this`flags
      ensures flags == Absorbed(old(flags), Chunk(usage, timings, choice)).flags
      ensures pending == old(pending) + Absorbed(old(flags), Chunk(usage, timings, choice)).pushed
    {
      hide DeltaEvents;
      ghost var was := pending;
      if !flags.started {
        flags := flags.(started := true);
        pending := pending + [Ok(Started)];
      }
      if usage.Some? {
        flags := flags.(usage := usage);
      }
      if timings.Some? {
        pending := pending + [Ok(Timed(timings.value))];
      }
      ghost var opening := StartItems(old(flags)) + TimingItems(timings);
      assert pending == was + opening;
      hide ChoiceEvents;
      if choice.Some? {
        AbsorbChoice(choice.value);
      } else {
        NoChoiceNoEvents();
      }
      Reassociate(was, opening, ChoiceEvents(choice));
    }

    method AbsorbChoice(choice: Choice)
      modifies this`pending, this`flags
      ensures flags == old(flags).(finishReason := NewReason(old(flags).finishReason, choice))
      ensures pending == old(pending) + ChoiceEvents(Some(choice))
    {
      hide DeltaEvents;
      hide ReasonOf;
      if choice.delta.Some? {
        AbsorbDelta(choice.delta.value);
      }
      if choice.text.Some? && choice.text.value != "" {
        pending := pending + [Ok(ContentDelta(choice.text.value))];
      }
      if choice.finishReason.Some? {
        flags := flags.(finishReason := Some(ReasonOf(choice.finishReason.value)));
      }
    }

    method Absorb(frame: Frame)
      modifies this`pending, this`flags
      ensures flags == Absorbed(old(flags), frame).flags
      ensures pending == old(pending) + Absorbed(old(flags), frame).pushed
    {
      match frame {
        case Done =>
          if !flags.reported {
            pending := pending + [FinishItem(flags)];
          }
          flags := flags.(finished := true, reported := true);
        case NotJson =>
        case Failure(body) =>
          flags := flags.(finished := true, reported := true);
          pending := pending + [Err(UpstreamError(body))];
        case Chunk(usage, timings, choice) =>
          AbsorbChunk(usage, timings, choice);
      }
    }

    /** The inner drain loop over one read's frames. */
    method AbsorbRead(frames: seq<Frame>)
      modifies this`pending, this`flags
      ensures flags == AbsorbedAll(old(flags), frames).flags
      ensures pending == old(pending) + AbsorbedAll(old(flags), frames).pushed
    {
      hide Absorbed;
      var i := 0;
      assert frames[0..] == frames;
      while i < |frames|
        invariant 0 <= i <= |frames|
        invariant AbsorbedAll(flags, frames[i..]).flags == AbsorbedAll(old(flags), frames).flags
        invariant pending + AbsorbedAll(flags, frames[i..]).pushed
               == old(pending) + AbsorbedAll(old(flags), frames).pushed
      {
        assert frames[i..][1..] == frames[i + 1..];
        ghost var step := Absorbed(flags, frames[i]);
        Reassociate(pending, step.pushed, AbsorbedAll(step.flags, frames[i + 1..]).pushed);
        Absorb(frames[i]);
        i := i + 1;
      }
    }

    /** One poll of the body with the queue empty: what it yields moves from the
        body to the queue and nothing is lost. */
    method Poll()
      requires pending == [] && !flags.finished && polls != Some(0)
      modifies this
      ensures Remaining() == old(Remaining())
      ensures |body| < |old(body)| || (body == old(body) && flags.finished)
    {
      hide AbsorbedAll;
      hide FinishItem;
      if body == [] {
        if !flags.reported {
          pending := [FinishItem(flags)];
        }
        flags := flags.(finished := true, reported := true);
      } else {
        var read := body[0];
        body := body[1..];
        match read {
          case DecodeFailure(detail) =>
            flags := flags.(finished := true);
            pending := [Err(GenerationFailed(detail))];
          case TransportFailure(error) =>
            flags := flags.(finished := true);
            pending := [Err(error)];
          case Frames(frames) =>
            polls := if polls.Some? then Some(polls.value - 1) else None;
            AbsorbRead(frames);
        }
      }
    }

    /** One pull: the queue first, then the body. The items pulled one after
        another are exactly `Output`. */
    method Next() returns (item: Option<Item>)
      modifies this
      ensures item.Some? ==> old(Remaining()) == [item.value] + Remaining()
      ensures item.None? ==> old(Remaining()) == []
    {
      hide Output;
      while true
        invariant Remaining() == old(Remaining())
        decreases |body|, if flags.finished then 0 else 1
      {
        if pending != [] {
          item := Some(pending[0]);
          assert pending == [pending[0]] + pending[1..];
          pending := pending[1..];
          return;
        }
        if flags.finished || polls == Some(0) {
          NothingLeft(flags, body, polls);
          return None;
        }
        Poll();
      }
    }
  }

  lemma NoChoiceNoEvents()
    ensures ChoiceEvents(None) == []
  {
  }

  lemma NothingLeft(f: Flags, body: seq<Read>, polls: Option<nat>)
    requires f.finished || polls == Some(0)
    ensures Output(f, body, polls) == []
  {
  }

  lemma Reassociate<T>(a: seq<T>, b: seq<T>, c: seq<T>)
    ensures a + (b + c) == (a + b) + c
  {
  }
}
