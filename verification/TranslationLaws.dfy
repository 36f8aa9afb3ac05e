/** What a consumer of the translated stream may rely on, for every body. */
module TranslationLaws {
  import opened Wrappers
  import opened Numbers
  import opened Translation

  // ------------------------------------------------------------ grouping

  /** The frames that arrive, one after another: those of the reads before the
      first that fails. */
  function Flatten(body: seq<Read>): seq<Frame>
    decreases |body|
  {
    if body == [] || !body[0].Frames? then [] else body[0].frames + Flatten(body[1..])
  }

  /** How the body fails, if it does. */
  function Breakage(body: seq<Read>): Option<BackendError>
    decreases |body|
  {
    if body == [] then None
    else match body[0]
      case Frames(_) => Breakage(body[1..])
      case DecodeFailure(detail) => Some(GenerationFailed(detail))
      case TransportFailure(error) => Some(error)
  }

  predicate HasTerminal(frames: seq<Frame>) { exists i :: 0 <= i < |frames| && Terminal(frames[i]) }

  /** The reads up to and including the first that carries a terminal frame, and
      short of the first that fails. */
  function Delivered(body: seq<Read>): seq<Read>
    decreases |body|
  {
    if body == [] || !body[0].Frames? then []
    else if HasTerminal(body[0].frames) then [body[0]]
    else [body[0]] + Delivered(body[1..])
  }

  /** What ends a stream no terminal frame has ended: the failure, or the
      closing item. */
  function Ending(f: Flags, broken: Option<BackendError>): seq<Item> {
    if f.finished then [] else if broken.Some? then [Err(broken.value)] else Closing(f)
  }

  /** The pure fold over a list of frames and what broke off after them. */
  function Fold(f: Flags, frames: seq<Frame>, broken: Option<BackendError>): seq<Item> {
    var a := AbsorbedAll(f, frames);
    a.pushed + Ending(a.flags, broken)
  }

  lemma {:induction false} AbsorbSplits(f: Flags, a: seq<Frame>, b: seq<Frame>)
    ensures AbsorbedAll(f, a + b).flags == AbsorbedAll(AbsorbedAll(f, a).flags, b).flags
    ensures AbsorbedAll(f, a + b).pushed == AbsorbedAll(f, a).pushed + AbsorbedAll(AbsorbedAll(f, a).flags, b).pushed
    decreases |a|
  {
    hide Absorbed;
    if a == [] {
      assert a + b == b;
    } else {
      assert (a + b)[1..] == a[1..] + b;
      var first := Absorbed(f, a[0]);
      AbsorbSplits(first.flags, a[1..], b);
      Reassociate(first.pushed, AbsorbedAll(first.flags, a[1..]).pushed,
                  AbsorbedAll(AbsorbedAll(f, a).flags, b).pushed);
    }
  }

  lemma {:induction false} FinishedMeansTerminal(f: Flags, frames: seq<Frame>)
    ensures AbsorbedAll(f, frames).flags.finished <==> f.finished || HasTerminal(frames)
    ensures f.started ==> AbsorbedAll(f, frames).flags.started
    ensures f.reported ==> AbsorbedAll(f, frames).flags.reported
    ensures HasTerminal(frames) ==> AbsorbedAll(f, frames).flags.reported
    decreases |frames|
  {
    if frames == [] {
    } else {
      var rest := frames[1..];
      FinishedMeansTerminal(Absorbed(f, frames[0]).flags, rest);
      assert HasTerminal(frames) <==> Terminal(frames[0]) || HasTerminal(rest) by {
        if HasTerminal(rest) {
          var i :| 0 <= i < |rest| && Terminal(rest[i]);
          assert frames[i + 1] == rest[i];
        }
        if HasTerminal(frames) && !Terminal(frames[0]) {
          var i :| 0 <= i < |frames| && Terminal(frames[i]);
          assert rest[i - 1] == frames[i];
        }
      }
    }
  }

  /** For every body and every grouping, the output is the fold over the frames
      of the reads that were delivered: everything up to the end of the read in
      which the first terminal frame arrived, or up to the failure. */
  lemma {:induction false} OutputIsFold(f: Flags, body: seq<Read>)
    requires !f.finished
    ensures Output(f, body, None) == Fold(f, Flatten(Delivered(body)), Breakage(body))
    decreases |body|
  {
    if body == [] || !body[0].Frames? {
      assert Flatten(Delivered(body)) == [];
    } else {
      var frames := body[0].frames;
      var a := AbsorbedAll(f, frames);
      FinishedMeansTerminal(f, frames);
      if HasTerminal(frames) {
        assert Delivered(body)[1..] == [];
        assert Flatten(Delivered(body)) == frames;
      } else {
        OutputIsFold(a.flags, body[1..]);
        var rest := Flatten(Delivered(body[1..]));
        assert Delivered(body)[1..] == Delivered(body[1..]);
        assert Flatten(Delivered(body)) == frames + rest;
        AbsorbSplits(f, frames, rest);
        var b := AbsorbedAll(a.flags, rest);
        Reassociate(a.pushed, b.pushed, Ending(b.flags, Breakage(body)));
      }
    }
  }

  /** The engine stops at its terminal frame. */
  ghost predicate StopsAtTerminal(frames: seq<Frame>) {
    forall i :: 0 <= i < |frames| - 1 ==> !Terminal(frames[i])
  }

  lemma {:induction false} AllDelivered(body: seq<Read>)
    requires StopsAtTerminal(Flatten(body))
    ensures Flatten(Delivered(body)) == Flatten(body)
    decreases |body|
  {
    if body == [] || !body[0].Frames? {
    } else {
      var frames, rest := body[0].frames, Flatten(body[1..]);
      assert Flatten(body) == frames + rest;
      if HasTerminal(frames) {
        var i :| 0 <= i < |frames| && Terminal(frames[i]);
        assert (frames + rest)[i] == frames[i];
        assert |rest| == 0;
        assert Delivered(body)[1..] == [];
      } else {
        forall i | 0 <= i < |rest| - 1 ensures !Terminal(rest[i]) {
          assert Flatten(body)[|frames| + i] == rest[i];
        }
        AllDelivered(body[1..]);
        assert Delivered(body)[1..] == Delivered(body[1..]);
      }
    }
  }

  /** For an engine that stops at its terminal frame, the pulled stream is the
      fold over its frames, however they were grouped into reads. */
  lemma GroupingDoesNotMatter(body: seq<Read>)
    requires StopsAtTerminal(Flatten(body))
    ensures Output(FRESH, body, None) == Fold(FRESH, Flatten(body), Breakage(body))
  {
    AllDelivered(body);
    OutputIsFold(FRESH, body);
  }

  // ------------------------------------------------- after the terminal frame

  /** A choice whose text, content and reasoning, in either spelling, are empty
      or absent and that calls no tool. */
  predicate SaysNothing(choice: Choice) {
    && TextOf(choice.text) == ""
    && (choice.delta.Some? ==>
          && TextOf(choice.delta.value.content) == ""
          && TextOf(choice.delta.value.reasoningContent) == ""
          && TextOf(choice.delta.value.reasoning) == ""
          && choice.delta.value.toolCalls == [])
  }

  /** A frame with nothing for the consumer once the stream has been reported
      over, given whether a chunk came before that. */
  predicate Silent(begun: bool, frame: Frame) {
    match frame
    case Done => true
    case NotJson => true
    case Failure(_) => false
    case Chunk(_, timings, choice) => begun && timings.None? && (choice.Some? ==> SaysNothing(choice.value))
  }

  lemma SaysNothingIff(choice: Choice)
    ensures ChoiceEvents(Some(choice)) == [] <==> SaysNothing(choice)
  {
    if choice.delta.Some? {
      var delta := choice.delta.value;
      assert CallEvents(delta.toolCalls) == [] <==> delta.toolCalls == [];
      assert |DeltaEvents(delta)| == |Content(delta.content)| + |ReasoningOf(delta)| + |CallEvents(delta.toolCalls)|;
    }
  }

  lemma SilentPushesNothing(f: Flags, frame: Frame)
    requires f.reported
    ensures Absorbed(f, frame).pushed == [] <==> Silent(f.started, frame)
  {
    if frame.Chunk? && frame.choice.Some? {
      SaysNothingIff(frame.choice.value);
    }
    hide ChoiceEvents;
    hide SaysNothing;
    if frame.Chunk? && frame.choice.None? {
      NoChoiceNoEvents();
    }
  }

  /** Once the stream is reported over, the drain loop queues nothing more exactly
      when every later frame of the same read is silent. */
  lemma {:induction false} NothingFollowsIffSilent(f: Flags, later: seq<Frame>)
    requires f.reported
    ensures AbsorbedAll(f, later).pushed == [] <==> forall i :: 0 <= i < |later| ==> Silent(f.started, later[i])
    decreases |later|
  {
    hide ChoiceEvents;
    hide Silent;
    if later == [] {
    } else {
      var first := Absorbed(f, later[0]);
      NothingFollowsIffSilent(first.flags, later[1..]);
      SilentPushesNothing(f, later[0]);
      assert AbsorbedAll(f, later).pushed == first.pushed + AbsorbedAll(first.flags, later[1..]).pushed;
      if first.pushed == [] {
        assert first.flags.started == f.started;
        assert forall i :: 0 < i < |later| ==> later[i] == later[1..][i - 1];
        assert forall i :: 0 <= i < |later[1..]| ==> later[1..][i] == later[i + 1];
      }
    }
  }

  /** An engine that goes on after `[DONE]` within one read does get through,
      and the same frames in separate reads do not: grouping then matters. */
  lemma TextAfterDoneGetsThrough(text: string)
    requires text != ""
    ensures var late := Chunk(None, None, Some(Choice(None, Some(text), None)));
            && Output(FRESH, [Frames([Done, late])], None) == [FinishItem(FRESH), Ok(Started), Ok(ContentDelta(text))]
            && Output(FRESH, [Frames([Done]), Frames([late])], None) == [FinishItem(FRESH)]
  {
    var late := Chunk(None, None, Some(Choice(None, Some(text), None)));
    var both := [Done, late];
    assert both[1..] == [late] && [late][1..] == [];
    var done := [Done];
    assert done[1..] == [];
    var f := Absorbed(FRESH, Done).flags;
    assert Absorbed(f, late).pushed == [Ok(Started), Ok(ContentDelta(text))];
    assert AbsorbedAll(f, [late]).pushed == [Ok(Started), Ok(ContentDelta(text))];
    assert AbsorbedAll(FRESH, both).pushed == [FinishItem(FRESH), Ok(Started), Ok(ContentDelta(text))];
    assert AbsorbedAll(FRESH, done).pushed == [FinishItem(FRESH)];
    assert AbsorbedAll(FRESH, both).flags.finished && AbsorbedAll(FRESH, done).flags.finished;
  }

  // --------------------------------------------------------- whole-run counts

  function Starts(items: seq<Item>): nat {
    if items == [] then 0 else (if items[0] == Ok(Started) then 1 else 0) + Starts(items[1..])
  }

  predicate IsFinish(item: Item) { item.Ok? && item.value.Finished? }

  function Finishes(items: seq<Item>): nat {
    if items == [] then 0 else (if IsFinish(items[0]) then 1 else 0) + Finishes(items[1..])
  }

  function Bit(b: bool): nat { if b then 1 else 0 }

  /** Neither `Started`, nor a finish, nor an error: what needs a start first. */
  predicate IsOutput(item: Item) { item.Ok? && !item.value.Started? && !item.value.Finished? }

  /** Every delta and timing comes after `Started`, given whether one already has. */
  predicate StartedFirst(started: bool, items: seq<Item>)
    decreases |items|
  {
    items == [] || ((IsOutput(items[0]) ==> started) && StartedFirst(started || items[0] == Ok(Started), items[1..]))
  }

  predicate Ends(item: Item) { item.Err? || IsFinish(item) }

  lemma {:induction false} CountsAdd(a: seq<Item>, b: seq<Item>)
    ensures Starts(a + b) == Starts(a) + Starts(b)
    ensures Finishes(a + b) == Finishes(a) + Finishes(b)
  {
    if a == [] {
      assert a + b == b;
    } else {
      assert (a + b)[1..] == a[1..] + b;
      CountsAdd(a[1..], b);
    }
  }

  lemma {:induction false} StartedFirstAdds(started: bool, a: seq<Item>, b: seq<Item>)
    requires StartedFirst(started, a) && StartedFirst(started || Starts(a) > 0, b)
    ensures StartedFirst(started, a + b)
    decreases |a|
  {
    if a == [] {
      assert a + b == b;
    } else {
      assert (a + b)[1..] == a[1..] + b;
      StartedFirstAdds(started || a[0] == Ok(Started), a[1..], b);
    }
  }

  /** Only deltas: what a choice pushes. */
  lemma {:induction false} OnlyDeltas(items: seq<Item>)
    requires forall i :: i in items ==> IsOutput(i)
    ensures Starts(items) == 0 && Finishes(items) == 0 && StartedFirst(true, items)
    decreases |items|
  {
    if items == [] {
    } else {
      assert items[0] in items && forall i :: i in items[1..] ==> i in items;
      OnlyDeltas(items[1..]);
    }
  }

  lemma {:induction false} CallsAreDeltas(calls: seq<CallJson>)
    ensures forall i :: i in CallEvents(calls) ==> IsOutput(i)
  {
    if calls == [] {
    } else {
      CallsAreDeltas(calls[1..]);
    }
  }

  lemma ChoiceIsDeltas(choice: Option<Choice>)
    ensures forall i :: i in ChoiceEvents(choice) ==> IsOutput(i)
  {
    if choice.Some? && choice.value.delta.Some? {
      CallsAreDeltas(choice.value.delta.value.toolCalls);
    }
  }

  /** One frame: `Started` is pushed exactly when the flag turns, a finish only
      when `reported` turns, and nothing before its start. */
  lemma FrameCounts(f: Flags, frame: Frame)
    ensures var a := Absorbed(f, frame);
            && Starts(a.pushed) + Bit(f.started) == Bit(a.flags.started)
            && Finishes(a.pushed) + Bit(f.reported) <= Bit(a.flags.reported)
            && StartedFirst(f.started, a.pushed)
  {
    if frame.Chunk? {
      hide ChoiceEvents;
      var start, timed, events := StartItems(f), TimingItems(frame.timings), ChoiceEvents(frame.choice);
      ChoiceIsDeltas(frame.choice);
      OnlyDeltas(events);
      OnlyDeltas(timed);
      CountsAdd(start, timed);
      CountsAdd(start + timed, events);
      assert Starts(start) == 1 - Bit(f.started) && Finishes(start) == 0;
      StartedFirstAdds(f.started, start, timed);
      StartedFirstAdds(f.started, start + timed, events);
    }
  }

  lemma {:induction false} FramesCounts(f: Flags, frames: seq<Frame>)
    ensures var a := AbsorbedAll(f, frames);
            && Starts(a.pushed) + Bit(f.started) == Bit(a.flags.started)
            && Finishes(a.pushed) + Bit(f.reported) <= Bit(a.flags.reported)
            && StartedFirst(f.started, a.pushed)
    decreases |frames|
  {
    if frames == [] {
    } else {
      hide Absorbed;
      var first := Absorbed(f, frames[0]);
      var rest := AbsorbedAll(first.flags, frames[1..]);
      FrameCounts(f, frames[0]);
      FramesCounts(first.flags, frames[1..]);
      CountsAdd(first.pushed, rest.pushed);
      StartedFirstAdds(f.started, first.pushed, rest.pushed);
    }
  }

  /** For every body and every moment of cancellation: at most one `Started`, at
      most one finish, and every delta and timing after `Started`. */
  lemma {:induction false} EveryBodyIsOrderly(f: Flags, body: seq<Read>, polls: Option<nat>)
    ensures Starts(Output(f, body, polls)) + Bit(f.started) <= 1
    ensures Finishes(Output(f, body, polls)) + Bit(f.reported) <= 1
    ensures StartedFirst(f.started, Output(f, body, polls))
    decreases |body|
  {
    if f.finished || polls == Some(0) || body == [] || !body[0].Frames? {
    } else {
      hide AbsorbedAll;
      var a := AbsorbedAll(f, body[0].frames);
      var left := if polls.Some? then Some(polls.value - 1) else None;
      FramesCounts(f, body[0].frames);
      EveryBodyIsOrderly(a.flags, body[1..], left);
      CountsAdd(a.pushed, Output(a.flags, body[1..], left));
      StartedFirstAdds(f.started, a.pushed, Output(a.flags, body[1..], left));
    }
  }

  lemma {:induction false} ReportedMeansEnded(f: Flags, frames: seq<Frame>)
    requires AbsorbedAll(f, frames).flags.reported && !f.reported
    ensures exists i :: i in AbsorbedAll(f, frames).pushed && Ends(i)
    decreases |frames|
  {
    var first := Absorbed(f, frames[0]);
    if first.flags.reported {
      assert Ends(first.pushed[0]) && first.pushed[0] in AbsorbedAll(f, frames).pushed;
    } else {
      ReportedMeansEnded(first.flags, frames[1..]);
      var i :| i in AbsorbedAll(first.flags, frames[1..]).pushed && Ends(i);
      assert i in AbsorbedAll(f, frames).pushed;
    }
  }

  /** A body drained without cancellation always says how it ended. */
  lemma {:induction false} DrainedBodySaysHowItEnded(f: Flags, body: seq<Read>)
    requires !f.finished && !f.reported
    ensures exists i :: i in Output(f, body, None) && Ends(i)
    decreases |body|
  {
    if body == [] {
      assert Output(f, body, None) == [FinishItem(f)];
      assert Ends(FinishItem(f)) && FinishItem(f) in Output(f, body, None);
    } else if !body[0].Frames? {
      assert Ends(Output(f, body, None)[0]);
    } else {
      hide Absorbed;
      var a := AbsorbedAll(f, body[0].frames);
      FinishedMeansTerminal(f, body[0].frames);
      if a.flags.reported {
        ReportedMeansEnded(f, body[0].frames);
        var i :| i in a.pushed && Ends(i);
        assert i in Output(f, body, None);
      } else {
        DrainedBodySaysHowItEnded(a.flags, body[1..]);
        var i :| i in Output(a.flags, body[1..], None) && Ends(i);
        assert i in Output(f, body, None);
      }
    }
  }

  lemma {:induction false} NoTerminalNoEnd(f: Flags, frames: seq<Frame>)
    requires !HasTerminal(frames)
    ensures var a := AbsorbedAll(f, frames);
            && a.flags.reported == f.reported && a.flags.finished == f.finished
            && forall i :: i in a.pushed ==> !Ends(i)
    decreases |frames|
  {
    if frames == [] {
    } else {
      assert frames[0] == frames[0] && !Terminal(frames[0]);
      forall i | 0 <= i < |frames[1..]| ensures !Terminal(frames[1..][i]) {
        assert frames[1..][i] == frames[i + 1];
      }
      var first := Absorbed(f, frames[0]);
      NoTerminalNoEnd(first.flags, frames[1..]);
      if frames[0].Chunk? {
        ChoiceIsDeltas(frames[0].choice);
      }
      hide ChoiceEvents;
      assert forall i :: i in first.pushed ==> !Ends(i);
    }
  }

  /** Exactly one item says how the stream ended, and it is the last. */
  ghost predicate EndingIsLast(items: seq<Item>) {
    && items != []
    && Ends(items[|items| - 1])
    && forall k :: 0 <= k < |items| - 1 ==> !Ends(items[k])
  }

  predicate Begun(frames: seq<Frame>) { exists i :: 0 <= i < |frames| && frames[i].Chunk? }

  ghost predicate FirstTerminal(frames: seq<Frame>, k: int) {
    0 <= k < |frames| && Terminal(frames[k]) && forall i :: 0 <= i < k ==> !Terminal(frames[i])
  }

  /** What arrives after the first terminal frame has nothing for the consumer. */
  ghost predicate QuietAfterTerminal(frames: seq<Frame>) {
    forall k, j :: FirstTerminal(frames, k) && k < j < |frames| ==> Silent(Begun(frames[..k]), frames[j])
  }

  lemma {:induction false} StartedMeansBegun(f: Flags, frames: seq<Frame>)
    ensures AbsorbedAll(f, frames).flags.started <==> f.started || Begun(frames)
    decreases |frames|
  {
    if frames == [] {
    } else {
      var rest := frames[1..];
      StartedMeansBegun(Absorbed(f, frames[0]).flags, rest);
      assert Begun(frames) <==> frames[0].Chunk? || Begun(rest) by {
        if Begun(rest) {
          var i :| 0 <= i < |rest| && rest[i].Chunk?;
          assert frames[i + 1] == rest[i];
        }
        if Begun(frames) && !frames[0].Chunk? {
          var i :| 0 <= i < |frames| && frames[i].Chunk?;
          assert rest[i - 1] == frames[i];
        }
      }
    }
  }

  /** Frames split at their first terminal one: what comes before says nothing of
      an ending, the terminal frame says exactly one, and then come the rest. */
  lemma SplitAtTerminal(frames: seq<Frame>, k: int)
    requires FirstTerminal(frames, k)
    ensures var before := AbsorbedAll(FRESH, frames[..k]);
            var at := Absorbed(before.flags, frames[k]);
            && (forall i :: i in before.pushed ==> !Ends(i))
            && before.flags.started == Begun(frames[..k])
            && |at.pushed| == 1 && Ends(at.pushed[0])
            && at.flags.started == before.flags.started && at.flags.reported
            && AbsorbedAll(FRESH, frames).flags.finished
            && AbsorbedAll(FRESH, frames).pushed
               == before.pushed + at.pushed + AbsorbedAll(at.flags, frames[k + 1..]).pushed
  {
    hide AbsorbedAll;
    NoTerminalNoEnd(FRESH, frames[..k]);
    StartedMeansBegun(FRESH, frames[..k]);
    FinishedMeansTerminal(FRESH, frames);
    TerminalSaysOne(AbsorbedAll(FRESH, frames[..k]).flags, frames[k]);
    hide Absorbed;
    AbsorbAt(FRESH, frames, k);
  }

  lemma AbsorbAt(f: Flags, frames: seq<Frame>, k: int)
    requires 0 <= k < |frames|
    ensures var before := AbsorbedAll(f, frames[..k]);
            var at := Absorbed(before.flags, frames[k]);
            AbsorbedAll(f, frames).pushed
              == before.pushed + at.pushed + AbsorbedAll(at.flags, frames[k + 1..]).pushed
  {
    hide Absorbed;
    var last, later := [frames[k]], frames[k + 1..];
    var before := AbsorbedAll(f, frames[..k]);
    assert frames == frames[..k] + (last + later);
    AbsorbSplits(f, frames[..k], last + later);
    assert (last + later)[1..] == later;
    var at := Absorbed(before.flags, frames[k]);
    Reassociate(before.pushed, at.pushed, AbsorbedAll(at.flags, later).pushed);
  }

  lemma TerminalSaysOne(f: Flags, frame: Frame)
    requires Terminal(frame) && !f.reported
    ensures var at := Absorbed(f, frame);
            |at.pushed| == 1 && Ends(at.pushed[0]) && at.flags.started == f.started && at.flags.reported
  {
  }

  lemma EndThenMore(before: seq<Item>, end: Item, more: seq<Item>)
    requires Ends(end) && forall i :: i in before ==> !Ends(i)
    ensures EndingIsLast(before + [end] + more) <==> more == []
  {
    var items := before + [end] + more;
    assert items[|before|] == end;
    forall k | 0 <= k < |before| ensures !Ends(items[k]) {
      assert items[k] == before[k] && before[k] in before;
    }
  }

  lemma OneFirstTerminal(frames: seq<Frame>)
    ensures HasTerminal(frames) <==> exists k :: FirstTerminal(frames, k)
    ensures forall k, j :: FirstTerminal(frames, k) && FirstTerminal(frames, j) ==> k == j
  {
    if HasTerminal(frames) {
      var k := 0;
      while !Terminal(frames[k])
        invariant 0 <= k < |frames|
        invariant forall i :: 0 <= i < k ==> !Terminal(frames[i])
        invariant exists i :: k <= i < |frames| && Terminal(frames[i])
        decreases |frames| - k
      {
        k := k + 1;
      }
      assert FirstTerminal(frames, k);
    }
  }

  lemma EndedByTerminal(frames: seq<Frame>, k: int)
    requires FirstTerminal(frames, k)
    ensures EndingIsLast(AbsorbedAll(FRESH, frames).pushed)
       <==> forall j :: k < j < |frames| ==> Silent(Begun(frames[..k]), frames[j])
  {
    hide Silent;
    hide EndingIsLast;
    hide AbsorbedAll;
    SplitAtTerminal(frames, k);
    var before := AbsorbedAll(FRESH, frames[..k]);
    var at := Absorbed(before.flags, frames[k]);
    hide Absorbed;
    var later := frames[k + 1..];
    assert at.pushed == [at.pushed[0]];
    EndThenMore(before.pushed, at.pushed[0], AbsorbedAll(at.flags, later).pushed);
    NothingFollowsIffSilent(at.flags, later);
    assert forall j :: k < j < |frames| ==> frames[j] == later[j - k - 1];
    assert forall i :: 0 <= i < |later| ==> later[i] == frames[k + 1 + i];
  }

  lemma EndedByItself(frames: seq<Frame>, broken: Option<BackendError>)
    requires !HasTerminal(frames)
    ensures EndingIsLast(Fold(FRESH, frames, broken))
  {
    NoTerminalNoEnd(FRESH, frames);
    var a := AbsorbedAll(FRESH, frames);
    hide AbsorbedAll;
    var ending := Ending(a.flags, broken);
    assert |ending| == 1 && ending == [ending[0]];
    EndThenMore(a.pushed, ending[0], []);
    assert a.pushed + [ending[0]] + [] == a.pushed + ending;
  }

  /** For every body, however grouped and however it breaks off: the item that
      says how the stream ended is the only one of its kind and the last item
      pulled if and only if every frame delivered after the first terminal one
      is silent. The drain loop does not look at `finished`. */
  lemma EndingIsLastIff(body: seq<Read>)
    ensures EndingIsLast(Output(FRESH, body, None)) <==> QuietAfterTerminal(Flatten(Delivered(body)))
  {
    hide Output;
    hide Silent;
    hide EndingIsLast;
    hide AbsorbedAll;
    OutputIsFold(FRESH, body);
    var frames := Flatten(Delivered(body));
    OneFirstTerminal(frames);
    if HasTerminal(frames) {
      var k :| FirstTerminal(frames, k);
      FinishedMeansTerminal(FRESH, frames);
      EndedByTerminal(frames, k);
      assert Output(FRESH, body, None) == AbsorbedAll(FRESH, frames).pushed;
    } else {
      EndedByItself(frames, Breakage(body));
    }
  }

  /** So it is for every engine that stops at its terminal frame. */
  lemma EndingIsLastAndOnly(body: seq<Read>)
    requires StopsAtTerminal(Flatten(body))
    ensures EndingIsLast(Output(FRESH, body, None))
  {
    hide Output;
    AllDelivered(body);
    EndingIsLastIff(body);
    assert forall k :: FirstTerminal(Flatten(body), k) ==> k == |Flatten(body)| - 1;
  }

  // ---------------------------------------------------------- how it is ended

  /** The last finish reason the frames give, or the one known before. */
  function LastReason(known: Option<FinishReason>, frames: seq<Frame>): Option<FinishReason> {
    if frames == [] then known
    else
      var last := frames[|frames| - 1];
      if last.Chunk? && last.choice.Some? && last.choice.value.finishReason.Some?
      then Some(ReasonOf(last.choice.value.finishReason.value))
      else LastReason(known, frames[..|frames| - 1])
  }

  /** The last usage the frames report, or the one known before. */
  function LastUsage(known: Option<Usage>, frames: seq<Frame>): Option<Usage> {
    if frames == [] then known
    else
      var last := frames[|frames| - 1];
      if last.Chunk? && last.usage.Some? then last.usage else LastUsage(known, frames[..|frames| - 1])
  }

  lemma FlagsAfterOne(f: Flags, frame: Frame)
    ensures var after := Absorbed(f, frame).flags;
            && after.finishReason == (if frame.Chunk? && frame.choice.Some? && frame.choice.value.finishReason.Some?
                                      then Some(ReasonOf(frame.choice.value.finishReason.value)) else f.finishReason)
            && after.usage == (if frame.Chunk? && frame.usage.Some? then frame.usage else f.usage)
  {
    hide ReasonOf;
    hide ChoiceEvents;
  }

  lemma {:induction false} FlagsRemember(f: Flags, frames: seq<Frame>)
    ensures AbsorbedAll(f, frames).flags.finishReason == LastReason(f.finishReason, frames)
    ensures AbsorbedAll(f, frames).flags.usage == LastUsage(f.usage, frames)
  {
    if frames == [] {
    } else {
      var init, last := frames[..|frames| - 1], frames[|frames| - 1];
      FlagsRemember(f, init);
      assert frames == init + [last];
      AbsorbSplits(f, init, [last]);
      assert [last][1..] == [];
      var before := AbsorbedAll(f, init).flags;
      FlagsAfterOne(before, last);
      hide Absorbed;
    }
  }

  /** What a finish says: the engine's last reason, or that the budget ran out
      when it gave none, and its last usage, or none. */
  function FinishAfter(frames: seq<Frame>): Item {
    var reason, usage := LastReason(None, frames), LastUsage(None, frames);
    Ok(Finished(if reason.Some? then reason.value else Length, if usage.Some? then usage.value else Usage(0, 0, 0, 0)))
  }

  /** For every body: a first terminal `[DONE]` is reported with the last reason
      and usage before it; so is the end of a body that neither ended nor broke
      off. */
  lemma FinishTellsTheLast(body: seq<Read>, k: int)
    ensures var frames := Flatten(Delivered(body));
            && (FirstTerminal(frames, k) && frames[k].Done? ==>
                  FinishAfter(frames[..k]) in Output(FRESH, body, None))
            && (!HasTerminal(frames) && Breakage(body).None? ==>
                  Output(FRESH, body, None) == AbsorbedAll(FRESH, frames).pushed + [FinishAfter(frames)])
  {
    hide Output;
    OutputIsFold(FRESH, body);
    var frames := Flatten(Delivered(body));
    hide AbsorbedAll;
    if FirstTerminal(frames, k) && frames[k].Done? {
      SplitAtTerminal(frames, k);
      NoTerminalNoEnd(FRESH, frames[..k]);
      FlagsRemember(FRESH, frames[..k]);
      var before := AbsorbedAll(FRESH, frames[..k]);
      assert Absorbed(before.flags, Done).pushed == [FinishItem(before.flags)];
      assert FinishItem(before.flags) == FinishAfter(frames[..k]);
    } else if !HasTerminal(frames) {
      NoTerminalNoEnd(FRESH, frames);
      FlagsRemember(FRESH, frames);
    }
  }

  /** The three reasons, by the engine's word: anything else is a plain stop. */
  lemma ReasonsByTheirWord(text: string)
    ensures ReasonOf(text) == Length <==> text == "length"
    ensures ReasonOf(text) == ToolCalls <==> text == "tool_calls"
    ensures ReasonOf(text) == Stop <==> text != "length" && text != "tool_calls"
  {
    assert "length"[0] != "tool_calls"[0];
  }

  /** An error object is reported as an overlong prompt exactly when it says so and
      gives a positive context length; both numbers are then kept, cut to 32 bits.
      Otherwise its message is, or a stock one. */
  lemma ErrorSays(body: ErrorBody)
    ensures UpstreamError(body).ContextOverflow? <==>
              body.kind == Some("exceed_context_size_error") && body.nCtx.Some? && body.nCtx.value > 0
    ensures UpstreamError(body).ContextOverflow? ==>
              && UpstreamError(body).nCtx == Min(body.nCtx.value, 0xFFFF_FFFF)
              && UpstreamError(body).promptTokens
                 == (if body.nPromptTokens.Some? then Min(body.nPromptTokens.value, 0xFFFF_FFFF) else 0)
    ensures !UpstreamError(body).ContextOverflow? ==>
              UpstreamError(body)
              == GenerationFailed(if body.message.Some? then body.message.value else "the engine rejected the request")
  {
  }

  // ------------------------------------------- the rest of what a stream carries

  /** What a consumer picks out of the items, one after another. */
  function Picked<T>(pick: Item -> seq<T>, items: seq<Item>): seq<T> {
    if items == [] then [] else pick(items[0]) + Picked(pick, items[1..])
  }

  lemma {:induction false} PickedAdds<T>(pick: Item -> seq<T>, a: seq<Item>, b: seq<Item>)
    ensures Picked(pick, a + b) == Picked(pick, a) + Picked(pick, b)
  {
    if a == [] {
      assert a + b == b;
    } else {
      assert (a + b)[1..] == a[1..] + b;
      PickedAdds(pick, a[1..], b);
      assert pick(a[0]) + (Picked(pick, a[1..]) + Picked(pick, b))
          == (pick(a[0]) + Picked(pick, a[1..])) + Picked(pick, b);
    }
  }

  lemma PickedOne<T>(pick: Item -> seq<T>, item: Item)
    ensures Picked(pick, [item]) == pick(item)
  {
    assert [item][1..] == [];
  }

  lemma {:induction false} NothingPicked<T>(pick: Item -> seq<T>, items: seq<Item>)
    requires forall i :: i in items ==> pick(i) == []
    ensures Picked(pick, items) == []
  {
    if items == [] {
    } else {
      assert items[0] in items && forall i :: i in items[1..] ==> i in items;
      NothingPicked(pick, items[1..]);
    }
  }

  /** The parts of a delta, in the order they are queued. */
  lemma DeltaPicked<T>(pick: Item -> seq<T>, delta: Delta)
    ensures Picked(pick, DeltaEvents(delta))
         == Picked(pick, Content(delta.content)) + Picked(pick, ReasoningOf(delta))
            + Picked(pick, CallEvents(delta.toolCalls))
  {
    PickedAdds(pick, Content(delta.content) + ReasoningOf(delta), CallEvents(delta.toolCalls));
    PickedAdds(pick, Content(delta.content), ReasoningOf(delta));
  }

  lemma ChunkPicked<T>(pick: Item -> seq<T>, f: Flags, frame: Frame)
    requires frame.Chunk?
    ensures Picked(pick, Absorbed(f, frame).pushed)
         == Picked(pick, StartItems(f)) + Picked(pick, TimingItems(frame.timings))
            + Picked(pick, ChoiceEvents(frame.choice))
  {
    hide Picked;
    hide ChoiceEvents;
    PickedAdds(pick, StartItems(f) + TimingItems(frame.timings), ChoiceEvents(frame.choice));
    PickedAdds(pick, StartItems(f), TimingItems(frame.timings));
  }

  function ReasoningIn(item: Item): string {
    if item.Ok? && item.value.ReasoningDelta? then item.value.text else ""
  }

  function TimingsIn(item: Item): seq<Timings> {
    if item.Ok? && item.value.Timed? then [item.value.timings] else []
  }

  /** The reasoning a frame carries: the first spelling if it says anything, and
      otherwise the second. */
  function DeltaReasoning(delta: Delta): string {
    if delta.reasoningContent.Some? && delta.reasoningContent.value != "" then delta.reasoningContent.value
    else if delta.reasoning.Some? then delta.reasoning.value
    else ""
  }

  function FrameReasoning(frame: Frame): string {
    if frame.Chunk? && frame.choice.Some? && frame.choice.value.delta.Some?
    then DeltaReasoning(frame.choice.value.delta.value) else ""
  }

  function FrameTimings(frame: Frame): seq<Timings> {
    if frame.Chunk? && frame.timings.Some? then [frame.timings.value] else []
  }

  function Gathered<T>(of: Frame -> seq<T>, frames: seq<Frame>): seq<T> {
    if frames == [] then [] else of(frames[0]) + Gathered(of, frames[1..])
  }

  lemma ReasoningPicked(delta: Delta)
    ensures Picked(ReasoningIn, ReasoningOf(delta)) == DeltaReasoning(delta)
  {
    if ReasoningOf(delta) != [] {
      assert ReasoningOf(delta) == [ReasoningOf(delta)[0]];
      PickedOne(ReasoningIn, ReasoningOf(delta)[0]);
    }
  }

  lemma ContentHasNoReasoning(text: Option<string>)
    ensures Picked(ReasoningIn, Content(text)) == ""
  {
    NothingPicked(ReasoningIn, Content(text));
  }

  lemma CallsHaveNoReasoning(calls: seq<CallJson>)
    ensures Picked(ReasoningIn, CallEvents(calls)) == ""
  {
    CallsAreCalls(calls);
    hide CallEvents;
    NothingPicked(ReasoningIn, CallEvents(calls));
  }

  lemma DeltaReasoningPicked(delta: Delta)
    ensures Picked(ReasoningIn, DeltaEvents(delta)) == DeltaReasoning(delta)
  {
    hide *;
    ContentHasNoReasoning(delta.content);
    ReasoningPicked(delta);
    CallsHaveNoReasoning(delta.toolCalls);
    DeltaPicked(ReasoningIn, delta);
  }

  lemma ChoiceReasoning(choice: Option<Choice>)
    ensures Picked(ReasoningIn, ChoiceEvents(choice)) == FrameReasoning(Chunk(None, None, choice))
  {
    hide Picked;
    hide Content;
    hide DeltaEvents;
    hide DeltaReasoning;
    if choice.Some? {
      var c := choice.value;
      ContentHasNoReasoning(c.text);
      if c.delta.Some? {
        DeltaReasoningPicked(c.delta.value);
        PickedAdds(ReasoningIn, DeltaEvents(c.delta.value), Content(c.text));
      } else {
        assert [] + Content(c.text) == Content(c.text);
      }
    } else {
      NothingPicked(ReasoningIn, []);
    }
  }

  lemma {:induction false} CallsAreCalls(calls: seq<CallJson>)
    ensures forall i :: i in CallEvents(calls) ==> i.Ok? && i.value.ToolCallDelta?
  {
    if calls == [] {
    } else {
      CallsAreCalls(calls[1..]);
    }
  }

  lemma FrameReasoningPreserved(f: Flags, frame: Frame)
    ensures Picked(ReasoningIn, Absorbed(f, frame).pushed) == FrameReasoning(frame)
  {
    if frame.Chunk? {
      NothingPicked(ReasoningIn, StartItems(f));
      NothingPicked(ReasoningIn, TimingItems(frame.timings));
      ChoiceReasoning(frame.choice);
      ChunkPicked(ReasoningIn, f, frame);
      hide Picked;
      hide ChoiceEvents;
      hide Absorbed;
    } else {
      NothingPicked(ReasoningIn, Absorbed(f, frame).pushed);
    }
  }

  lemma FrameTimingsPreserved(f: Flags, frame: Frame)
    ensures Picked(TimingsIn, Absorbed(f, frame).pushed) == FrameTimings(frame)
  {
    if frame.Chunk? {
      NothingPicked(TimingsIn, StartItems(f));
      if frame.timings.Some? {
        PickedOne(TimingsIn, Ok(Timed(frame.timings.value)));
      }
      ChoiceTells(frame.choice);
      NothingPicked(TimingsIn, ChoiceEvents(frame.choice));
      ChunkPicked(TimingsIn, f, frame);
      hide ChoiceEvents;
    } else {
      NothingPicked(TimingsIn, Absorbed(f, frame).pushed);
    }
  }

  /** A choice queues text, reasoning and calls, and nothing else. */
  lemma ChoiceTells(choice: Option<Choice>)
    ensures forall i :: i in ChoiceEvents(choice) ==>
              i.Ok? && (i.value.ContentDelta? || i.value.ReasoningDelta? || i.value.ToolCallDelta?)
  {
    if choice.Some? && choice.value.delta.Some? {
      CallsAreCalls(choice.value.delta.value.toolCalls);
    }
  }

  lemma {:induction false} FramesPreserve<T>(pick: Item -> seq<T>, of: Frame -> seq<T>, f: Flags, frames: seq<Frame>)
    requires forall g, frame :: Picked(pick, Absorbed(g, frame).pushed) == of(frame)
    ensures Picked(pick, AbsorbedAll(f, frames).pushed) == Gathered(of, frames)
    decreases |frames|
  {
    if frames == [] {
    } else {
      hide Absorbed;
      var first := Absorbed(f, frames[0]);
      FramesPreserve(pick, of, first.flags, frames[1..]);
      PickedAdds(pick, first.pushed, AbsorbedAll(first.flags, frames[1..]).pushed);
    }
  }

  /** For every body: the reasoning text and the timings that reach the consumer are
      those of the delivered frames, in order, and no others. */
  lemma ReasoningAndTimingsPreserved(body: seq<Read>)
    ensures var out, frames := Output(FRESH, body, None), Flatten(Delivered(body));
            && Picked(ReasoningIn, out) == Gathered(FrameReasoning, frames)
            && Picked(TimingsIn, out) == Gathered(FrameTimings, frames)
  {
    hide Output;
    var frames := Flatten(Delivered(body));
    OutputIsFold(FRESH, body);
    forall g, frame ensures Picked(ReasoningIn, Absorbed(g, frame).pushed) == FrameReasoning(frame) {
      FrameReasoningPreserved(g, frame);
    }
    forall g, frame ensures Picked(TimingsIn, Absorbed(g, frame).pushed) == FrameTimings(frame) {
      FrameTimingsPreserved(g, frame);
    }
    FramesPreserve(ReasoningIn, FrameReasoning, FRESH, frames);
    FramesPreserve(TimingsIn, FrameTimings, FRESH, frames);
    var a := AbsorbedAll(FRESH, frames);
    hide AbsorbedAll;
    hide Absorbed;
    var ending := Ending(a.flags, Breakage(body));
    NothingPicked(ReasoningIn, ending);
    NothingPicked(TimingsIn, ending);
    PickedAdds(ReasoningIn, a.pushed, ending);
    PickedAdds(TimingsIn, a.pushed, ending);
  }

  /** One chunk that says everything is told in one order: the start, the timings,
      the content, the reasoning, the calls, and the completion text last. */
  lemma OneChunkInOrder(timings: Timings, content: string, reasoning: string, call: CallJson, text: string)
    requires content != "" && reasoning != "" && text != ""
    ensures var delta := Delta(Some(content), Some(reasoning), None, [call]);
            var chunk := Chunk(None, Some(timings), Some(Choice(Some(delta), Some(text), None)));
            Absorbed(FRESH, chunk).pushed
            == [Ok(Started), Ok(Timed(timings)), Ok(ContentDelta(content)), Ok(ReasoningDelta(reasoning)),
                Ok(CallEvent(call)), Ok(ContentDelta(text))]
  {
    hide CallEvent;
    assert [call][1..] == [];
    assert CallEvents([call]) == [Ok(CallEvent(call))];
  }

  // ------------------------------------------------------------- stray lines

  /** The frames that are JSON. */
  function Sense(frames: seq<Frame>): seq<Frame>
    decreases |frames|
  {
    if frames == [] then []
    else (if frames[0].NotJson? then [] else [frames[0]]) + Sense(frames[1..])
  }

  function SenseOf(read: Read): Read { if read.Frames? then Frames(Sense(read.frames)) else read }

  function SenseOfAll(body: seq<Read>): seq<Read>
    decreases |body|
  {
    if body == [] then [] else [SenseOf(body[0])] + SenseOfAll(body[1..])
  }

  lemma {:induction false} StrayFramesPushNothing(f: Flags, frames: seq<Frame>)
    ensures AbsorbedAll(f, Sense(frames)) == AbsorbedAll(f, frames)
    decreases |frames|
  {
    if frames == [] {
    } else {
      var first := Absorbed(f, frames[0]);
      StrayFramesPushNothing(first.flags, frames[1..]);
      if frames[0].NotJson? {
        assert Sense(frames) == Sense(frames[1..]);
        assert first.pushed == [] && first.flags == f;
        assert [] + AbsorbedAll(f, frames[1..]).pushed == AbsorbedAll(f, frames[1..]).pushed;
      } else {
        hide Absorbed;
        assert Sense(frames)[0] == frames[0] && Sense(frames)[1..] == Sense(frames[1..]);
      }
    }
  }

  /** Lines that are not JSON, anywhere in any body, change nothing a consumer
      sees, whenever it is cancelled. */
  lemma {:induction false} StrayLinesChangeNothing(f: Flags, body: seq<Read>, polls: Option<nat>)
    ensures Output(f, SenseOfAll(body), polls) == Output(f, body, polls)
    decreases |body|
  {
    if body == [] {
    } else {
      var clean := SenseOfAll(body);
      assert clean[0] == SenseOf(body[0]) && clean[1..] == SenseOfAll(body[1..]);
      hide AbsorbedAll;
      if body[0].Frames? && !f.finished && polls != Some(0) {
        StrayFramesPushNothing(f, body[0].frames);
        StrayLinesChangeNothing(AbsorbedAll(f, body[0].frames).flags, body[1..],
                                if polls.Some? then Some(polls.value - 1) else None);
      }
    }
  }

  // ------------------------------------------------------------ cancellation

  /** Stopping after fewer polls yields a prefix. */
  lemma {:induction false} CancelledRunIsPrefix(f: Flags, body: seq<Read>, k: nat, polls: Option<nat>)
    requires polls.Some? ==> k <= polls.value
    ensures Output(f, body, Some(k)) <= Output(f, body, polls)
    decreases |body|
  {
    hide AbsorbedAll;
    if k == 0 || f.finished || body == [] || !body[0].Frames? {
    } else {
      CancelledRunIsPrefix(AbsorbedAll(f, body[0].frames).flags, body[1..], k - 1,
                           if polls.Some? then Some(polls.value - 1) else None);
    }
  }

  lemma OneReadOfOutput(f: Flags, body: seq<Read>, polls: Option<nat>)
    requires !f.finished && polls != Some(0) && body != [] && body[0].Frames?
    ensures var a := AbsorbedAll(f, body[0].frames);
            Output(f, body, polls)
            == a.pushed + Output(a.flags, body[1..], if polls.Some? then Some(polls.value - 1) else None)
  {
    hide AbsorbedAll;
  }

  lemma {:induction false} CancelledAfterTheEnd(f: Flags, body: seq<Read>, k: nat)
    requires k > |body|
    ensures Output(f, body, Some(k)) == Output(f, body, None)
    decreases |body|
  {
    if f.finished || body == [] || !body[0].Frames? {
    } else {
      OneReadOfOutput(f, body, Some(k));
      OneReadOfOutput(f, body, None);
      hide AbsorbedAll;
      hide Output;
      CancelledAfterTheEnd(AbsorbedAll(f, body[0].frames).flags, body[1..], k - 1);
    }
  }

  lemma {:induction false} LaterReadsDoNotMatter(f: Flags, body: seq<Read>, k: nat)
    requires k <= |body|
    ensures Output(f, body, Some(k)) == Output(f, body[..k], Some(k))
    decreases |body|
  {
    if f.finished || k == 0 || !body[0].Frames? {
    } else {
      assert body[..k][0] == body[0] && body[..k][1..] == body[1..][..k - 1];
      OneReadOfOutput(f, body, Some(k));
      OneReadOfOutput(f, body[..k], Some(k));
      hide AbsorbedAll;
      hide Output;
      LaterReadsDoNotMatter(AbsorbedAll(f, body[0].frames).flags, body[1..], k - 1);
    }
  }

  /** What ends a stream cancelled with its reads used up: their failure, or nothing. */
  function CutShort(f: Flags, broken: Option<BackendError>): seq<Item> {
    if f.finished || broken.None? then [] else [Err(broken.value)]
  }

  lemma {:induction false} CancelledAtTheEnd(f: Flags, body: seq<Read>)
    requires !f.finished
    ensures var a := AbsorbedAll(f, Flatten(Delivered(body)));
            Output(f, body, Some(|body|)) == a.pushed + CutShort(a.flags, Breakage(body))
    decreases |body|
  {
    if body == [] || !body[0].Frames? {
      assert Flatten(Delivered(body)) == [];
    } else {
      var frames := body[0].frames;
      var a := AbsorbedAll(f, frames);
      FinishedMeansTerminal(f, frames);
      if HasTerminal(frames) {
        assert Delivered(body)[1..] == [];
        assert Flatten(Delivered(body)) == frames;
      } else {
        CancelledAtTheEnd(a.flags, body[1..]);
        var rest := Flatten(Delivered(body[1..]));
        assert Delivered(body)[1..] == Delivered(body[1..]);
        assert Flatten(Delivered(body)) == frames + rest;
        AbsorbSplits(f, frames, rest);
        var b := AbsorbedAll(a.flags, rest);
        Reassociate(a.pushed, b.pushed, CutShort(b.flags, Breakage(body)));
      }
    }
  }

  /** A run cancelled after some polls yields exactly what the reads up to then
      brought: the items of their delivered frames and the failure, if they failed,
      but no closing item; one cancelled after the end yields everything. */
  lemma CancelledIsTheFirstReads(body: seq<Read>, k: nat)
    ensures k > |body| ==> Output(FRESH, body, Some(k)) == Output(FRESH, body, None)
    ensures k <= |body| ==>
              var a := AbsorbedAll(FRESH, Flatten(Delivered(body[..k])));
              Output(FRESH, body, Some(k)) == a.pushed + CutShort(a.flags, Breakage(body[..k]))
  {
    hide AbsorbedAll;
    hide Output;
    hide CutShort;
    if k > |body| {
      CancelledAfterTheEnd(FRESH, body, k);
    } else {
      LaterReadsDoNotMatter(FRESH, body, k);
      CancelledAtTheEnd(FRESH, body[..k]);
    }
  }

  // ---------------------------------------------------------------- the text

  /** The content text a consumer assembles. */
  function ContentText(items: seq<Item>): string {
    if items == [] then ""
    else (if items[0].Ok? && items[0].value.ContentDelta? then items[0].value.text else "") + ContentText(items[1..])
  }

  /** The content text a frame carries: its delta's, then its choice's. */
  function FrameText(frame: Frame): string {
    if frame.Chunk? && frame.choice.Some? then
      (if frame.choice.value.delta.Some? then TextOf(frame.choice.value.delta.value.content) else "")
      + TextOf(frame.choice.value.text)
    else ""
  }

  function FramesText(frames: seq<Frame>): string
    decreases |frames|
  {
    if frames == [] then "" else FrameText(frames[0]) + FramesText(frames[1..])
  }

  lemma {:induction false} TextAdds(a: seq<Item>, b: seq<Item>)
    ensures ContentText(a + b) == ContentText(a) + ContentText(b)
  {
    if a == [] {
      assert a + b == b;
    } else {
      assert (a + b)[1..] == a[1..] + b;
      TextAdds(a[1..], b);
    }
  }

  lemma {:induction false} CallsCarryNoText(calls: seq<CallJson>)
    ensures ContentText(CallEvents(calls)) == ""
  {
    if calls == [] {
    } else {
      CallsCarryNoText(calls[1..]);
    }
  }

  lemma OpeningCarriesNoText(f: Flags, timings: Option<Timings>)
    ensures ContentText(StartItems(f) + TimingItems(timings)) == ""
  {
    TextAdds(StartItems(f), TimingItems(timings));
  }

  lemma EndsCarryNoText(f: Flags, frame: Frame)
    requires !frame.Chunk?
    ensures ContentText(Absorbed(f, frame).pushed) == ""
  {
    hide UpstreamError;
    var items := Absorbed(f, frame).pushed;
    assert items != [] ==> items[1..] == [];
  }

  lemma NoChoiceNoText()
    ensures ContentText(ChoiceEvents(None)) == ""
  {
  }

  lemma FrameTextPreserved(f: Flags, frame: Frame)
    ensures ContentText(Absorbed(f, frame).pushed) == FrameText(frame)
  {
    hide ContentText;
    hide ChoiceEvents;
    hide StartItems;
    hide TimingItems;
    if frame.Chunk? {
      OpeningCarriesNoText(f, frame.timings);
      TextAdds(StartItems(f) + TimingItems(frame.timings), ChoiceEvents(frame.choice));
      if frame.choice.Some? {
        ChoiceTextPreserved(frame.choice.value);
      } else {
        NoChoiceNoText();
      }
    } else {
      EndsCarryNoText(f, frame);
    }
  }

  lemma ContentTextOf(text: Option<string>)
    ensures ContentText(Content(text)) == TextOf(text)
  {
    if TextOf(text) != "" {
      var items := Content(text);
      assert items[1..] == [];
      assert ContentText(items) == text.value + "";
    }
  }

  lemma ReasoningCarriesNoText(delta: Delta)
    ensures ContentText(ReasoningOf(delta)) == ""
  {
    var items := ReasoningOf(delta);
    if items != [] {
      assert items[1..] == [];
    }
  }

  lemma DeltaTextPreserved(delta: Delta)
    ensures ContentText(DeltaEvents(delta)) == TextOf(delta.content)
  {
    hide Content;
    hide ReasoningOf;
    hide CallEvents;
    hide ContentText;
    ContentTextOf(delta.content);
    ReasoningCarriesNoText(delta);
    CallsCarryNoText(delta.toolCalls);
    TextAdds(Content(delta.content) + ReasoningOf(delta), CallEvents(delta.toolCalls));
    TextAdds(Content(delta.content), ReasoningOf(delta));
  }

  lemma ChoiceTextPreserved(choice: Choice)
    ensures ContentText(ChoiceEvents(Some(choice)))
         == (if choice.delta.Some? then TextOf(choice.delta.value.content) else "") + TextOf(choice.text)
  {
    hide Content;
    hide DeltaEvents;
    hide ContentText;
    ContentTextOf(choice.text);
    if choice.delta.Some? {
      DeltaTextPreserved(choice.delta.value);
      TextAdds(DeltaEvents(choice.delta.value), Content(choice.text));
    } else {
      assert [] + Content(choice.text) == Content(choice.text);
    }
  }

  lemma {:induction false} FramesTextPreserved(f: Flags, frames: seq<Frame>)
    ensures ContentText(AbsorbedAll(f, frames).pushed) == FramesText(frames)
    decreases |frames|
  {
    if frames == [] {
    } else {
      hide Absorbed;
      var first := Absorbed(f, frames[0]);
      FrameTextPreserved(f, frames[0]);
      FramesTextPreserved(first.flags, frames[1..]);
      TextAdds(first.pushed, AbsorbedAll(first.flags, frames[1..]).pushed);
    }
  }

  /** The content reaching the consumer is the content the engine sent, in
      order, for every body: everything delivered, before a failure or not, and
      nothing else. */
  lemma ContentPreserved(body: seq<Read>)
    ensures ContentText(Output(FRESH, body, None)) == FramesText(Flatten(Delivered(body)))
    ensures StopsAtTerminal(Flatten(body)) ==> ContentText(Output(FRESH, body, None)) == FramesText(Flatten(body))
  {
    var frames := Flatten(Delivered(body));
    OutputIsFold(FRESH, body);
    FramesTextPreserved(FRESH, frames);
    var a := AbsorbedAll(FRESH, frames);
    TextAdds(a.pushed, Ending(a.flags, Breakage(body)));
    if StopsAtTerminal(Flatten(body)) {
      AllDelivered(body);
    }
  }
}
