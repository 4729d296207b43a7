/** What the chat transport guarantees, proved about the functions that
    specify its methods. */
module ChatTransportProperties {
  import opened Common
  import opened JsText
  import opened ChatTransport

  // ---------------------------------------------------------------------
  // The delta loop

  /** The `response` of the last partial that had one, or "" if none did. */
  function LastResponse(ps: seq<ChatPartial>): string
    decreases |ps|
  {
    if ps == [] then ""
    else if Observed(ps[|ps| - 1]) then ps[|ps| - 1].response.value
    else LastResponse(ps[..|ps| - 1])
  }

  /** Nothing, or one text-start followed by non-empty deltas, all carrying
      the id `token`. */
  predicate IsTextBody(evs: seq<Event>, token: string) {
    evs == [] ||
    (evs[0] == TextStart(token) &&
     forall k :: 1 <= k < |evs| ==> evs[k].TextDelta? && evs[k].id == token && evs[k].delta != "")
  }

  /** The loop writes a text-start at most once, first, and only deltas
      after it, all under one id; it allocates the id exactly when it
      writes anything; and `previousText` is the last response observed. */
  lemma {:induction false} ConsumeShape(ps: seq<ChatPartial>, token: string)
    ensures var c := Consume(ps, token);
      && IsTextBody(c.events, token)
      && (c.state.textId.None? <==> c.events == [])
      && (c.state.textId.Some? ==> c.state.textId.value == token)
      && (c.state.textId.None? ==> c.state.previousText == "")
      && c.state.previousText == LastResponse(ps)
    decreases |ps|
  {
    if ps != [] {
      ConsumeShape(ps[..|ps| - 1], token);
    }
  }

  /** A partial without a non-empty `response`, or with the same response
      as before, writes nothing and changes nothing; a delta written is
      never empty. */
  lemma StepWritesOnlyNews(st: TextState, p: ChatPartial, token: string)
    ensures !Observed(p) || p.response.value == st.previousText ==> Step(st, p, token) == Consumed(st, [])
    ensures forall k :: 0 <= k < |Step(st, p, token).events| && Step(st, p, token).events[k].TextDelta? ==>
              Step(st, p, token).events[k].delta != ""
  {
  }

  /** Every observed `response` starts with the one observed before it. */
  predicate ExtendsPrevious(ps: seq<ChatPartial>)
    decreases |ps|
  {
    ps != [] ==>
      && ExtendsPrevious(ps[..|ps| - 1])
      && (Observed(ps[|ps| - 1]) ==> StartsWith(ps[|ps| - 1].response.value, LastResponse(ps[..|ps| - 1])))
  }

  /** The deltas' payloads, concatenated in order. */
  function DeltaText(evs: seq<Event>): string
    decreases |evs|
  {
    if evs == [] then ""
    else DeltaText(evs[..|evs| - 1]) + (if evs[|evs| - 1].TextDelta? then evs[|evs| - 1].delta else "")
  }

  lemma {:induction false} DeltaTextAppend(a: seq<Event>, b: seq<Event>)
    ensures DeltaText(a + b) == DeltaText(a) + DeltaText(b)
    decreases |b|
  {
    if b != [] {
      var ab := a + b;
      var last := if b[|b| - 1].TextDelta? then b[|b| - 1].delta else "";
      assert ab[..|ab| - 1] == a + b[..|b| - 1];
      assert ab[|ab| - 1] == b[|b| - 1];
      assert DeltaText(ab) == DeltaText(a + b[..|b| - 1]) + last;
      DeltaTextAppend(a, b[..|b| - 1]);
      assert DeltaText(b) == DeltaText(b[..|b| - 1]) + last;
    } else {
      assert a + b == a;
    }
  }

  /** When each observed response extends the previous one, the deltas
      written add up to the last response: the text arrives once, in
      order, without duplication. */
  lemma {:induction false} DeltasRebuildResponse(ps: seq<ChatPartial>, token: string)
    requires ExtendsPrevious(ps)
    ensures DeltaText(Consume(ps, token).events) == LastResponse(ps)
    decreases |ps|
  {
    if ps != [] {
      var init := ps[..|ps| - 1];
      var p := ps[|ps| - 1];
      var c := Consume(init, token);
      DeltasRebuildResponse(init, token);
      ConsumeShape(init, token);
      var s := Step(c.state, p, token);
      DeltaTextAppend(c.events, s.events);
      if Observed(p) && p.response.value != c.state.previousText {
        var r := p.response.value;
        var delta := SliceFrom(r, |c.state.previousText|);
        assert c.state.previousText + delta == r;
        if c.state.textId.None? {
          assert s.events[..0] == [];
          if delta != "" {
            assert s.events[..1] == [TextStart(token)];
          }
        } else if delta != "" {
          assert s.events[..0] == [];
        }
      }
    }
  }

  /** The loop checks no prefix: after "Hello", a partial "Help!" is
      sliced at length 5, nothing is written, and the deltas no longer add
      up to the response. */
  lemma DivergingResponseIsNotDetected()
    ensures var ps := [ChatPartial(Some("Hello"), None), ChatPartial(Some("Help!"), None)];
      && DeltaText(Consume(ps, "t").events) == "Hello"
      && LastResponse(ps) == "Help!"
      && Consume(ps, "t").events == [TextStart("t"), TextDelta("t", "Hello")]
  {
    var ps := [ChatPartial(Some("Hello"), None), ChatPartial(Some("Help!"), None)];
    assert ps[..1] == [ps[0]];
    assert ps[..1][..0] == [];
    assert SliceFrom("Hello", 0) == "Hello";
    assert SliceFrom("Help!", 5) == "";
    var evs := [TextStart("t"), TextDelta("t", "Hello")];
    assert Consume(ps[..1], "t") == Consumed(TextState(Some("t"), "Hello"), evs);
    assert Consume(ps, "t") == Consumed(TextState(Some("t"), "Help!"), evs);
    assert evs[..1] == [TextStart("t")];
    assert evs[..1][..0] == [];
    assert DeltaText(evs[..1]) == "";
  }

  // ---------------------------------------------------------------------
  // The whole call

  /** Two text-ends are written only when the normal path closes the text
      and then either the abort fires during `await result.object` or
      `result.object` rejects. */
  predicate DoubleEnd(run: ChatRun, preAborted: bool) {
    && !AbortedInLoop(run, preAborted)
    && LoopFailure(run, preAborted).None?
    && (AbortsDuringFinal(run, preAborted) || run.final.Rejected?)
  }

  /** Every chunk of `evs` from position `n` on is a text-end for `id`. */
  predicate EndsFrom(evs: seq<Event>, n: nat, id: string) {
    forall k :: n <= k < |evs| ==> evs[k] == TextEnd(id)
  }

  /** After the loop, `streamResponse` writes text-ends only: none without
      a text id or once the listener has fired, at least one otherwise, and
      two exactly when the normal end is followed by the late abort or the
      rejection. */
  lemma AfterLoopEnds(textId: Option<string>, aborted: bool, failure: Option<Thrown>, late: bool, final: Settled<ChatObject>)
    ensures |AfterLoop(textId, aborted, failure, late, final).events| <= 2
    ensures textId.None? || aborted ==> AfterLoop(textId, aborted, failure, late, final).events == []
    ensures textId.Some? ==> EndsFrom(AfterLoop(textId, aborted, failure, late, final).events, 0, textId.value)
    ensures textId.Some? && !aborted ==> |AfterLoop(textId, aborted, failure, late, final).events| >= 1
    ensures |AfterLoop(textId, aborted, failure, late, final).events| == 2 <==>
              textId.Some? && !aborted && failure.None? && (late || final.Rejected?)
  {
  }

  /** What `streamResponse` writes is what the loop wrote followed by
      text-ends only: none when no text was started, one or two otherwise,
      two exactly in the `DoubleEnd` cases. */
  lemma StreamEventsShape(run: ChatRun, preAborted: bool)
    ensures var o := StreamSpec(run, preAborted);
            var body := Consume(run.partials[..StopIndex(run, preAborted)], run.textToken);
      && |body.events| <= |o.events| <= |body.events| + 2
      && o.events[..|body.events|] == body.events
      && EndsFrom(o.events, |body.events|, run.textToken)
      && (body.state.textId.None? <==> |o.events| == |body.events|)
      && (|o.events| == |body.events| + 2 <==> body.state.textId.Some? && DoubleEnd(run, preAborted))
  {
    var body := Consume(run.partials[..StopIndex(run, preAborted)], run.textToken);
    ConsumeShape(run.partials[..StopIndex(run, preAborted)], run.textToken);
    LoopThenEndsShape(body.events, body.state.textId, run.textToken, AbortedInLoop(run, preAborted),
      LoopFailure(run, preAborted), AbortsDuringFinal(run, preAborted), run.final);
  }

  /** The shape of `StreamEventsShape` for any loop output, text id and
      outcome after the loop. */
  lemma LoopThenEndsShape(bodyEvents: seq<Event>, textId: Option<string>, token: string, aborted: bool,
                          failure: Option<Thrown>, late: bool, final: Settled<ChatObject>)
    requires textId.Some? ==> textId.value == token
    ensures var o := bodyEvents + (if aborted && textId.Some? then [TextEnd(textId.value)] else [])
                     + AfterLoop(textId, aborted, failure, late, final).events;
      && |bodyEvents| <= |o| <= |bodyEvents| + 2
      && o[..|bodyEvents|] == bodyEvents
      && EndsFrom(o, |bodyEvents|, token)
      && (textId.None? <==> |o| == |bodyEvents|)
      && (|o| == |bodyEvents| + 2 <==> textId.Some? && !aborted && failure.None? && (late || final.Rejected?))
  {
    var handlerEnd := if aborted && textId.Some? then [TextEnd(textId.value)] else [];
    var tail := AfterLoop(textId, aborted, failure, late, final);
    AfterLoopEnds(textId, aborted, failure, late, final);
    var ends := handlerEnd + tail.events;
    var o := bodyEvents + handlerEnd + tail.events;
    assert o == bodyEvents + ends;
    if textId.Some? {
      forall k | |bodyEvents| <= k < |o|
        ensures o[k] == TextEnd(token)
      {
        assert o[k] == ends[k - |bodyEvents|];
        if k - |bodyEvents| >= |handlerEnd| {
          assert ends[k - |bodyEvents|] == tail.events[k - |bodyEvents| - |handlerEnd|];
        }
      }
    }
    assert |ends| == |handlerEnd| + |tail.events|;
    assert |o| == |bodyEvents| + |ends|;
  }

  /** A well-formed text stream under one id: text events only, a
      text-start first, non-empty deltas, nothing but text-ends after the
      first text-end, and a text-end last whenever anything was written. */
  predicate WellFormedText(evs: seq<Event>, token: string) {
    && (forall k :: 0 <= k < |evs| ==>
          (evs[k].TextStart? || evs[k].TextDelta? || evs[k].TextEnd?) && evs[k].id == token)
    && (evs != [] ==> evs[0].TextStart? && evs[|evs| - 1].TextEnd?)
    && (forall k :: 0 < k < |evs| ==> !evs[k].TextStart?)
    && (forall k :: 0 <= k < |evs| && evs[k].TextDelta? ==> evs[k].delta != "")
    && (forall i, j :: 0 <= i < j < |evs| && evs[i].TextEnd? ==> evs[j].TextEnd?)
  }

  /** A text body followed by text-ends under the same id, with at least
      one text-end when the body is not empty, is well formed. */
  lemma BodyThenEndsIsWellFormed(evs: seq<Event>, n: nat, token: string)
    requires n <= |evs| && IsTextBody(evs[..n], token) && EndsFrom(evs, n, token)
    requires n == 0 ==> evs == []
    requires n > 0 ==> |evs| > n
    ensures WellFormedText(evs, token)
  {
    forall k | 0 <= k < n
      ensures evs[k] == evs[..n][k]
    {
    }
  }

  /** On every path (normal, error, abort) the text stream is well formed:
      at most one text-start, no delta after a text-end, and a started text
      is always ended. */
  lemma StreamIsWellFormed(run: ChatRun, preAborted: bool)
    ensures WellFormedText(StreamSpec(run, preAborted).events, run.textToken)
  {
    var o := StreamSpec(run, preAborted);
    var body := Consume(run.partials[..StopIndex(run, preAborted)], run.textToken);
    ConsumeShape(run.partials[..StopIndex(run, preAborted)], run.textToken);
    StreamEventsShape(run, preAborted);
    BodyThenEndsIsWellFormed(o.events, |body.events|, run.textToken);
  }

  /** Once the abort fires in the loop, nothing that comes later matters:
      neither the partials from there on, nor how the stream ends, nor the
      final object. */
  lemma AbortStopsConsumption(r1: ChatRun, r2: ChatRun)
    requires r1.abort.WhileStreaming? && r1.abort == r2.abort
    requires r1.textToken == r2.textToken
    requires r1.abort.before < |r1.partials| && r1.abort.before < |r2.partials|
    requires r1.partials[..r1.abort.before] == r2.partials[..r1.abort.before]
    ensures StreamSpec(r1, false) == StreamSpec(r2, false)
  {
    assert StopIndex(r1, false) == StopIndex(r2, false) == r1.abort.before;
  }

  /** Suggestions are published exactly when the loop neither aborted nor
      threw, `result.object` resolved, and its list is present and
      non-empty; what is published is that list, verbatim. */
  lemma PublishesOnlyOnSuccess(run: ChatRun, preAborted: bool)
    ensures var o := StreamSpec(run, preAborted);
      && (o.published.Some? <==>
            && !AbortedInLoop(run, preAborted)
            && LoopFailure(run, preAborted).None?
            && run.final.Resolved?
            && run.final.value.suggestions.Some?
            && |run.final.value.suggestions.value| > 0)
      && (o.published.Some? ==> run.final.value.suggestions == o.published)
  {
  }

  /** The error the body of `streamResponse` runs into: the stream's, or
      else the rejection of `result.object` when the success path awaits it. */
  function RaisedError(run: ChatRun, preAborted: bool): Option<Thrown> {
    if LoopFailure(run, preAborted).Some? then LoopFailure(run, preAborted)
    else if !AbortedInLoop(run, preAborted) && run.final.Rejected? then Some(run.final.error)
    else None
  }

  /** An error is re-thrown exactly when the listener never fired and the
      error is not abort-classified; an abort is never surfaced as an error. */
  lemma RethrowsExactlyGenuineErrors(run: ChatRun, preAborted: bool)
    ensures var e := RaisedError(run, preAborted);
      StreamSpec(run, preAborted).thrown ==
        if e.Some? && !AbortFires(run, preAborted) && !IsAbortError(e.value) then e else None
  {
  }

  /** Testing for "aborted" adds nothing to testing for "abort". */
  lemma AbortErrorClassification(e: Thrown)
    ensures IsAbortError(e) <==> e.ErrorObject? && (e.name == "AbortError" || Includes(e.message, "abort"))
  {
    if e.ErrorObject? && Includes(e.message, "aborted") {
      IncludesPrefix(e.message, "aborted", "abort");
    }
  }

  /** Partials "Hel", "Hello", "Hello there" and a final object with two
      suggestions give one text-start, the deltas "Hel", "lo", " there",
      one text-end, and the two suggestions published. */
  lemma HelloThereScenario()
    ensures var run := ChatRun(
              [ChatPartial(Some("Hel"), None), ChatPartial(Some("Hello"), None), ChatPartial(Some("Hello there"), None)],
              None, Resolved(ChatObject("Hello there", Some(["A?", "B?"]))), NoAbort, "t");
      StreamSpec(run, false) == StreamOutcome(
        [TextStart("t"), TextDelta("t", "Hel"), TextDelta("t", "lo"), TextDelta("t", " there"), TextEnd("t")],
        Some(["A?", "B?"]), None)
  {
    var ps := [ChatPartial(Some("Hel"), None), ChatPartial(Some("Hello"), None), ChatPartial(Some("Hello there"), None)];
    assert ps[..3] == ps;
    assert ps[..2] == [ps[0], ps[1]];
    assert ps[..2][..1] == [ps[0]];
    assert ps[..2][..1][..0] == [];
    assert SliceFrom("Hel", 0) == "Hel";
    assert SliceFrom("Hello", 3) == "lo";
    assert SliceFrom("Hello there", 5) == " there";
    assert Consume(ps[..2][..1], "t") == Consumed(TextState(Some("t"), "Hel"), [TextStart("t"), TextDelta("t", "Hel")]);
    assert Consume(ps[..2], "t") == Consumed(TextState(Some("t"), "Hello"), [TextStart("t"), TextDelta("t", "Hel"), TextDelta("t", "lo")]);
    assert Consume(ps, "t") == Consumed(TextState(Some("t"), "Hello there"),
      [TextStart("t"), TextDelta("t", "Hel"), TextDelta("t", "lo"), TextDelta("t", " there")]);
  }

  // ---------------------------------------------------------------------
  // Download progress

  /** An id is allocated exactly when some tick is below 1, it is the one
      token of the episode, every chunk carries it, and the first chunk
      reports progress rather than completion. */
  lemma {:induction false} DownloadIdAllocation(ticks: seq<real>, token: string)
    ensures var d := DownloadTicks(ticks, token);
      && (d.id.Some? <==> HasDownloadTick(ticks))
      && (d.id.Some? ==> d.id.value == token)
      && (d.id.None? ==> d.events == [])
      && (forall k :: 0 <= k < |d.events| ==> d.events[k].DownloadProgress? && d.events[k].id == token)
      && (d.events != [] ==> d.events[0].status == InProgress)
    decreases |ticks|
  {
    if ticks != [] {
      var init := ticks[..|ticks| - 1];
      DownloadIdAllocation(init, token);
      if HasDownloadTick(init) {
        var i :| 0 <= i < |init| && init[i] < 1.0;
        assert ticks[i] < 1.0;
      }
      if HasDownloadTick(ticks) && !HasDownloadTick(init) {
        var i :| 0 <= i < |ticks| && ticks[i] < 1.0;
        assert i == |ticks| - 1;
      }
    }
  }

  /** Running the callback over `a + b` is running it over `a` and then,
      from the id that left, over `b`. */
  lemma {:induction false} TicksFromAppend(id: Option<string>, a: seq<real>, b: seq<real>, token: string)
    ensures var x := TicksFrom(id, a, token);
            var y := TicksFrom(x.id, b, token);
      TicksFrom(id, a + b, token) == DownloadState(y.id, x.events + y.events)
    decreases |b|
  {
    if b != [] {
      var ab := a + b;
      assert ab[..|ab| - 1] == a + b[..|b| - 1];
      assert ab[|ab| - 1] == b[|b| - 1];
      TicksFromAppend(id, a, b[..|b| - 1], token);
      var x := TicksFrom(id, a, token);
      var y := TicksFrom(x.id, b[..|b| - 1], token);
      var t := OnTick(y.id, b[|b| - 1], token);
      assert TicksFrom(id, ab, token) == DownloadState(t.id, x.events + y.events + t.events);
      assert TicksFrom(x.id, b, token) == DownloadState(t.id, y.events + t.events);
      assert x.events + y.events + t.events == x.events + (y.events + t.events);
    } else {
      assert a + b == a;
    }
  }

  /** Ticks of 1 or more that arrive before any tick below 1 write nothing
      and leave no trace. */
  lemma EarlyCompleteTicksIgnored(early: seq<real>, rest: seq<real>, token: string)
    requires forall k :: 0 <= k < |early| ==> early[k] >= 1.0
    ensures DownloadTicks(early + rest, token) == DownloadTicks(rest, token)
  {
    TicksFromAppend(None, early, rest, token);
    DownloadIdAllocation(early, token);
  }

  /** The progress a tick reports: its percentage, or 100 for completion. */
  function ReportedProgress(progress: real): int {
    if progress >= 1.0 then 100 else Percent(progress)
  }

  predicate NonDecreasing(ticks: seq<real>) {
    forall i, j :: 0 <= i < j < |ticks| ==> ticks[i] <= ticks[j]
  }

  /** Non-decreasing ticks give non-decreasing reported progress, never
      above what the latest tick reports. */
  lemma {:induction false} ProgressIsMonotone(ticks: seq<real>, token: string)
    requires NonDecreasing(ticks)
    ensures var evs := DownloadTicks(ticks, token).events;
      && (forall k :: 0 <= k < |evs| ==> evs[k].DownloadProgress?)
      && (forall i, j :: 0 <= i < j < |evs| ==> evs[i].progress <= evs[j].progress)
      && (ticks != [] ==> forall k :: 0 <= k < |evs| ==> evs[k].progress <= ReportedProgress(ticks[|ticks| - 1]))
    decreases |ticks|
  {
    DownloadIdAllocation(ticks, token);
    if ticks != [] {
      var init := ticks[..|ticks| - 1];
      var t := ticks[|ticks| - 1];
      ProgressIsMonotone(init, token);
      DownloadIdAllocation(init, token);
      var before := DownloadTicks(init, token).events;
      var evs := DownloadTicks(ticks, token).events;
      if init != [] {
        var last := init[|init| - 1];
        assert last <= t;
        assert ReportedProgress(last) <= ReportedProgress(t);
      }
      forall k | 0 <= k < |evs|
        ensures evs[k].progress <= ReportedProgress(t)
      {
        if k < |before| {
          assert evs[k] == before[k];
        }
      }
    }
  }

  // ---------------------------------------------------------------------
  // sendMessages

  /** No download chunk and no notification. */
  predicate TextChunksOnly(evs: seq<Event>) {
    forall k :: 0 <= k < |evs| ==> !evs[k].DownloadProgress? && !evs[k].Notification?
  }

  /** Every download chunk comes before every other chunk. */
  predicate DownloadChunksFirst(evs: seq<Event>) {
    forall i, j :: 0 <= i < j < |evs| && evs[j].DownloadProgress? ==> evs[i].DownloadProgress?
  }

  lemma StreamChunksAreText(run: ChatRun, preAborted: bool)
    ensures TextChunksOnly(StreamSpec(run, preAborted).events)
  {
    StreamIsWellFormed(run, preAborted);
  }

  lemma {:induction false} DownloadChunksThenOthers(pre: seq<Event>, post: seq<Event>)
    requires forall k :: 0 <= k < |pre| ==> pre[k].DownloadProgress?
    requires forall k :: 0 <= k < |post| ==> !post[k].DownloadProgress?
    ensures DownloadChunksFirst(pre + post)
  {
    var evs := pre + post;
    forall i, j | 0 <= i < j < |evs|
      ensures evs[j].DownloadProgress? ==> evs[i].DownloadProgress?
    {
      if j >= |pre| {
        assert evs[j] == post[j - |pre|];
      } else {
        assert evs[i] == pre[i];
      }
    }
  }

  /** An available model gets no download chunk and no notification: only
      the text stream is written. */
  lemma AvailableSkipsDownload(run: SendRun, preAborted: bool)
    requires run.availability == Available
    ensures TextChunksOnly(SendSpec(run, preAborted).events)
  {
    StreamChunksAreText(run.stream, preAborted);
  }

  /** Whatever the stream writes, as long as it writes no download chunk,
      the download branch writes every download chunk first. */
  lemma DownloadBranchChunksFirst(d: DownloadState, sessionFailure: Option<Thrown>, s: StreamOutcome)
    requires forall k :: 0 <= k < |d.events| ==> d.events[k].DownloadProgress?
    requires TextChunksOnly(s.events)
    ensures DownloadChunksFirst(DownloadBranch(d, sessionFailure, s).events)
  {
    if sessionFailure.Some? {
      DownloadChunksThenOthers(d.events, [ErrorNotification(sessionFailure.value)]);
    } else {
      var pre := d.events + ClearChunk(d.id);
      var post := s.events + NotifyChunk(s.thrown);
      forall k | 0 <= k < |post|
        ensures !post[k].DownloadProgress?
      {
        if k < |s.events| {
          assert post[k] == s.events[k];
        }
      }
      DownloadChunksThenOthers(pre, post);
      assert pre + post == d.events + ClearChunk(d.id) + s.events + NotifyChunk(s.thrown);
    }
  }

  /** In the download branch all download chunks precede all text chunks
      and the notification. */
  lemma DownloadBranchOrder(run: SendRun, preAborted: bool)
    requires run.availability != Available
    ensures DownloadChunksFirst(SendSpec(run, preAborted).events)
  {
    DownloadIdAllocation(run.ticks, run.downloadToken);
    StreamChunksAreText(run.stream, preAborted);
    DownloadBranchChunksFirst(DownloadTicks(run.ticks, run.downloadToken), run.sessionFailure, StreamSpec(run.stream, preAborted));
  }

  /** Once the session is created, the closing "complete" chunk with
      progress 100 and an empty message is written exactly when an id was
      allocated during the download. */
  lemma DownloadClearedIffStarted(run: SendRun, preAborted: bool)
    requires run.availability != Available && run.sessionFailure.None?
    ensures var evs := SendSpec(run, preAborted).events;
      (exists k :: 0 <= k < |evs| && evs[k] == DownloadProgress(run.downloadToken, Complete, 100, ""))
        <==> HasDownloadTick(run.ticks)
  {
    DownloadIdAllocation(run.ticks, run.downloadToken);
    StreamChunksAreText(run.stream, preAborted);
    ClearedIffAllocated(DownloadTicks(run.ticks, run.downloadToken), StreamSpec(run.stream, preAborted), run.downloadToken);
  }

  /** Whatever the stream writes, as long as it writes no download chunk,
      the clearing chunk appears exactly when the download allocated an id. */
  lemma ClearedIffAllocated(d: DownloadState, s: StreamOutcome, id: string)
    requires d.id.None? ==> d.events == []
    requires d.id.Some? ==> d.id.value == id
    requires TextChunksOnly(s.events)
    ensures var evs := DownloadBranch(d, None, s).events;
      (exists k :: 0 <= k < |evs| && evs[k] == DownloadProgress(id, Complete, 100, "")) <==> d.id.Some?
  {
    var evs := DownloadBranch(d, None, s).events;
    if d.id.Some? {
      assert evs[|d.events|] == DownloadProgress(id, Complete, 100, "");
    } else {
      var notify := NotifyChunk(s.thrown);
      assert evs == s.events + notify;
      forall k | 0 <= k < |evs|
        ensures !evs[k].DownloadProgress?
      {
        if k < |s.events| {
          assert evs[k] == s.events[k];
        } else {
          assert evs[k] == notify[k - |s.events|];
        }
      }
    }
  }

  /** The callback's chunks carry the downloading or finished message,
      never the empty one. */
  lemma {:induction false} OnlyProgressMessages(ticks: seq<real>, token: string)
    ensures var evs := DownloadTicks(ticks, token).events;
      forall k :: 0 <= k < |evs| ==>
        evs[k].DownloadProgress? && (evs[k].message == DownloadingMessage || evs[k].message == FinishedMessage)
    decreases |ticks|
  {
    if ticks != [] {
      OnlyProgressMessages(ticks[..|ticks| - 1], token);
    }
  }

  /** A failure in the download branch is reported by an error
      notification written last, then re-thrown; without a failure no
      notification is written. */
  lemma DownloadBranchReportsFailure(run: SendRun, preAborted: bool)
    requires run.availability != Available
    ensures var o := SendSpec(run, preAborted);
      && (o.thrown.Some? ==> |o.events| > 0 && o.events[|o.events| - 1] == ErrorNotification(o.thrown.value))
      && (o.thrown.None? ==> forall k :: 0 <= k < |o.events| ==> !o.events[k].Notification?)
  {
    var d := DownloadTicks(run.ticks, run.downloadToken);
    DownloadIdAllocation(run.ticks, run.downloadToken);
    if run.sessionFailure.None? {
      StreamIsWellFormed(run.stream, preAborted);
    }
  }

  /** Ticks 0.3, 0.7 and 1.0 report 30 and 70 percent, then completion
      twice: once from the tick of 1.0, once after the session is ready. */
  lemma DownloadScenario(stream: ChatRun)
    ensures var run := SendRun(Downloadable, [0.3, 0.7, 1.0], None, "d", stream);
      SendSpec(run, false).events ==
        [DownloadProgress("d", InProgress, 30, DownloadingMessage),
         DownloadProgress("d", InProgress, 70, DownloadingMessage),
         DownloadProgress("d", Complete, 100, FinishedMessage),
         DownloadProgress("d", Complete, 100, "")]
        + StreamSpec(stream, false).events
        + (if StreamSpec(stream, false).thrown.Some? then [ErrorNotification(StreamSpec(stream, false).thrown.value)] else [])
  {
    var t1 := [0.3];
    var t2 := [0.3, 0.7];
    var ticks := [0.3, 0.7, 1.0];
    assert t1[..0] == [];
    assert t2[..1] == t1;
    assert ticks[..2] == t2;
    assert Percent(0.3) == 30;
    assert Percent(0.7) == 70;
    assert DownloadTicks(t1, "d") == DownloadState(Some("d"), [DownloadProgress("d", InProgress, 30, DownloadingMessage)]);
    assert DownloadTicks(t2, "d") == DownloadState(Some("d"),
      [DownloadProgress("d", InProgress, 30, DownloadingMessage), DownloadProgress("d", InProgress, 70, DownloadingMessage)]);
  }
}
