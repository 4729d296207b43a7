/** The client-side chat transport: it turns the partial `{response,
    suggestions?}` objects of a structured generation into text-start /
    text-delta / text-end events, lets an abort signal close the text
    early, publishes the final suggestions, and, when the model must first
    be downloaded, reports the download's progress under one id.

    The model runtime is an input: the partial objects the stream yields,
    how the stream ends, how `result.object` settles, the download ticks,
    and the moment at which the abort signal fires. */
module ChatTransport {
  import opened Common
  import opened JsText
  import opened Suggestions

  datatype DownloadStatus = InProgress | Complete

  /** The chunks the transport writes into the UI message stream. */
  datatype Event =
    | TextStart(id: string)
    | TextDelta(id: string, delta: string)
    | TextEnd(id: string)
    | DownloadProgress(id: string, status: DownloadStatus, progress: int, message: string)
    | Notification(message: string, level: string)

  /** The UI message stream's writer: an append-only log of chunks. */
  class UIMessageWriter {
    var events: seq<Event>

    constructor ()
      ensures events == []
    {
      events := [];
    }

    method Write(e: Event)
      modifies this
      ensures events == old(events) + [e]
    {
      events := events + [e];
    }
  }

  /** The request's abort signal: whether it has fired and how many abort
      listeners are attached to it. */
  class AbortSignal {
    var aborted: bool
    var listeners: nat

    constructor (alreadyAborted: bool)
      ensures aborted == alreadyAborted && listeners == 0
    {
      aborted, listeners := alreadyAborted, 0;
    }
  }

  /** A partial object: either field may still be missing. */
  datatype ChatPartial = ChatPartial(response: Option<string>, suggestions: Option<seq<string>>)

  /** The final object `result.object` resolves to. */
  datatype ChatObject = ChatObject(response: string, suggestions: Option<seq<string>>)

  /** When the abort signal fires, relative to the work of `streamResponse`.
      `WhileStreaming(k)`: while the loop waits for partial number `k`
      (counting from 0); a `k` at or past the number of partials means while
      it waits for the end of the stream. `DuringFinal`: while the success
      path awaits `result.object`. Later aborts find no listener attached. */
  datatype AbortPoint = NoAbort | WhileStreaming(before: nat) | DuringFinal

  /** Everything the model runtime contributes to one `streamResponse`:
      the partials yielded, whether the stream then ends or throws, how
      `result.object` settles, when the abort fires, and the id a first
      text-start would be given. */
  datatype ChatRun = ChatRun(
    partials: seq<ChatPartial>,
    streamEnd: Option<Thrown>,
    final: Settled<ChatObject>,
    abort: AbortPoint,
    textToken: string)

  /** What one call leaves behind: the chunks written, the suggestions
      published (if any), and the error it rejects with (if any). */
  datatype StreamOutcome = StreamOutcome(events: seq<Event>, published: Option<seq<string>>, thrown: Option<Thrown>)

  // ---------------------------------------------------------------------
  // The partial-to-delta loop

  datatype TextState = TextState(textId: Option<string>, previousText: string)

  datatype Consumed = Consumed(state: TextState, events: seq<Event>)

  /** A partial whose `response` is present and non-empty. */
  predicate Observed(p: ChatPartial) {
    p.response.Some? && p.response.value != ""
  }

  /** One pass of the loop body on partial `p`. */
  function Step(st: TextState, p: ChatPartial, token: string): Consumed {
    if Observed(p) && p.response.value != st.previousText then
      var r := p.response.value;
      var id := if st.textId.Some? then st.textId.value else token;
      var start := if st.textId.Some? then [] else [TextStart(id)];
      var delta := SliceFrom(r, |st.previousText|);
      var written := if delta != "" then [TextDelta(id, delta)] else [];
      Consumed(TextState(Some(id), r), start + written)
    else
      Consumed(st, [])
  }

  /** The loop run over `ps` from the initial state (no id, empty text). */
  function Consume(ps: seq<ChatPartial>, token: string): Consumed
    decreases |ps|
  {
    if ps == [] then Consumed(TextState(None, ""), [])
    else
      var c := Consume(ps[..|ps| - 1], token);
      var s := Step(c.state, ps[|ps| - 1], token);
      Consumed(s.state, c.events + s.events)
  }

  // ---------------------------------------------------------------------
  // The whole of streamResponse, as a function of the run

  function Min(a: nat, b: nat): nat { if a <= b then a else b }

  /** How many partials the loop processes before it stops. */
  function StopIndex(run: ChatRun, preAborted: bool): nat {
    if preAborted then 0
    else match run.abort
      case WhileStreaming(k) => Min(k, |run.partials|)
      case _ => |run.partials|
  }

  /** The listener's `aborted` flag is set while the loop runs. (A signal
      that was aborted before the call never dispatches again.) */
  predicate AbortedInLoop(run: ChatRun, preAborted: bool) {
    !preAborted && run.abort.WhileStreaming?
  }

  /** The error the `for await` loop throws: none when it breaks early. */
  function LoopFailure(run: ChatRun, preAborted: bool): Option<Thrown> {
    if StopIndex(run, preAborted) < |run.partials| then None else run.streamEnd
  }

  /** The abort fires during `await result.object`, with the listener attached. */
  predicate AbortsDuringFinal(run: ChatRun, preAborted: bool) {
    !preAborted && run.abort == DuringFinal && run.streamEnd.None?
  }

  /** The abort listener runs at some point of the call. */
  predicate AbortFires(run: ChatRun, preAborted: bool) {
    AbortedInLoop(run, preAborted) || AbortsDuringFinal(run, preAborted)
  }

  /** An error counts as an abort when it is an `Error` named `AbortError`
      or whose message includes "aborted" or "abort". */
  predicate IsAbortError(e: Thrown) {
    e.ErrorObject? && (e.name == "AbortError" || Includes(e.message, "aborted") || Includes(e.message, "abort"))
  }

  /** The `catch` block: close the text unless aborted, and re-throw unless
      aborted or abort-classified. */
  function CatchBlock(textId: Option<string>, aborted: bool, e: Thrown): StreamOutcome {
    StreamOutcome(
      if textId.Some? && !aborted then [TextEnd(textId.value)] else [],
      None,
      if !aborted && !IsAbortError(e) then Some(e) else None)
  }

  /** The suggestions the success path publishes: a present, non-empty list. */
  function Publish(obj: ChatObject): Option<seq<string>> {
    if obj.suggestions.Some? && |obj.suggestions.value| > 0 then obj.suggestions else None
  }

  /** What `streamResponse` does after the loop, given the text id, whether
      the listener fired in the loop, the loop's error, whether the abort
      fires during `await result.object`, and how `result.object` settles. */
  function AfterLoop(textId: Option<string>, aborted: bool, failure: Option<Thrown>, late: bool, final: Settled<ChatObject>)
    : StreamOutcome
  {
    if failure.Some? then CatchBlock(textId, aborted, failure.value)
    else if aborted then StreamOutcome([], None, None)
    else
      var normalEnd := if textId.Some? then [TextEnd(textId.value)] else [];
      var lateEnd := if late && textId.Some? then [TextEnd(textId.value)] else [];
      match final
      case Resolved(obj) => StreamOutcome(normalEnd + lateEnd, Publish(obj), None)
      case Rejected(e) =>
        var c := CatchBlock(textId, late, e);
        StreamOutcome(normalEnd + lateEnd + c.events, None, c.thrown)
  }

  function StreamSpec(run: ChatRun, preAborted: bool): StreamOutcome {
    var body := Consume(run.partials[..StopIndex(run, preAborted)], run.textToken);
    var textId := body.state.textId;
    var aborted := AbortedInLoop(run, preAborted);
    var handlerEnd := if aborted && textId.Some? then [TextEnd(textId.value)] else [];
    var tail := AfterLoop(textId, aborted, LoopFailure(run, preAborted), AbortsDuringFinal(run, preAborted), run.final);
    StreamOutcome(body.events + handlerEnd + tail.events, tail.published, tail.thrown)
  }

  /** The abort listener: mark the signal and close the text if one was
      started. */
  method AbortListener(writer: UIMessageWriter, signal: AbortSignal, textId: Option<string>)
    modifies writer, signal
    ensures signal.aborted && signal.listeners == old(signal.listeners)
    ensures writer.events == old(writer.events) + (if textId.Some? then [TextEnd(textId.value)] else [])
  {
    signal.aborted := true;
    if textId.Some? {
      writer.Write(TextEnd(textId.value));
    }
  }

  /** The body of the `for await` loop on one partial. */
  method ProcessPartial(writer: UIMessageWriter, textId: Option<string>, previousText: string, p: ChatPartial, token: string)
    returns (nextId: Option<string>, nextText: string)
    modifies writer
    ensures var s := Step(TextState(textId, previousText), p, token);
      && TextState(nextId, nextText) == s.state
      && writer.events == old(writer.events) + s.events
  {
    nextId, nextText := textId, previousText;
    if p.response.Some? && p.response.value != "" && p.response.value != previousText {
      if nextId.None? {
        nextId := Some(token);
        writer.Write(TextStart(token));
      }
      var delta := SliceFrom(p.response.value, |previousText|);
      if delta != "" {
        writer.Write(TextDelta(nextId.value, delta));
      }
      nextText := p.response.value;
    }
  }

  /** The `for await` loop of `streamResponse`, with the abort listener
      attached: what it writes, the text id it ends with, whether the
      listener's `aborted` flag got set, and the error the stream threw. */
  method ForAwaitPartials(writer: UIMessageWriter, signal: AbortSignal, run: ChatRun)
    returns (textId: Option<string>, aborted: bool, failure: Option<Thrown>)
    modifies writer, signal
    ensures var body := Consume(run.partials[..StopIndex(run, old(signal.aborted))], run.textToken);
      && textId == body.state.textId
      && aborted == AbortedInLoop(run, old(signal.aborted))
      && failure == LoopFailure(run, old(signal.aborted))
      && writer.events == old(writer.events) + body.events
                          + (if aborted && textId.Some? then [TextEnd(textId.value)] else [])
    ensures signal.aborted == (old(signal.aborted) || aborted)
    ensures signal.listeners == old(signal.listeners)
  {
    ghost var pre := signal.aborted;
    ghost var stopAt := StopIndex(run, pre);
    ghost var start := writer.events;
    var ps := run.partials;
    var previousText := "";
    textId, aborted := None, false;

    var i := 0;
    var stop := false;
    while i < |ps| && !stop
      invariant 0 <= i <= stopAt <= |ps|
      invariant stop ==> i == stopAt < |ps| && signal.aborted && aborted == AbortedInLoop(run, pre)
      invariant !stop ==> !aborted && signal.aborted == pre
      invariant TextState(textId, previousText) == Consume(ps[..i], run.textToken).state
      invariant !aborted ==> writer.events == start + Consume(ps[..i], run.textToken).events
      invariant aborted ==> writer.events == start + Consume(ps[..i], run.textToken).events
                                 + (if textId.Some? then [TextEnd(textId.value)] else [])
      invariant signal.listeners == old(signal.listeners)
      decreases |ps| - i, if stop then 0 else 1
    {
      // the abort event may be dispatched while the loop waits for partial i
      if run.abort.WhileStreaming? && Min(run.abort.before, |ps|) == i && !signal.aborted {
        aborted := true;
        AbortListener(writer, signal, textId);
      }
      if aborted || signal.aborted {
        stop := true;
      } else {
        assert ps[..i + 1][..i] == ps[..i];
        textId, previousText := ProcessPartial(writer, textId, previousText, ps[i], run.textToken);
        i := i + 1;
      }
    }

    failure := None;
    if !stop {
      // the abort event may be dispatched while the loop waits for the end
      if run.abort.WhileStreaming? && |ps| <= run.abort.before && !signal.aborted {
        aborted := true;
        AbortListener(writer, signal, textId);
      }
      failure := run.streamEnd;
    }
  }

  /** The rest of `streamResponse` after the loop: the normal end, the
      `await result.object` (during which the abort may fire when
      `abortDuringFinal` and the listener is still armed), the publication of
      the suggestions, and the `catch` block. */
  method FinishStream(writer: UIMessageWriter, store: SuggestionsStore, signal: AbortSignal,
                      textId: Option<string>, aborted: bool, failure: Option<Thrown>,
                      abortDuringFinal: bool, final: Settled<ChatObject>)
    returns (thrown: Option<Thrown>)
    modifies writer, store, signal
    ensures var late := abortDuringFinal && !old(signal.aborted) && !aborted && failure.None?;
      var tail := AfterLoop(textId, aborted, failure, late, final);
      && writer.events == old(writer.events) + tail.events
      && thrown == tail.thrown
      && store.suggestions == (if tail.published.Some? then tail.published.value else old(store.suggestions))
      && signal.aborted == (old(signal.aborted) || late)
    ensures signal.listeners == old(signal.listeners)
  {
    thrown := None;
    if failure.Some? {
      // catch
      if textId.Some? && !aborted {
        writer.Write(TextEnd(textId.value));
      }
      if !aborted && !IsAbortError(failure.value) {
        thrown := failure;
      }
      return;
    }
    if aborted {
      return;
    }
    if textId.Some? {
      writer.Write(TextEnd(textId.value));
    }
    // the abort event may be dispatched during `await result.object`
    var late := false;
    if abortDuringFinal && !signal.aborted {
      late := true;
      AbortListener(writer, signal, textId);
    }
    match final
    case Resolved(obj) =>
      if obj.suggestions.Some? && |obj.suggestions.value| > 0 {
        store.SetSuggestions(obj.suggestions.value);
      }
    case Rejected(e) =>
      // catch
      if textId.Some? && !late {
        writer.Write(TextEnd(textId.value));
      }
      if !late && !IsAbortError(e) {
        thrown := Some(e);
      }
  }

  /** `streamResponse`: the loop over the partials, the abort listener, the
      normal and error paths and the publication of the suggestions. */
  method StreamResponse(writer: UIMessageWriter, store: SuggestionsStore, signal: AbortSignal, run: ChatRun)
    returns (thrown: Option<Thrown>)
    modifies writer, store, signal
    ensures writer.events == old(writer.events) + StreamSpec(run, old(signal.aborted)).events
    ensures thrown == StreamSpec(run, old(signal.aborted)).thrown
    ensures store.suggestions ==
      match StreamSpec(run, old(signal.aborted)).published
      case Some(s) => s
      case None => old(store.suggestions)
    ensures signal.aborted == (old(signal.aborted) || AbortFires(run, old(signal.aborted)))
    ensures signal.listeners == old(signal.listeners)
  {
    ghost var pre := signal.aborted;
    ghost var start := writer.events;
    signal.listeners := signal.listeners + 1;
    var textId, aborted, failure := ForAwaitPartials(writer, signal, run);
    ghost var loopEvents := writer.events;
    ghost var late := run.abort == DuringFinal && !signal.aborted && !aborted && failure.None?;
    assert late == AbortsDuringFinal(run, pre);
    thrown := FinishStream(writer, store, signal, textId, aborted, failure, run.abort == DuringFinal, run.final);
    ghost var tail := AfterLoop(textId, aborted, failure, late, run.final);
    assert writer.events == loopEvents + tail.events;
    // finally
    signal.listeners := signal.listeners - 1;
  }

  // ---------------------------------------------------------------------
  // Download progress and sendMessages

  const DownloadingMessage := "Downloading browser AI model..."
  const FinishedMessage := "Model finished downloading! Getting ready for inference..."

  /** `Math.round(progress * 100)`, computed on reals. */
  function Percent(progress: real): (p: int)
    ensures progress * 100.0 - 0.5 < p as real <= progress * 100.0 + 0.5
    ensures 0.0 <= progress <= 1.0 ==> 0 <= p <= 100
  {
    (progress * 100.0 + 0.5).Floor
  }

  /** The closure-captured download id and the chunks written so far. */
  datatype DownloadState = DownloadState(id: Option<string>, events: seq<Event>)

  /** The progress callback on one tick: a tick of 1 or more reports
      completion under an existing id (and nothing without one); a smaller
      tick allocates the id if there is none and reports the percentage. */
  function OnTick(id: Option<string>, progress: real, token: string): DownloadState {
    if progress >= 1.0 then
      DownloadState(id, if id.Some? then [DownloadProgress(id.value, Complete, 100, FinishedMessage)] else [])
    else
      var current := if id.Some? then id.value else token;
      DownloadState(Some(current), [DownloadProgress(current, InProgress, Percent(progress), DownloadingMessage)])
  }

  /** The callback run over `ticks`, starting from the id `id`. */
  function TicksFrom(id: Option<string>, ticks: seq<real>, token: string): DownloadState
    decreases |ticks|
  {
    if ticks == [] then DownloadState(id, [])
    else
      var d := TicksFrom(id, ticks[..|ticks| - 1], token);
      var t := OnTick(d.id, ticks[|ticks| - 1], token);
      DownloadState(t.id, d.events + t.events)
  }

  /** The callback run over `ticks` from a fresh episode (no id yet). */
  function DownloadTicks(ticks: seq<real>, token: string): DownloadState {
    TicksFrom(None, ticks, token)
  }

  /** Some tick is below 1, so an id is allocated. */
  predicate HasDownloadTick(ticks: seq<real>) {
    exists i :: 0 <= i < |ticks| && ticks[i] < 1.0
  }

  /** The error notification the download branch writes before re-throwing. */
  function ErrorNotification(e: Thrown): Event {
    Notification("Error: " + (if e.ErrorObject? then e.message else "Unknown error"), "error")
  }

  /** What the runtime contributes to one `sendMessages`: the availability,
      the download ticks, how `createSessionWithProgress` ends, the id a
      first tick would be given, and the run of `streamResponse`. */
  datatype SendRun = SendRun(
    availability: Availability,
    ticks: seq<real>,
    sessionFailure: Option<Thrown>,
    downloadToken: string,
    stream: ChatRun)

  /** `streamResponse` is reached: the model is available, or the session
      was created. */
  predicate StreamRuns(run: SendRun) {
    run.availability == Available || run.sessionFailure.None?
  }

  /** The download branch, given what the download did, how creating the
      session ended, and what `streamResponse` would do. */
  function DownloadBranch(d: DownloadState, sessionFailure: Option<Thrown>, s: StreamOutcome): StreamOutcome {
    if sessionFailure.Some? then
      StreamOutcome(d.events + [ErrorNotification(sessionFailure.value)], None, sessionFailure)
    else
      StreamOutcome(d.events + ClearChunk(d.id) + s.events + NotifyChunk(s.thrown), s.published, s.thrown)
  }

  function SendSpec(run: SendRun, preAborted: bool): StreamOutcome {
    if run.availability == Available then
      StreamSpec(run.stream, preAborted)
    else
      DownloadBranch(DownloadTicks(run.ticks, run.downloadToken), run.sessionFailure, StreamSpec(run.stream, preAborted))
  }

  /** The clearing chunk written once the session is ready, for an id the
      download allocated. */
  function ClearChunk(downloadProgressId: Option<string>): seq<Event> {
    if downloadProgressId.Some? then [DownloadProgress(downloadProgressId.value, Complete, 100, "")] else []
  }

  /** The notification written before re-throwing, if anything is thrown. */
  function NotifyChunk(thrown: Option<Thrown>): seq<Event> {
    if thrown.Some? then [ErrorNotification(thrown.value)] else []
  }

  method WriteDownloadProgress(writer: UIMessageWriter, id: string, status: DownloadStatus, progress: int, message: string)
    modifies writer
    ensures writer.events == old(writer.events) + [DownloadProgress(id, status, progress, message)]
  {
    writer.Write(DownloadProgress(id, status, progress, message));
  }

  /** The progress callback handed to `createSessionWithProgress`, run on
      each tick of the download in turn. */
  method CreateSessionWithProgress(writer: UIMessageWriter, ticks: seq<real>, token: string)
    returns (downloadProgressId: Option<string>)
    modifies writer
    ensures downloadProgressId == DownloadTicks(ticks, token).id
    ensures writer.events == old(writer.events) + DownloadTicks(ticks, token).events
  {
    downloadProgressId := None;
    var i := 0;
    while i < |ticks|
      invariant 0 <= i <= |ticks|
      invariant downloadProgressId == DownloadTicks(ticks[..i], token).id
      invariant writer.events == old(writer.events) + DownloadTicks(ticks[..i], token).events
    {
      var progress := ticks[i];
      assert ticks[..i + 1][..i] == ticks[..i];
      var percent := Percent(progress);
      if progress >= 1.0 {
        if downloadProgressId.Some? {
          WriteDownloadProgress(writer, downloadProgressId.value, Complete, 100, FinishedMessage);
        }
      } else if downloadProgressId.None? {
        downloadProgressId := Some(token);
        WriteDownloadProgress(writer, downloadProgressId.value, InProgress, percent, DownloadingMessage);
      } else {
        WriteDownloadProgress(writer, downloadProgressId.value, InProgress, percent, DownloadingMessage);
      }
      i := i + 1;
    }
    assert ticks[..|ticks|] == ticks;
  }

  /** The download branch once the session is created: clear the progress
      chunk, stream, and report an error before re-throwing it. */
  method ClearAndStream(writer: UIMessageWriter, store: SuggestionsStore, signal: AbortSignal,
                        downloadProgressId: Option<string>, stream: ChatRun)
    returns (thrown: Option<Thrown>)
    modifies writer, store, signal
    ensures var s := StreamSpec(stream, old(signal.aborted));
      && writer.events == old(writer.events) + ClearChunk(downloadProgressId) + s.events + NotifyChunk(s.thrown)
      && thrown == s.thrown
      && store.suggestions == (if s.published.Some? then s.published.value else old(store.suggestions))
    ensures signal.aborted == (old(signal.aborted) || AbortFires(stream, old(signal.aborted)))
    ensures signal.listeners == old(signal.listeners)
  {
    ghost var start := writer.events;
    ghost var s := StreamSpec(stream, signal.aborted);
    if downloadProgressId.Some? {
      WriteDownloadProgress(writer, downloadProgressId.value, Complete, 100, "");
    }
    assert writer.events == start + ClearChunk(downloadProgressId);
    thrown := StreamResponse(writer, store, signal, stream);
    assert writer.events == start + ClearChunk(downloadProgressId) + s.events;
    assert thrown == s.thrown;
    if thrown.Some? {
      writer.Write(ErrorNotification(thrown.value));
    }
  }

  /** The download branch of `sendMessages`. */
  method DownloadAndStream(writer: UIMessageWriter, store: SuggestionsStore, signal: AbortSignal, run: SendRun)
    returns (thrown: Option<Thrown>)
    modifies writer, store, signal
    ensures var o := DownloadBranch(DownloadTicks(run.ticks, run.downloadToken), run.sessionFailure,
                                    StreamSpec(run.stream, old(signal.aborted)));
      && writer.events == old(writer.events) + o.events
      && thrown == o.thrown
      && store.suggestions == (if o.published.Some? then o.published.value else old(store.suggestions))
    ensures signal.aborted == (old(signal.aborted) || (run.sessionFailure.None? && AbortFires(run.stream, old(signal.aborted))))
    ensures signal.listeners == old(signal.listeners)
  {
    ghost var start := writer.events;
    ghost var d := DownloadTicks(run.ticks, run.downloadToken);
    ghost var s := StreamSpec(run.stream, signal.aborted);
    var downloadProgressId := CreateSessionWithProgress(writer, run.ticks, run.downloadToken);
    assert writer.events == start + d.events && downloadProgressId == d.id;
    if run.sessionFailure.Some? {
      writer.Write(ErrorNotification(run.sessionFailure.value));
      thrown := run.sessionFailure;
      assert writer.events == start + DownloadBranch(d, run.sessionFailure, s).events;
      return;
    }
    assert DownloadBranch(d, run.sessionFailure, s) ==
           StreamOutcome(d.events + ClearChunk(d.id) + s.events + NotifyChunk(s.thrown), s.published, s.thrown);
    thrown := ClearAndStream(writer, store, signal, downloadProgressId, run.stream);
    assert writer.events == start + d.events + ClearChunk(d.id) + s.events + NotifyChunk(s.thrown);
  }

  /** `sendMessages`, with the stream's `execute` run to completion: stream
      straight away when the model is available; otherwise report the
      download's progress, clear it, and stream; a failure in that branch
      is reported as an error notification and re-thrown. */
  method SendMessages(writer: UIMessageWriter, store: SuggestionsStore, signal: AbortSignal, run: SendRun)
    returns (thrown: Option<Thrown>)
    modifies writer, store, signal
    ensures writer.events == old(writer.events) + SendSpec(run, old(signal.aborted)).events
    ensures thrown == SendSpec(run, old(signal.aborted)).thrown
    ensures store.suggestions ==
      match SendSpec(run, old(signal.aborted)).published
      case Some(s) => s
      case None => old(store.suggestions)
    ensures signal.aborted == (old(signal.aborted) || (StreamRuns(run) && AbortFires(run.stream, old(signal.aborted))))
    ensures signal.listeners == old(signal.listeners)
  {
    if run.availability == Available {
      thrown := StreamResponse(writer, store, signal, run.stream);
    } else {
      thrown := DownloadAndStream(writer, store, signal, run);
    }
  }

  /** Client-side generation cannot resume a stream. */
  method ReconnectToStream() returns (r: Option<seq<Event>>)
    ensures r == None
  {
    r := None;
  }
}
