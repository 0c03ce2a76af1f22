/**
 * The call page's recording session (ConversationRoomPage.tsx): a start
 * button, a stop button, the recorder's data and stop events, the
 * transcription request issued on stop, and the transcript text shown.
 * The microphone and the MediaRecorder are abstract: the model sees only
 * the events they deliver.
 */
module ConversationRoom {
  import opened Wrappers
  import opened Values
  import ApiService

  const AudioMimeType := "audio/webm"
  const RecordingFileName := "recording.webm"
  const NoTranscriptText := "No transcript yet."
  const FinalBadge := " (final)"

  /** One Blob delivered by `dataavailable`; its `size` is its length. */
  type Chunk = seq<Byte>

  /** The chunks worth keeping: those of positive size, in arrival order. */
  function NonEmpty(chunks: seq<Chunk>): (r: seq<Chunk>)
    ensures |r| <= |chunks|
    ensures forall i | 0 <= i < |r| :: |r[i]| > 0
  {
    if chunks == [] then []
    else if |chunks[|chunks| - 1]| > 0 then NonEmpty(chunks[..|chunks| - 1]) + [chunks[|chunks| - 1]]
    else NonEmpty(chunks[..|chunks| - 1])
  }

  /** One more delivered chunk: it is kept exactly when it has positive size. */
  lemma NonEmptySnoc(chunks: seq<Chunk>, c: Chunk)
    ensures NonEmpty(chunks + [c]) == if |c| > 0 then NonEmpty(chunks) + [c] else NonEmpty(chunks)
  {
    assert (chunks + [c])[..|chunks|] == chunks;
  }

  /** `new Blob(chunks)`: the chunks' bytes laid end to end, in order. */
  function Concat(chunks: seq<Chunk>): seq<Byte> {
    if chunks == [] then [] else Concat(chunks[..|chunks| - 1]) + chunks[|chunks| - 1]
  }

  /** A single chunk assembles to its own bytes. */
  lemma ConcatSingle(c: Chunk)
    ensures Concat([c]) == c
  {
    assert [c][..0] == [];
  }

  /** Joining two runs of chunks joins their bytes, in the same order. */
  lemma {:induction false} ConcatAppend(a: seq<Chunk>, b: seq<Chunk>)
    ensures Concat(a + b) == Concat(a) + Concat(b)
  {
    if b == [] {
      assert a + b == a;
    } else {
      var ab, init, last := a + b, b[..|b| - 1], b[|b| - 1];
      assert ab[..|ab| - 1] == a + init && ab[|ab| - 1] == last;
      ConcatAppend(a, init);
      assert Concat(ab) == Concat(a + init) + last;
      assert Concat(b) == Concat(init) + last;
    }
  }

  /** Dropping empty chunks never changes the assembled audio. */
  lemma {:induction false} ConcatNonEmpty(chunks: seq<Chunk>)
    ensures Concat(NonEmpty(chunks)) == Concat(chunks)
  {
    if chunks != [] {
      var init, last := chunks[..|chunks| - 1], chunks[|chunks| - 1];
      ConcatNonEmpty(init);
      if |last| > 0 {
        assert (NonEmpty(init) + [last])[..|NonEmpty(init) + [last]| - 1] == NonEmpty(init);
      } else {
        assert last == [];
      }
    }
  }

  /** What the recorder held by `mediaRecorderRef` is doing. */
  datatype RecorderState =
    | NoRecorder   // the ref is still null
    | Capturing    // started, delivering data events
    | Stopping     // stop() was called; its final data and stop events are due
    | Inactive     // its stop event has been handled

  /** The text shown under the buttons. */
  function DisplayedTranscript(transcript: string): (shown: string)
    ensures shown != ""
    ensures transcript != "" ==> shown == transcript
    ensures transcript == "" ==> shown == NoTranscriptText
  {
    if transcript != "" then transcript else NoTranscriptText
  }

  /** `result.text || ''`: the text field of the reply when it is a non-empty string, else the empty string. */
  function ResultText(result: Json): (text: string)
    ensures Get(result, "text") == Some(JStr(text)) || text == ""
    ensures Get(result, "text").Some? && Get(result, "text").value.JStr? ==> text == Get(result, "text").value.s
  {
    match Get(result, "text")
    case Some(JStr(s)) => s
    case _ => ""
  }

  /**
   * The transcript after `await transcribeCall(...)` settles: the reply's text
   * replaces it; a thrown error leaves it as it was (the rejection is not caught).
   */
  function TranscriptAfter(transcript: string, outcome: Result<Json, ApiService.ApiError>): (r: string)
    ensures outcome.Err? ==> r == transcript
    ensures outcome.Ok? ==> r == ResultText(outcome.value)
  {
    if outcome.Ok? then ResultText(outcome.value) else transcript
  }

  /** A fresh result is never appended to what was shown before: the old text plays no part. */
  lemma TranscriptReplaced(t1: string, t2: string, outcome: Result<Json, ApiService.ApiError>)
    requires outcome.Ok?
    ensures TranscriptAfter(t1, outcome) == TranscriptAfter(t2, outcome)
  {
  }

  /** A reply from the server that carried no text (a 400 error body, say) clears the transcript. */
  lemma ErrorBodyClearsTranscript(transcript: string, status: int, message: string)
    requires 400 <= status < 500 && status != 404
    ensures TranscriptAfter(transcript,
              ApiService.TranscribeOutcome(ApiService.Delivered(ApiService.HttpReply(status, Single("error", JStr(message))))))
            == ""
  {
  }

  /** A 5xx reply is thrown by transcribeCall and the shown transcript stays as it was. */
  lemma ServerErrorKeepsTranscript(transcript: string, status: int, body: Json)
    requires status >= 500
    ensures TranscriptAfter(transcript,
              ApiService.TranscribeOutcome(ApiService.Delivered(ApiService.HttpReply(status, body))))
            == transcript
  {
  }

  /** A transcript record as the transcripts endpoint lists it. */
  datatype TranscriptRecord = TranscriptRecord(timestamp: string, text: string, isFinal: bool)

  /** One list item of LiveTranscriptDisplay: "<timestamp>: ", the text, and the final badge or nothing. */
  datatype ListItem = ListItem(stamp: string, text: string, badge: string)

  function Item(t: TranscriptRecord): (item: ListItem)
    ensures item.stamp == t.timestamp + ": " && item.text == t.text
    ensures item.badge == FinalBadge <==> t.isFinal
    ensures !t.isFinal ==> item.badge == ""
  {
    ListItem(t.timestamp + ": ", t.text, if t.isFinal then FinalBadge else "")
  }

  /** LiveTranscriptDisplay: one item per record, in the records' order. */
  function TranscriptItems(ts: seq<TranscriptRecord>): (items: seq<ListItem>)
    ensures |items| == |ts|
    ensures forall i | 0 <= i < |ts| :: items[i] == Item(ts[i])
  {
    if ts == [] then [] else [Item(ts[0])] + TranscriptItems(ts[1..])
  }

  /** Rendering a longer list extends the rendering of its prefix. */
  lemma {:induction false} TranscriptItemsAppend(a: seq<TranscriptRecord>, b: seq<TranscriptRecord>)
    ensures TranscriptItems(a + b) == TranscriptItems(a) + TranscriptItems(b)
  {
    var l, r := TranscriptItems(a + b), TranscriptItems(a) + TranscriptItems(b);
    assert |l| == |r|;
    forall i | 0 <= i < |l| ensures l[i] == r[i] {
      if i < |a| {
        assert (a + b)[i] == a[i];
      } else {
        assert (a + b)[i] == b[i - |a|];
      }
    }
  }

  /** The two buttons of the page. */
  datatype Click = StartClick | StopClick

  /** Start is disabled while recording, Stop while not recording. */
  predicate Enabled(recording: bool, c: Click) {
    if c == StartClick then !recording else recording
  }

  /** A sequence of clicks each of which found its button enabled, starting from `recording`. */
  predicate EnabledRun(recording: bool, clicks: seq<Click>)
    decreases |clicks|
  {
    clicks == [] || (Enabled(recording, clicks[0]) && EnabledRun(clicks[0] == StartClick, clicks[1..]))
  }

  /** From the idle page, the clicks the buttons allow are start, stop, start, stop, ... */
  lemma {:induction false} ClicksAlternate(recording: bool, clicks: seq<Click>)
    requires EnabledRun(recording, clicks)
    ensures forall i | 0 <= i < |clicks| ::
              clicks[i] == (if (i % 2 == 0) != recording then StartClick else StopClick)
    decreases |clicks|
  {
    if clicks != [] {
      ClicksAlternate(clicks[0] == StartClick, clicks[1..]);
      forall i | 0 < i < |clicks|
        ensures clicks[i] == (if (i % 2 == 0) != recording then StartClick else StopClick)
      {
        assert clicks[i] == clicks[1..][i - 1];
      }
    }
  }

  class ConversationRoomPage {
    const callId: nat
    /** The `recording` state that drives the buttons. */
    var recording: bool
    /** The `transcript` state shown on the page. */
    var transcript: string
    var recorder: RecorderState
    /** `audioChunksRef.current`. */
    var chunks: seq<Chunk>
    /** Every chunk delivered since the last start, empty ones included. */
    ghost var delivered: seq<Chunk>
    /** Transcription requests sent, in order. */
    var requests: seq<ApiService.TranscribeRequest>
    /** Requests whose result has not yet arrived. */
    var pending: nat

    ghost predicate Valid()
      reads this
    {
      && (recording <==> recorder == Capturing)
      && chunks == NonEmpty(delivered)
      && pending <= |requests|
    }

    constructor(callId: nat)
      ensures Valid()
      ensures this.callId == callId && !recording && transcript == ""
      ensures recorder == NoRecorder && chunks == [] && requests == [] && pending == 0
    {
      this.callId := callId;
      recording := false;
      transcript := "";
      recorder := NoRecorder;
      chunks := [];
      delivered := [];
      requests := [];
      pending := 0;
    }

    /**
     * startRecording, once the microphone stream has been granted. The Start
     * button is disabled while recording; a start while the previous recorder
     * has yet to deliver its stop event is outside the model.
     */
    method StartRecording()
      requires Valid() && (recorder == NoRecorder || recorder == Inactive)
      modifies this
      ensures Valid()
      ensures recording && recorder == Capturing && chunks == [] && delivered == []
      ensures transcript == old(transcript) && requests == old(requests) && pending == old(pending)
    {
      recorder := Capturing;
      chunks := [];
      delivered := [];
      recording := true;
    }

    /** The recorder's `dataavailable` event: a chunk of positive size is buffered, an empty one ignored. */
    method OnDataAvailable(chunk: Chunk)
      requires Valid() && (recorder == Capturing || recorder == Stopping)
      modifies this
      ensures Valid()
      ensures chunks == if |chunk| > 0 then old(chunks) + [chunk] else old(chunks)
      ensures delivered == old(delivered) + [chunk]
      ensures recording == old(recording) && recorder == old(recorder) && transcript == old(transcript)
      ensures requests == old(requests) && pending == old(pending)
    {
      NonEmptySnoc(delivered, chunk);
      if |chunk| > 0 {
        chunks := chunks + [chunk];
      }
      delivered := delivered + [chunk];
    }

    /** stopRecording: clears `recording`; stops the recorder if there is one. No request is sent here. */
    method StopRecording()
      requires Valid()
      modifies this
      ensures Valid()
      ensures !recording
      ensures recorder == if old(recorder) == Capturing then Stopping else old(recorder)
      ensures chunks == old(chunks) && delivered == old(delivered) && transcript == old(transcript)
      ensures requests == old(requests) && pending == old(pending)
    {
      recording := false;
      if recorder == Capturing {
        recorder := Stopping;
      }
    }

    /**
     * The recorder's `stop` event: the buffered chunks become one `audio/webm`
     * file, and exactly one transcription request carrying it is sent.
     */
    method OnStop() returns (request: ApiService.TranscribeRequest)
      requires Valid() && recorder == Stopping
      modifies this
      ensures Valid()
      ensures request == ApiService.TranscribeCallRequest(callId,
                ApiService.AudioFile(RecordingFileName, AudioMimeType, Concat(old(delivered))))
      ensures requests == old(requests) + [request] && pending == old(pending) + 1
      ensures recorder == Inactive && !recording
      ensures chunks == old(chunks) && delivered == old(delivered) && transcript == old(transcript)
    {
      ConcatNonEmpty(delivered);
      var file := ApiService.AudioFile(RecordingFileName, AudioMimeType, Concat(chunks));
      request := ApiService.TranscribeCallRequest(callId, file);
      requests := requests + [request];
      pending := pending + 1;
      recorder := Inactive;
    }

    /** The awaited transcribeCall settles: its text replaces the transcript; an error leaves it. */
    method OnTranscribeResult(outcome: Result<Json, ApiService.ApiError>)
      requires Valid() && pending > 0
      modifies this
      ensures Valid()
      ensures transcript == TranscriptAfter(old(transcript), outcome)
      ensures pending == old(pending) - 1
      ensures recording == old(recording) && recorder == old(recorder)
      ensures chunks == old(chunks) && delivered == old(delivered) && requests == old(requests)
    {
      transcript := TranscriptAfter(transcript, outcome);
      pending := pending - 1;
    }
  }

  /** One whole segment: start, the recorder's chunks, stop, the stop event and the server's reply. */
  method RecordSegment(page: ConversationRoomPage, data: seq<Chunk>, outcome: Result<Json, ApiService.ApiError>)
      returns (request: ApiService.TranscribeRequest)
    requires page.Valid() && (page.recorder == NoRecorder || page.recorder == Inactive)
    modifies page
    ensures page.Valid() && !page.recording && page.recorder == Inactive
    ensures request == ApiService.TranscribeCallRequest(page.callId,
              ApiService.AudioFile(RecordingFileName, AudioMimeType, Concat(data)))
    ensures page.requests == old(page.requests) + [request]
    ensures page.transcript == TranscriptAfter(old(page.transcript), outcome)
  {
    page.StartRecording();
    FeedChunks(page, data);
    page.StopRecording();
    request := page.OnStop();
    page.OnTranscribeResult(outcome);
  }

  /** The recorder delivers `data`, one `dataavailable` event per chunk, while capturing. */
  method FeedChunks(page: ConversationRoomPage, data: seq<Chunk>)
    requires page.Valid() && page.recorder == Capturing && page.delivered == []
    modifies page
    ensures page.Valid() && page.recording && page.recorder == Capturing
    ensures page.delivered == data
    ensures page.requests == old(page.requests) && page.pending == old(page.pending)
    ensures page.transcript == old(page.transcript)
  {
    var i := 0;
    while i < |data|
      invariant 0 <= i <= |data|
      invariant page.Valid() && page.recording && page.recorder == Capturing
      invariant page.delivered == data[..i]
      invariant page.requests == old(page.requests) && page.pending == old(page.pending)
      invariant page.transcript == old(page.transcript)
    {
      page.OnDataAvailable(data[i]);
      assert data[..i + 1] == data[..i] + [data[i]];
      i := i + 1;
    }
    assert data[..i] == data;
  }
}
