/**
 * The back end's call endpoints (views.py): the call list ordered by start
 * time, a call's transcripts ordered by timestamp, and `transcribe`, which
 * sends the uploaded audio to the speech-to-text service and stores the
 * text it returns. The two database tables are fields of the view set; the
 * speech-to-text service is an outcome handed in by the caller.
 */
module CallViews {
  import opened Wrappers
  import opened Values
  import Decimal

  type Timestamp = int

  datatype Call = Call(id: nat, startTime: Timestamp, callerInfo: Option<string>)
  datatype CallTranscript = CallTranscript(id: nat, call: nat, timestamp: Timestamp, text: string, isFinal: bool)

  // ----- ordering -----

  predicate SortedBy<T>(s: seq<T>, key: T -> int) {
    forall i, j | 0 <= i < j < |s| :: key(s[i]) <= key(s[j])
  }

  /** Dropping the last element keeps a sequence sorted, and the last key is the largest. */
  lemma SortedInit<T>(s: seq<T>, key: T -> int)
    requires SortedBy(s, key) && s != []
    ensures SortedBy(s[..|s| - 1], key)
    ensures forall i | 0 <= i < |s| - 1 :: key(s[i]) <= key(s[|s| - 1])
  {
    var init := s[..|s| - 1];
    forall i, j | 0 <= i < j < |init| ensures key(init[i]) <= key(init[j]) {
      assert init[i] == s[i] && init[j] == s[j];
    }
  }

  /** Insert `x` into a sequence after the trailing elements whose key is greater. */
  function Insert<T>(x: T, s: seq<T>, key: T -> int): (r: seq<T>)
    ensures |r| == |s| + 1
  {
    if s == [] || key(s[|s| - 1]) <= key(x) then s + [x]
    else Insert(x, s[..|s| - 1], key) + [s[|s| - 1]]
  }

  /** Insertion adds `x` and loses nothing. */
  lemma {:induction false} InsertPermutes<T>(x: T, s: seq<T>, key: T -> int)
    ensures multiset(Insert(x, s, key)) == multiset(s) + multiset{x}
  {
    if !(s == [] || key(s[|s| - 1]) <= key(x)) {
      InsertPermutes(x, s[..|s| - 1], key);
      assert s == s[..|s| - 1] + [s[|s| - 1]];
    }
  }

  /** Inserting into a sorted sequence keeps it sorted. */
  lemma {:induction false} InsertSorted<T>(x: T, s: seq<T>, key: T -> int)
    requires SortedBy(s, key)
    ensures SortedBy(Insert(x, s, key), key)
  {
    if s == [] || key(s[|s| - 1]) <= key(x) {
      if s != [] {
        SortedInit(s, key);
      }
    } else {
      var init, last := s[..|s| - 1], s[|s| - 1];
      SortedInit(s, key);
      InsertSorted(x, init, key);
      InsertPermutes(x, init, key);
      var front := Insert(x, init, key);
      forall i | 0 <= i < |front| ensures key(front[i]) <= key(last) {
        assert front[i] in multiset(front);
        if front[i] != x {
          assert front[i] in multiset(init);
          var k :| 0 <= k < |init| && init[k] == front[i];
          assert s[k] == front[i];
        }
      }
    }
  }

  /** One order `order_by` may give: ascending by an integer key, ties in table order. */
  function SortBy<T>(s: seq<T>, key: T -> int): (r: seq<T>)
    ensures |r| == |s|
  {
    if s == [] then [] else Insert(s[|s| - 1], SortBy(s[..|s| - 1], key), key)
  }

  /** The sort's result is ordered by the key and holds exactly the input's elements. */
  lemma {:induction false} SortByCorrect<T>(s: seq<T>, key: T -> int)
    ensures SortedBy(SortBy(s, key), key)
    ensures multiset(SortBy(s, key)) == multiset(s)
  {
    if s != [] {
      var init, last := s[..|s| - 1], s[|s| - 1];
      SortByCorrect(init, key);
      InsertSorted(last, SortBy(init, key), key);
      InsertPermutes(last, SortBy(init, key), key);
      assert s == init + [last];
    }
  }

  /** The records of one call, in table order. */
  function OfCall(ts: seq<CallTranscript>, callId: nat): (r: seq<CallTranscript>)
    ensures forall t | t in r :: t.call == callId
    ensures forall t :: multiset(r)[t] == if t.call == callId then multiset(ts)[t] else 0
  {
    if ts == [] then []
    else
      var init, last := ts[..|ts| - 1], ts[|ts| - 1];
      assert ts == init + [last];
      if last.call == callId then OfCall(init, callId) + [last] else OfCall(init, callId)
  }

  function FindCall(calls: seq<Call>, pk: nat): (r: Option<Call>)
    ensures r.Some? ==> r.value in calls && r.value.id == pk
    ensures r.None? ==> forall c | c in calls :: c.id != pk
  {
    if calls == [] then None
    else if calls[0].id == pk then Some(calls[0])
    else FindCall(calls[1..], pk)
  }

  // ----- responses -----

  const NoFileMessage := "No audio file provided."
  const SttModel := "ink-whisper"
  const SttLanguage := "en"

  datatype Response = Response(status: int, body: Json)

  const NotFound := Response(404, Single("detail", JStr("Not found.")))

  function ErrorResponse(status: int, message: string): (r: Response)
    ensures r.status == status && Get(r.body, "error") == Some(JStr(message))
  {
    Response(status, Single("error", JStr(message)))
  }

  /** `request.FILES.get('file')`: an upload is truthy when it has a name. */
  datatype UploadedFile = UploadedFile(name: string, contentType: string, content: seq<Byte>)

  predicate FileProvided(file: Option<UploadedFile>) {
    file.Some? && file.value.name != ""
  }

  /** The form posted to the speech-to-text service. */
  datatype SttRequest = SttRequest(fileName: string, contentType: string, content: seq<Byte>, model: string, language: string)

  /** What came back from `requests.post`: an exception, or a reply with its status and its body if it is JSON. */
  datatype SttOutcome =
    | TransportFailure(message: string)
    | SttReply(status: int, json: Option<Json>)

  /** The exception the success path can raise, and the text `str(e)` stands for in the model. */
  datatype SttError =
    | Transport(message: string)
    | HttpStatus(status: int)   // raise_for_status on a 4xx or 5xx reply
    | NotJson                   // resp.json() could not decode the body
    | NotAnObject               // result.get on a JSON value that is not an object
    | NonStringText             // the 'text' value is not a string
  {
    function Text(): string {
      match this
      case Transport(message) => message
      case HttpStatus(status) => Decimal.IntToString(status) + (if status < 500 then " Client Error" else " Server Error")
      case NotJson => "Expecting value"
      case NotAnObject => "object has no attribute 'get'"
      case NonStringText => "text is not a string"
    }
  }

  /** The text to store, or the exception raised on the way to it. */
  function SttText(outcome: SttOutcome): (r: Result<string, SttError>)
    ensures outcome.TransportFailure? ==> r == Err(Transport(outcome.message))
    ensures outcome.SttReply? && 400 <= outcome.status < 600 ==> r == Err(HttpStatus(outcome.status))
    ensures r.Ok? <==> outcome.SttReply? && !(400 <= outcome.status < 600) && outcome.json.Some?
                       && outcome.json.value.JObj?
                       && (Get(outcome.json.value, "text").None? || Get(outcome.json.value, "text").value.JStr?)
    ensures r.Ok? && Get(outcome.json.value, "text").None? ==> r.value == ""
    ensures r.Ok? && Get(outcome.json.value, "text").Some? ==> Get(outcome.json.value, "text") == Some(JStr(r.value))
  {
    match outcome
    case TransportFailure(message) => Err(Transport(message))
    case SttReply(status, json) =>
      if 400 <= status < 600 then Err(HttpStatus(status))
      else if json.None? then Err(NotJson)
      else if !json.value.JObj? then Err(NotAnObject)
      else
        match Get(json.value, "text")
        case None => Ok("")
        case Some(JStr(s)) => Ok(s)
        case Some(_) => Err(NonStringText)
  }

  /** The body echoed back after a transcript is stored. */
  function TranscriptBody(t: CallTranscript): (body: Json)
    ensures Get(body, "text") == Some(JStr(t.text))
    ensures Get(body, "is_final") == Some(JBool(t.isFinal))
    ensures Get(body, "timestamp") == Some(JNum(t.timestamp))
  {
    JObj(map["timestamp" := JNum(t.timestamp), "text" := JStr(t.text), "is_final" := JBool(t.isFinal)])
  }

  class CallViewSet {
    /** The Call table. */
    var calls: seq<Call>
    /** The CallTranscript table, in insertion order. */
    var transcripts: seq<CallTranscript>
    /** The id the next CallTranscript row receives. */
    var nextTranscriptId: nat

    ghost predicate Valid()
      reads this
    {
      && (forall i, j | 0 <= i < j < |calls| :: calls[i].id != calls[j].id)
      && (forall t | t in transcripts ::
            && t.id < nextTranscriptId
            && FindCall(calls, t.call).Some?
            && t.timestamp == FindCall(calls, t.call).value.startTime)
      && (forall i, j | 0 <= i < j < |transcripts| :: transcripts[i].id != transcripts[j].id)
    }

    constructor(calls: seq<Call>)
      requires forall i, j | 0 <= i < j < |calls| :: calls[i].id != calls[j].id
      ensures Valid() && this.calls == calls && transcripts == []
    {
      this.calls := calls;
      transcripts := [];
      nextTranscriptId := 0;
    }

    /** The `queryset`: every call, latest start first. */
    function Queryset(): (r: seq<Call>)
      reads this
      ensures multiset(r) == multiset(calls)
      ensures forall i, j | 0 <= i < j < |r| :: r[i].startTime >= r[j].startTime
    {
      var r := SortBy(calls, (c: Call) => -c.startTime);
      SortByCorrect(calls, (c: Call) => -c.startTime);
      assert forall i, j | 0 <= i < j < |r| :: -r[i].startTime <= -r[j].startTime;
      r
    }

    /** GET calls/<pk>/transcripts/: 404 for an unknown call, else that call's records by timestamp. */
    function Transcripts(pk: nat): (r: Option<seq<CallTranscript>>)
      reads this
      ensures r.None? <==> FindCall(calls, pk).None?
      ensures r.Some? ==> SortedBy(r.value, (t: CallTranscript) => t.timestamp)
      ensures r.Some? ==> forall t | t in r.value :: t.call == pk
      ensures r.Some? ==> forall t: CallTranscript | t.call == pk :: multiset(r.value)[t] == multiset(transcripts)[t]
    {
      if FindCall(calls, pk).None? then None
      else
        var r := SortBy(OfCall(transcripts, pk), (t: CallTranscript) => t.timestamp);
        SortByCorrect(OfCall(transcripts, pk), (t: CallTranscript) => t.timestamp);
        assert forall t | t in r :: t in multiset(OfCall(transcripts, pk));
        Some(r)
    }

    /**
     * POST calls/<pk>/transcribe/. An unknown call gives 404 and a missing file
     * 400, before anything is sent. Otherwise the audio goes to the
     * speech-to-text service with the fixed model and language; on success one
     * final transcript stamped with the call's start time is stored and echoed,
     * and on any exception 500 carries its text and the table is left as it was.
     */
    method Transcribe(pk: nat, file: Option<UploadedFile>, stt: SttOutcome)
        returns (resp: Response, sent: Option<SttRequest>)
      requires Valid()
      modifies this
      ensures Valid() && calls == old(calls)
      ensures FindCall(calls, pk).None? ==> resp == NotFound && sent.None?
      ensures FindCall(calls, pk).Some? && !FileProvided(file) ==>
                resp == ErrorResponse(400, NoFileMessage) && sent.None?
      ensures FindCall(calls, pk).Some? && FileProvided(file) ==>
                sent == Some(SttRequest(file.value.name, file.value.contentType, file.value.content, SttModel, SttLanguage))
      ensures FindCall(calls, pk).Some? && FileProvided(file) && SttText(stt).Ok? ==>
                var t := CallTranscript(old(nextTranscriptId), pk, FindCall(calls, pk).value.startTime, SttText(stt).value, true);
                && transcripts == old(transcripts) + [t]
                && nextTranscriptId == old(nextTranscriptId) + 1
                && resp == Response(200, TranscriptBody(t))
      ensures !(FindCall(calls, pk).Some? && FileProvided(file) && SttText(stt).Ok?) ==>
                transcripts == old(transcripts) && nextTranscriptId == old(nextTranscriptId)
      ensures FindCall(calls, pk).Some? && FileProvided(file) && SttText(stt).Err? ==>
                resp == ErrorResponse(500, SttText(stt).error.Text())
    {
      var call := FindCall(calls, pk);
      if call.None? {
        return NotFound, None;
      }
      if !FileProvided(file) {
        return ErrorResponse(400, NoFileMessage), None;
      }
      var upload := file.value;
      sent := Some(SttRequest(upload.name, upload.contentType, upload.content, SttModel, SttLanguage));
      var text := SttText(stt);
      if text.Err? {
        return ErrorResponse(500, text.error.Text()), sent;
      }
      var t := CallTranscript(nextTranscriptId, pk, call.value.startTime, text.value, true);
      transcripts := transcripts + [t];
      nextTranscriptId := nextTranscriptId + 1;
      resp := Response(200, TranscriptBody(t));
    }
  }

  /**
   * Every stored transcript carries its call's start time, so every record a
   * call's listing holds has that one timestamp: `order_by('timestamp')`
   * compares equal keys only, and the order of the listing is whatever order
   * the database picks among ties.
   */
  lemma TranscriptsShareStartTime(v: CallViewSet, pk: nat)
    requires v.Valid() && FindCall(v.calls, pk).Some?
    ensures v.Transcripts(pk).Some?
    ensures forall t | t in v.Transcripts(pk).value :: t.timestamp == FindCall(v.calls, pk).value.startTime
  {
    var r := v.Transcripts(pk).value;
    forall t | t in r ensures t.timestamp == FindCall(v.calls, pk).value.startTime {
      assert multiset(r)[t] > 0;
      assert multiset(v.transcripts)[t] > 0;
      assert t in v.transcripts;
    }
  }
}
