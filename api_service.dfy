/**
 * The front end's REST client (apiService.ts): the endpoint URLs it builds,
 * the request bodies it sends, and how `transcribeCall` turns an HTTP reply
 * into a returned body or a thrown error.
 */
module ApiService {
  import opened Wrappers
  import opened Values
  import Decimal

  const ApiBase := "http://127.0.0.1:8000/api"
  const NotFoundMessage := "Transcribe endpoint not found. Please check if the call ID exists and the endpoint is correct."
  const NoDataMessage := "No data received from server"
  const Transcripts := "/transcripts/"
  const Transcribe := "/transcribe/"

  /** `${API_BASE}/calls/`, used by createCall and listCalls. */
  function CallsUrl(): (url: string)
    ensures ApiBase < url && url[|url| - 1] == '/'
  {
    ApiBase + "/calls/"
  }

  function CallUrl(callId: nat): string {
    CallsUrl() + Decimal.NatToDecimal(callId)
  }

  function TranscriptsUrl(callId: nat): (url: string)
    ensures CallsUrl() <= url
    ensures |url| > |Transcripts| && url[|url| - |Transcripts|..] == Transcripts
  {
    CallUrl(callId) + Transcripts
  }

  function TranscribeUrl(callId: nat): (url: string)
    ensures CallsUrl() <= url
    ensures |url| > |Transcribe| && url[|url| - |Transcribe|..] == Transcribe
  {
    CallUrl(callId) + Transcribe
  }

  /** An audio file as the browser uploads it. */
  datatype AudioFile = AudioFile(name: string, mimeType: string, content: seq<Byte>)

  /** A multipart form: its fields in the order they were appended. */
  type FormData = seq<(string, AudioFile)>

  datatype TranscribeRequest = TranscribeRequest(url: string, form: FormData)

  /** The POST that transcribeCall issues: one form field, `file`, holding the audio. */
  function TranscribeCallRequest(callId: nat, file: AudioFile): (r: TranscribeRequest)
    ensures r.url == TranscribeUrl(callId)
    ensures |r.form| == 1 && r.form[0].0 == "file" && r.form[0].1 == file
  {
    TranscribeRequest(TranscribeUrl(callId), [] + [("file", file)])
  }

  /** The body of createCall's POST; `callerInfo` defaults to the empty string when not passed. */
  function CreateCallBody(callerInfo: Option<string>): (body: Json)
    ensures Get(body, "caller_info") == Some(JStr(if callerInfo.Some? then callerInfo.value else ""))
  {
    Single("caller_info", JStr(if callerInfo.Some? then callerInfo.value else ""))
  }

  /** An HTTP reply as axios sees it, or a failure before any reply arrived. */
  datatype HttpReply = HttpReply(status: int, data: Json)
  datatype Transport = Delivered(reply: HttpReply) | NetworkError(message: string)

  /** The errors transcribeCall throws (after logging them, it rethrows each unchanged). */
  datatype ApiError =
    | StatusRejected(status: int)   // validateStatus refused the status
    | EndpointNotFound
    | NoData
    | Network(message: string)
  {
    function Message(): string {
      match this
      case StatusRejected(status) => "Request failed with status code " + Decimal.IntToString(status)
      case EndpointNotFound => NotFoundMessage
      case NoData => NoDataMessage
      case Network(message) => message
    }
  }

  /** What `await transcribeCall(...)` yields: the reply body, or the error it throws. */
  function TranscribeOutcome(t: Transport): (r: Result<Json, ApiError>)
    ensures t.NetworkError? ==> r == Err(Network(t.message))
    ensures t.Delivered? && t.reply.status >= 500 ==> r == Err(StatusRejected(t.reply.status))
    ensures t.Delivered? && t.reply.status == 404 ==> r == Err(EndpointNotFound)
    ensures t.Delivered? && t.reply.status < 500 && t.reply.status != 404 && !Truthy(t.reply.data) ==> r == Err(NoData)
    ensures r.Ok? <==> t.Delivered? && t.reply.status < 500 && t.reply.status != 404 && Truthy(t.reply.data)
    ensures r.Ok? ==> r.value == t.reply.data
  {
    match t
    case NetworkError(message) => Err(Network(message))
    case Delivered(reply) =>
      if !(reply.status < 500) then Err(StatusRejected(reply.status))
      else if reply.status == 404 then Err(EndpointNotFound)
      else if !Truthy(reply.data) then Err(NoData)
      else Ok(reply.data)
  }

  /** The request path of every call-scoped endpoint starts with the calls collection URL. */
  lemma EndpointsShareCollection(callId: nat)
    ensures CallsUrl() <= TranscriptsUrl(callId) && CallsUrl() <= TranscribeUrl(callId)
    ensures CallsUrl() < TranscriptsUrl(callId) && CallsUrl() < TranscribeUrl(callId)
  {
  }

  /** Different call ids reach different transcribe endpoints. */
  lemma TranscribeUrlInjective(a: nat, b: nat)
    requires TranscribeUrl(a) == TranscribeUrl(b)
    ensures a == b
  {
    var da, db := Decimal.NatToDecimal(a), Decimal.NatToDecimal(b);
    var n := |CallsUrl()|;
    assert |da| == |db|;
    assert da == TranscribeUrl(a)[n..n + |da|];
    assert db == TranscribeUrl(b)[n..n + |db|];
    Decimal.NatToDecimalInjective(a, b);
  }

  /** No transcripts URL is ever a transcribe URL, whatever the two call ids. */
  lemma TranscriptsAndTranscribeDiffer(a: nat, b: nat)
    ensures TranscriptsUrl(a) != TranscribeUrl(b)
  {
    var u, v := TranscriptsUrl(a), TranscribeUrl(b);
    var da, db := Decimal.NatToDecimal(a), Decimal.NatToDecimal(b);
    var n := |CallsUrl()|;
    if |u| == |v| {
      // the transcribe URL's id is one digit longer, and that digit sits where the other has '/'
      assert |db| == |da| + 1;
      assert u[n + |da|] == '/';
      assert v[n + |da|] == db[|da|];
    }
  }
}
