/**
 * The report generator's handling of the model's reply (gemini_service.py):
 * the API-key guard, removal of a Markdown code fence around the JSON, and
 * the fall-back error record when the text does not parse. The model call
 * and the JSON parser are handed in by the caller.
 */
module GeminiService {
  import opened Wrappers
  import opened Values

  const JsonFence := "```json"
  const Fence := "```"
  const MissingKeyMessage := "GEMINI_API_KEY environment variable is missing! Please set it in your environment or .env file."
  const ParseErrorMessage := "Could not parse Gemini response as JSON."
  const GeminiModel := "gemini-2.5-pro"

  /** The characters Python's `str.strip()` removes: those for which `str.isspace()` holds. */
  predicate IsSpace(c: char) {
    var k := c as int;
    || 9 <= k <= 13        // tab, line feed, vertical tab, form feed, carriage return
    || 28 <= k <= 32       // the four information separators and space
    || k == 0x85 || k == 0xA0 || k == 0x1680
    || 0x2000 <= k <= 0x200A
    || k == 0x2028 || k == 0x2029 || k == 0x202F || k == 0x205F || k == 0x3000
  }

  function StripStart(s: string): (r: string)
    ensures |r| <= |s| && r == s[|s| - |r|..]
    ensures r == [] || !IsSpace(r[0])
  {
    if s != [] && IsSpace(s[0]) then StripStart(s[1..]) else s
  }

  /** Only whitespace is removed from the front. */
  lemma {:induction false} StripStartDropsSpace(s: string, i: nat)
    requires i < |s| - |StripStart(s)|
    ensures IsSpace(s[i])
  {
    if i > 0 {
      StripStartDropsSpace(s[1..], i - 1);
    }
  }

  function StripEnd(s: string): (r: string)
    ensures |r| <= |s| && r == s[..|r|]
    ensures r == [] || !IsSpace(r[|r| - 1])
  {
    if s != [] && IsSpace(s[|s| - 1]) then StripEnd(s[..|s| - 1]) else s
  }

  /** Only whitespace is removed from the back. */
  lemma {:induction false} StripEndDropsSpace(s: string, i: nat)
    requires |StripEnd(s)| <= i < |s|
    ensures IsSpace(s[i])
  {
    if i < |s| - 1 {
      StripEndDropsSpace(s[..|s| - 1], i);
    }
  }

  /** No whitespace at either end. */
  predicate Trimmed(s: string) {
    s == [] || (!IsSpace(s[0]) && !IsSpace(s[|s| - 1]))
  }

  /** `str.strip()`: the longest slice without whitespace at either end. */
  function Strip(s: string): (r: string)
    ensures Trimmed(r)
  {
    var t := StripStart(s);
    var r := StripEnd(t);
    assert r != [] ==> r[0] == t[0];
    r
  }

  predicate EndsWith(s: string, suffix: string) {
    |suffix| <= |s| && s[|s| - |suffix|..] == suffix
  }

  /** `if text.startswith('```json'): text = text[len('```json'):].strip()`. */
  function DropJsonFence(t: string): (r: string)
    ensures Trimmed(t) ==> Trimmed(r)
  {
    if JsonFence <= t then Strip(t[|JsonFence|..]) else t
  }

  /** `if text.startswith('```'): text = text[len('```'):].strip()`. */
  function DropOpeningFence(t: string): (r: string)
    ensures Trimmed(t) ==> Trimmed(r)
  {
    if Fence <= t then Strip(t[|Fence|..]) else t
  }

  /** `if text.endswith('```'): text = text[:-3].strip()`. */
  function DropClosingFence(t: string): (r: string)
    ensures Trimmed(t) ==> Trimmed(r)
  {
    if EndsWith(t, Fence) then Strip(t[..|t| - 3]) else t
  }

  /** The text handed to json.loads: stripped, then each fence removed at most once, in this order. */
  function StripFences(raw: string): (text: string)
    ensures Trimmed(text)   // whatever the reply, the parser never sees surrounding whitespace
  {
    DropClosingFence(DropOpeningFence(DropJsonFence(Strip(raw))))
  }

  // ----- the result is a slice of the reply -----

  lemma StripSlice(s: string) returns (i: nat, j: nat)
    ensures i <= j <= |s| && Strip(s) == s[i..j]
  {
    var t := StripStart(s);
    i := |s| - |t|;
    j := i + |StripEnd(t)|;
    assert t[..|StripEnd(t)|] == s[i..j];
  }

  /** A slice of a slice is a slice of the whole. */
  lemma SliceOfSlice(s: string, i: nat, j: nat, k: nat, l: nat)
    requires i <= j <= |s| && k <= l <= j - i
    ensures s[i..j][k..l] == s[i + k..i + l]
  {
    var x, y := s[i..j][k..l], s[i + k..i + l];
    assert |x| == |y|;
    forall m | 0 <= m < |x| ensures x[m] == y[m] {
      assert x[m] == s[i..j][k + m];
    }
  }

  /** Chains two slicing steps: a slice of a slice of `s` is a slice of `s`. */
  lemma ComposeSlices(s: string, t: string, u: string, i: nat, j: nat, k: nat, l: nat)
    returns (m: nat, n: nat)
    requires i <= j <= |s| && t == s[i..j] && k <= l <= |t| && u == t[k..l]
    ensures m <= n <= |s| && u == s[m..n]
  {
    SliceOfSlice(s, i, j, k, l);
    m, n := i + k, i + l;
  }

  /** Re-stripping the rest after a leading marker keeps a slice of the text. */
  lemma StripAfterSlice(t: string, n: nat) returns (i: nat, j: nat)
    requires n <= |t|
    ensures i <= j <= |t| && Strip(t[n..]) == t[i..j]
  {
    var u := t[n..];
    assert u == t[n..|t|];
    var a, b := StripSlice(u);
    i, j := ComposeSlices(t, u, Strip(u), n, |t|, a, b);
  }

  lemma DropJsonFenceSlice(t: string) returns (i: nat, j: nat)
    ensures i <= j <= |t| && DropJsonFence(t) == t[i..j]
  {
    if JsonFence <= t {
      i, j := StripAfterSlice(t, |JsonFence|);
    } else {
      i, j := 0, |t|;
    }
  }

  lemma DropOpeningFenceSlice(t: string) returns (i: nat, j: nat)
    ensures i <= j <= |t| && DropOpeningFence(t) == t[i..j]
  {
    if Fence <= t {
      i, j := StripAfterSlice(t, |Fence|);
    } else {
      i, j := 0, |t|;
    }
  }

  lemma DropClosingFenceSlice(t: string) returns (i: nat, j: nat)
    ensures i <= j <= |t| && DropClosingFence(t) == t[i..j]
  {
    if EndsWith(t, Fence) {
      var a, b := StripSlice(t[..|t| - 3]);
      SliceOfSlice(t, 0, |t| - 3, a, b);
      i, j := a, b;
    } else {
      i, j := 0, |t|;
    }
  }

  /** The text handed to the parser is a contiguous piece of the reply, never longer than it. */
  lemma StripFencesSlice(raw: string) returns (i: nat, j: nat)
    ensures i <= j <= |raw| && StripFences(raw) == raw[i..j]
  {
    var t0 := Strip(raw);
    var a0, b0 := StripSlice(raw);
    var t1 := DropJsonFence(t0);
    var a1, b1 := DropJsonFenceSlice(t0);
    var c1, d1 := ComposeSlices(raw, t0, t1, a0, b0, a1, b1);
    var t2 := DropOpeningFence(t1);
    var a2, b2 := DropOpeningFenceSlice(t1);
    var c2, d2 := ComposeSlices(raw, t1, t2, c1, d1, a2, b2);
    var t3 := DropClosingFence(t2);
    var a3, b3 := DropClosingFenceSlice(t2);
    i, j := ComposeSlices(raw, t2, t3, c2, d2, a3, b3);
  }

  /** A reply with no fence at either end is only stripped of whitespace. */
  lemma UnfencedOnlyStripped(raw: string)
    requires !(Fence <= Strip(raw)) && !EndsWith(Strip(raw), Fence)
    ensures StripFences(raw) == Strip(raw)
  {
    NoFenceUnchanged(Strip(raw));
  }

  lemma NoFenceUnchanged(t: string)
    requires !(Fence <= t) && !EndsWith(t, Fence)
    ensures DropClosingFence(DropOpeningFence(DropJsonFence(t))) == t
  {
    if |t| >= |JsonFence| {
      assert t[..|Fence|] == t[..|JsonFence|][..|Fence|];
    }
    assert DropJsonFence(t) == t;
  }

  /** Stripping text that has no surrounding whitespace changes nothing. */
  lemma StripTrimmed(s: string)
    requires Trimmed(s)
    ensures Strip(s) == s
  {
  }

  /** Whitespace in front is stripped away. */
  lemma StripLeadingSpace(c: char, s: string)
    requires IsSpace(c)
    ensures Strip([c] + s) == Strip(s)
  {
    assert ([c] + s)[1..] == s;
  }

  /** Whitespace behind a trimmed text is stripped away. */
  lemma StripTrailingSpace(s: string, c: char)
    requires Trimmed(s) && IsSpace(c)
    ensures Strip(s + [c]) == s
  {
    var t := s + [c];
    assert t[..|s|] == s;
    if s == [] {
      assert t[1..] == [];
    } else {
      assert StripStart(t) == t;
      assert StripEnd(t) == StripEnd(s);
    }
  }

  /** A marker line in front of a trimmed text: stripping keeps the marker, and stripping what follows it gives back the text. */
  lemma MarkerLine(marker: string, inner: string)
    requires marker != [] && !IsSpace(marker[0]) && Trimmed(inner) && inner != []
    ensures var raw := marker + ['\n'] + inner;
      Strip(raw) == raw && marker <= raw && Strip(raw[|marker|..]) == inner
  {
    var raw := marker + ['\n'] + inner;
    assert raw[0] == marker[0] && raw[|raw| - 1] == inner[|inner| - 1];
    StripTrimmed(raw);
    assert raw[..|marker|] == marker;
    assert raw[|marker|..] == ['\n'] + inner;
    StripLeadingSpace('\n', inner);
    StripTrimmed(inner);
  }

  /** An opening "```json" line is removed together with its line break. */
  lemma JsonLineDropped(inner: string)
    requires Trimmed(inner) && inner != []
    ensures DropJsonFence(Strip(JsonFence + ['\n'] + inner)) == inner
  {
    MarkerLine(JsonFence, inner);
  }

  /** A body that does not open with a fence is left alone by the second check. */
  lemma BodyKeepsOpening(body: string, rest: string)
    requires body != [] && !(Fence <= body) && rest == ['\n'] + Fence
    ensures DropOpeningFence(body + rest) == body + rest
  {
    var t := body + rest;
    if |body| >= |Fence| {
      assert t[..|Fence|] == body[..|Fence|];
    } else {
      assert t[|body|] == '\n' != Fence[|body|];
    }
  }

  /** A closing "```" line is removed together with its line break. */
  lemma ClosingLineDropped(body: string)
    requires Trimmed(body)
    ensures DropClosingFence(body + ['\n'] + Fence) == body
  {
    var t := body + ['\n'] + Fence;
    assert t[|t| - |Fence|..] == Fence;
    assert t[..|t| - 3] == body + ['\n'];
    StripTrailingSpace(body, '\n');
  }

  /** The usual fenced reply: an opening "```json" line, the body, a closing "```" line. */
  lemma FencedJsonUnwrapped(body: string)
    requires Trimmed(body) && body != [] && !(Fence <= body)
    ensures StripFences(JsonFence + ['\n'] + body + ['\n'] + Fence) == body
  {
    var rest := ['\n'] + Fence;
    var inner := body + rest;
    FencedShape(body, rest, inner);
    JsonLineDropped(inner);
    BodyKeepsOpening(body, rest);
    ClosingLineDropped(body);
  }

  /** The fenced reply regrouped as the "```json" line followed by the body with its closing line. */
  lemma FencedShape(body: string, rest: string, inner: string)
    requires body != [] && rest == ['\n'] + Fence && inner == body + rest
    ensures JsonFence + ['\n'] + body + ['\n'] + Fence == JsonFence + ['\n'] + inner
    ensures inner == body + ['\n'] + Fence
    ensures Trimmed(body) ==> Trimmed(inner) && inner != []
  {
    assert inner[|inner| - 1] == '`';
  }

  /**
   * Each marker is removed at most once: "```json", any whitespace, then "```"
   * loses its "```json", then its remaining "```" as an opening fence, and
   * nothing is left.
   */
  lemma EmptyFencedReply(ws: string)
    requires forall i | 0 <= i < |ws| :: IsSpace(ws[i])
    ensures StripFences(JsonFence + ws + Fence) == ""
  {
    JsonThenSpaceThenFence(ws);
    FenceAlone(Fence);
  }

  lemma JsonThenSpaceThenFence(ws: string)
    requires forall i | 0 <= i < |ws| :: IsSpace(ws[i])
    ensures DropJsonFence(Strip(JsonFence + ws + Fence)) == Fence
  {
    MarkerSpaceTrimmed(JsonFence, ws, Fence);
  }

  /**
   * A marker, whitespace, then a trimmed text: stripping the whole keeps it,
   * and stripping what follows the marker gives back the text.
   */
  lemma MarkerSpaceTrimmed(marker: string, ws: string, rest: string)
    requires marker != [] && !IsSpace(marker[0]) && Trimmed(rest) && rest != []
    requires forall i | 0 <= i < |ws| :: IsSpace(ws[i])
    ensures var t := marker + ws + rest; Strip(t) == t && marker <= t && Strip(t[|marker|..]) == rest
  {
    var t := marker + ws + rest;
    assert t[0] == marker[0] && t[|t| - 1] == rest[|rest| - 1];
    StripTrimmed(t);
    assert t[..|marker|] == marker;
    assert t[|marker|..] == ws + rest;
    StripStartRun(ws, rest);
    StripTrimmed(rest);
  }

  /** A run of whitespace in front is skipped by left stripping. */
  lemma {:induction false} StripStartRun(ws: string, t: string)
    requires forall i | 0 <= i < |ws| :: IsSpace(ws[i])
    ensures StripStart(ws + t) == StripStart(t)
  {
    if ws == [] {
      assert ws + t == t;
    } else {
      assert (ws + t)[0] == ws[0];
      assert (ws + t)[1..] == ws[1..] + t;
      StripStartRun(ws[1..], t);
    }
  }

  lemma FenceAlone(t: string)
    requires t == Fence
    ensures DropClosingFence(DropOpeningFence(t)) == ""
  {
    assert t[|Fence|..] == [];
  }

  /** `{"error": ..., "raw": response.text}`: the record returned when the text does not parse. */
  function ErrorRecord(raw: string): (j: Json)
    ensures Get(j, "error") == Some(JStr(ParseErrorMessage)) && Get(j, "raw") == Some(JStr(raw))
  {
    JObj(map["error" := JStr(ParseErrorMessage), "raw" := JStr(raw)])
  }

  /** The value returned for a reply text: what json.loads made of the unfenced text, or the error record. */
  function ParseReport(raw: string, parse: string -> Option<Json>): (r: Json)
    ensures parse(StripFences(raw)).Some? ==> r == parse(StripFences(raw)).value
    ensures parse(StripFences(raw)).None? ==> r == ErrorRecord(raw)
  {
    match parse(StripFences(raw))
    case Some(report) => report
    case None => ErrorRecord(raw)
  }

  /** What the model call produced: an exception, or a response whose `text` may be None. */
  datatype ClientOutcome = ClientRaised(message: string) | Responded(text: Option<string>)

  datatype GeminiError =
    | MissingApiKey            // ValueError, raised before any client is created
    | Raised(message: string)  // an exception from the client or the response, re-raised

  /** Whether the key passes `if not api_key`. */
  predicate KeyPresent(apiKey: Option<string>) {
    apiKey.Some? && apiKey.value != ""
  }

  /**
   * What Python raises for a reply whose `text` is None: the log line slices
   * `getattr(response, 'text', ...)` before `.strip()` is reached.
   */
  const NoTextMessage := "'NoneType' object is not subscriptable"

  /** generate_gemini_report, once the prompt is built. */
  function GenerateGeminiReport(apiKey: Option<string>, client: ClientOutcome, parse: string -> Option<Json>)
    : (r: Result<Json, GeminiError>)
    ensures !KeyPresent(apiKey) ==> r == Err(MissingApiKey)
    ensures KeyPresent(apiKey) && client.ClientRaised? ==> r == Err(Raised(client.message))
    ensures KeyPresent(apiKey) && client.Responded? && client.text.None? ==>
              r == Err(Raised(NoTextMessage))
    ensures KeyPresent(apiKey) && client.Responded? && client.text.Some? ==>
              r == Ok(ParseReport(client.text.value, parse))
  {
    if !KeyPresent(apiKey) then Err(MissingApiKey)
    else match client
      case ClientRaised(message) => Err(Raised(message))
      case Responded(None) => Err(Raised(NoTextMessage))
      case Responded(Some(text)) => Ok(ParseReport(text, parse))
  }

  /** A parse failure never loses the reply: the error record holds the text exactly as received. */
  lemma ParseFailureKeepsRaw(apiKey: Option<string>, text: string, parse: string -> Option<Json>)
    requires KeyPresent(apiKey) && parse(StripFences(text)).None?
    ensures GenerateGeminiReport(apiKey, Responded(Some(text)), parse).Ok?
    ensures Get(GenerateGeminiReport(apiKey, Responded(Some(text)), parse).value, "raw") == Some(JStr(text))
  {
  }

  /** A fenced reply whose body parses yields exactly the parsed body. */
  lemma FencedReplyParsed(apiKey: Option<string>, body: string, parse: string -> Option<Json>)
    requires KeyPresent(apiKey) && Trimmed(body) && body != [] && !(Fence <= body)
    requires parse(body).Some?
    ensures GenerateGeminiReport(apiKey, Responded(Some(JsonFence + ['\n'] + body + ['\n'] + Fence)), parse)
            == Ok(parse(body).value)
  {
    FencedJsonUnwrapped(body);
  }
}
