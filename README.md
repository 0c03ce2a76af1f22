# agent911 — a verified model of the call-handling logic

agent911 is a 911-operator assistant. A Next.js front end records the caller's audio and sends it to a Django back end. The back end has it transcribed by a speech-to-text service and stores the transcripts. An operator dashboard summarises the calls. A language model turns a call into a structured incident report, and a button files a patient record with a hospital registry from that report.

This project models the sequential logic inside those pieces and proves what each promises:

- **Recording page** (`ConversationRoomPage`, imperative class). The `recording` flag, the chunk buffer and the recorder's events. One transcription request is issued per stop, and the shown transcript is replaced by the reply. Also the transcript list items and the alternation of the two buttons.
- **Real-time channel** (`CallChannel.CallWebSocket`, imperative class). The socket URL, the ordered listener list, dispatch of one parsed message to the listeners in order, up to the first that throws, guarded sending, and close.
- **REST client** (`ApiService`). Endpoint URLs, the upload form, and how `transcribeCall` turns a reply into a returned body or a thrown error.
- **Back-end call views** (`CallViews.CallViewSet`, a class over the two tables). The call list ordered by start time, a call's transcripts ordered by timestamp, and `transcribe`: 404 / 400 / one stored record / 500 with the table unchanged.
- **Patient creation** (`CreatePatient`). Next patient id `PAT-911-NNN`, hospital and last-patient selection, report fallbacks, and the button's `loading`/`result` state.
- **Dashboard** (`Dashboard`, pure). The completed-call filter, the rounded average, `m:ss` formatting with its round trip, and the summary lines.
- **Report generation** (`GeminiService`). The API-key guard, removal of Markdown fences with re-stripping, and the error record on a parse failure.

Shared modules:
- `Wrappers`: Option and Result.
- `Values`: bytes and parsed JSON, with JavaScript truthiness.
- `Decimal`: `String(n)`, `Number(digits)` and `padStart`, with their round trip.

All network peers are parameters holding the outcome they delivered:
- axios calls to the back end and to the hospital registry;
- the speech-to-text POST;
- the language-model client;
- the microphone and MediaRecorder, and the browser WebSocket.

`JSON.parse` and `json.loads` are a `parse` parameter that may fail.

## Model

| member | source | states |
|---|---|---|
| ConversationRoom.ConversationRoomPage.constructor | agent911-fe/src/app/ConversationRoomPage.tsx:21-25 | The page starts not recording, with an empty transcript, no recorder, an empty buffer and no request sent. |
| ConversationRoom.ConversationRoomPage.StartRecording | agent911-fe/src/app/ConversationRoomPage.tsx:27-42 | Start, allowed only while no recorder is capturing (the button is disabled while recording), empties the chunk buffer, sets `recording` and a capturing recorder, and sends nothing. |
| ConversationRoom.ConversationRoomPage.OnDataAvailable | agent911-fe/src/app/ConversationRoomPage.tsx:31-33 | A chunk of positive size is appended at the end of the buffer; an empty chunk leaves it unchanged; no request is sent. |
| ConversationRoom.NonEmptySnoc | agent911-fe/src/app/ConversationRoomPage.tsx:31-33 | The buffer after one more delivery is the buffer before it, plus the chunk exactly when the chunk is non-empty. |
| ConversationRoom.NonEmpty | agent911-fe/src/app/ConversationRoomPage.tsx:32 | The kept chunks are all non-empty and never more than were delivered. |
| ConversationRoom.ConcatNonEmpty | agent911-fe/src/app/ConversationRoomPage.tsx:32-35 | Dropping empty chunks never changes the assembled audio: the blob equals the in-order concatenation of everything delivered. |
| ConversationRoom.ConcatAppend | agent911-fe/src/app/ConversationRoomPage.tsx:35 | `new Blob(chunks)` lays the chunks end to end in order: the blob of a ++ b is the blob of a followed by the blob of b. |
| ConversationRoom.ConcatSingle | agent911-fe/src/app/ConversationRoomPage.tsx:35 | A blob of one chunk holds exactly that chunk's bytes. |
| ConversationRoom.ConversationRoomPage.StopRecording | agent911-fe/src/app/ConversationRoomPage.tsx:44-48 | Stop clears `recording`. A capturing recorder starts stopping; with no recorder nothing else changes. No request is sent. |
| ConversationRoom.ConversationRoomPage.OnStop | agent911-fe/src/app/ConversationRoomPage.tsx:34-37 | The stop event sends exactly one request for this call. It holds one `file` field, `recording.webm` of type `audio/webm`, whose bytes are all delivered chunks in order. |
| ConversationRoom.ConversationRoomPage.OnTranscribeResult | agent911-fe/src/app/ConversationRoomPage.tsx:37-38 | When the request settles, the transcript becomes what the reply determines, and nothing else changes. |
| ConversationRoom.RecordSegment | agent911-fe/src/app/ConversationRoomPage.tsx:27-48 | For one whole segment (start, chunks, stop, stop event, reply): exactly one request is appended, carrying the concatenation of that segment's chunks, and the transcript is set from the reply. |
| ConversationRoom.FeedChunks | agent911-fe/src/app/ConversationRoomPage.tsx:31-33 | While capturing, a run of data events leaves the recorder's delivered chunks equal to the run, and sends nothing. |
| ConversationRoom.ResultText | agent911-fe/src/app/ConversationRoomPage.tsx:38 | `result.text || ''`: a string `text` field becomes the new transcript exactly, the empty string included. Any other reply gives the empty string. |
| ConversationRoom.TranscriptAfter | agent911-fe/src/app/ConversationRoomPage.tsx:37-38 | A returned reply decides the new transcript; a thrown error leaves the old one. |
| ConversationRoom.TranscriptReplaced | agent911-fe/src/app/ConversationRoomPage.tsx:38 | The new transcript does not depend on the old one: results replace, never append. |
| ConversationRoom.ErrorBodyClearsTranscript | agent911-fe/src/app/ConversationRoomPage.tsx:37-38 | A 4xx reply other than 404 carrying `{error: ...}` is returned by transcribeCall, so the shown transcript becomes empty. |
| ConversationRoom.ServerErrorKeepsTranscript | agent911-fe/src/app/ConversationRoomPage.tsx:37-38 | A 5xx reply is thrown, so the shown transcript is kept. |
| ConversationRoom.DisplayedTranscript | agent911-fe/src/app/ConversationRoomPage.tsx:60 | The page shows the transcript when it is non-empty and "No transcript yet." otherwise; it never shows nothing. |
| ConversationRoom.Item | agent911-fe/src/app/ConversationRoomPage.tsx:11-14 | An item shows "timestamp: " and the text, and carries " (final)" exactly when the record is final. |
| ConversationRoom.TranscriptItems | agent911-fe/src/app/ConversationRoomPage.tsx:10-16 | The list has one item per record, the i-th for the i-th record. |
| ConversationRoom.TranscriptItemsAppend | agent911-fe/src/app/ConversationRoomPage.tsx:10-16 | Rendering records a ++ b gives the items of a followed by those of b. |
| ConversationRoom.ClicksAlternate | agent911-fe/src/app/ConversationRoomPage.tsx:53-56 | With Start disabled while recording and Stop disabled while idle, any run of clicks the buttons accept alternates start and stop. |
| CallChannel.SocketUrl | agent911-fe/src/app/wsService.ts:6 | The socket URL lies under `ws://localhost:8000/ws/calls/` and ends with `/`. |
| CallChannel.SocketUrlInjective | agent911-fe/src/app/wsService.ts:6 | Distinct call ids give distinct socket URLs. |
| CallChannel.CallWebSocket.constructor | agent911-fe/src/app/wsService.ts:2-11 | A new channel has a fresh connecting socket at the call's URL, nothing sent, and an empty listener list. |
| CallChannel.Deliveries | agent911-fe/src/app/wsService.ts:9 | Dispatch invokes each listener once, in registration order, with the same value. |
| CallChannel.FirstThrow | agent911-fe/src/app/wsService.ts:9 | The position of the first listener that throws on a message: every listener before it returns normally, and the one there throws, unless it is the end of the list. |
| CallChannel.Reached | agent911-fe/src/app/wsService.ts:9 | The number of listeners `forEach` calls before an exception ends it: every listener before the last one reached returns normally, and when the list is not exhausted the last one reached threw. |
| CallChannel.NoThrowReachesAll | agent911-fe/src/app/wsService.ts:9 | When no listener throws, every listener receives the message. |
| CallChannel.ThrowStopsDispatch | agent911-fe/src/app/wsService.ts:9 | `forEach` stops at a listener that throws, so the listeners after it miss that message. |
| CallChannel.CallWebSocket.OnMessage | agent911-fe/src/app/wsService.ts:7-10 | A message is parsed once. Its value goes to the listeners in registration order, up to and including the first that throws. Text that does not parse reaches no listener. |
| CallChannel.CallWebSocket.SendAudioChunk | agent911-fe/src/app/wsService.ts:13-17 | The chunk is transmitted only by an existing socket that is OPEN. In any other state it is dropped without error and nothing changes. |
| CallChannel.CallWebSocket.OnTranscript | agent911-fe/src/app/wsService.ts:19-21 | The callback goes to the end of the list; earlier listeners keep their places. |
| CallChannel.CallWebSocket.Close | agent911-fe/src/app/wsService.ts:23-25 | An existing socket that is connecting or open starts closing. The field and the listeners are kept. |
| CallChannel.CloseThenSend | agent911-fe/src/app/wsService.ts:13-25 | After close, a chunk sent on the same channel is never transmitted. |
| ApiService.CallsUrl | agent911-fe/src/app/apiService.ts:3-11 | The collection URL used by createCall and listCalls strictly extends `API_BASE` and ends with `/`. |
| ApiService.TranscriptsUrl | agent911-fe/src/app/apiService.ts:15-16 | The transcripts URL lies under `API_BASE/calls/` and ends in `/transcripts/`. |
| ApiService.TranscribeUrl | agent911-fe/src/app/apiService.ts:31 | The transcribe URL lies under `API_BASE/calls/` and ends in `/transcribe/`. |
| ApiService.EndpointsShareCollection | agent911-fe/src/app/apiService.ts:3-18 | Every call-scoped URL strictly extends the calls collection URL used by createCall and listCalls. |
| ApiService.TranscribeUrlInjective | agent911-fe/src/app/apiService.ts:31 | Different calls post to different transcribe URLs. |
| ApiService.TranscriptsAndTranscribeDiffer | agent911-fe/src/app/apiService.ts:16 | No transcripts URL equals any transcribe URL. |
| ApiService.TranscribeCallRequest | agent911-fe/src/app/apiService.ts:20-33 | The request goes to the call's transcribe URL with exactly one form field, `file`, holding the audio file. |
| ApiService.CreateCallBody | agent911-fe/src/app/apiService.ts:5-6 | createCall sends `caller_info`, defaulting to the empty string. |
| ApiService.TranscribeOutcome | agent911-fe/src/app/apiService.ts:20-52 | Statuses of 500 or more are rethrown; 404 throws "endpoint not found"; a falsy body throws "no data". The body is returned, unchanged, exactly when the status is below 500, is not 404, and the body is truthy. |
| CallViews.CallViewSet.constructor | agent911_be/api/views.py:11-13 | The view set starts over the given calls, with an empty transcript table. |
| CallViews.CallViewSet.Queryset | agent911_be/api/views.py:12 | The call list holds exactly the stored calls, latest start time first. |
| CallViews.Insert | agent911_be/api/views.py:18 | Inserting one element yields one element more. |
| CallViews.SortBy | agent911_be/api/views.py:12-18 | The ordering returns as many elements as it was given. |
| CallViews.InsertPermutes | agent911_be/api/views.py:18 | Insertion adds the element and loses nothing. |
| CallViews.InsertSorted | agent911_be/api/views.py:18 | Insertion into a sorted sequence keeps it sorted. |
| CallViews.SortByCorrect | agent911_be/api/views.py:18 | The ordering is sorted by its key and is a permutation of its input. |
| CallViews.OfCall | agent911_be/api/views.py:18 | A call's records are exactly the table's records of that call, each as often as in the table. |
| CallViews.FindCall | agent911_be/api/views.py:17 | `get_object` finds a stored call with that id, or there is none. |
| CallViews.CallViewSet.Transcripts | agent911_be/api/views.py:16-20 | An unknown call gives no listing. Otherwise the listing holds exactly that call's records, in non-decreasing timestamp order. |
| CallViews.TranscriptsShareStartTime | agent911_be/api/views.py:18 | Every record a call's listing holds carries that call's start time. So `order_by('timestamp')` compares equal keys only, and the listing's order is whatever the database picks. |
| CallViews.ErrorResponse | agent911_be/api/views.py:27 | An error response has the given status and `{error: message}`. |
| CallViews.SttText | agent911_be/api/views.py:43-49 | Transport failures and 4xx/5xx statuses raise. The text is obtained exactly when the reply is a JSON object whose `text` is absent (giving "") or a string (giving that string). |
| CallViews.TranscriptBody | agent911_be/api/views.py:52-56 | The success body echoes the stored record's timestamp, text and `is_final`. |
| CallViews.CallViewSet.Transcribe | agent911_be/api/views.py:23-58 | Unknown call: 404, nothing sent. No file: 400 "No audio file provided.", nothing sent. Otherwise the audio is sent with model `ink-whisper` and language `en`. On success exactly one final record is appended, stamped with the call's start time, and the id counter moves on by one. On failure the answer is 500 with the error text and the table is unchanged. |
| CreatePatient.FirstMatch | agent911-fe/src/app/CreatePatientButton.tsx:36 | The unanchored pattern's match is the leftmost position where `PAT-911-` and a digit occur, and there is none exactly when no position matches. |
| CreatePatient.DigitRun | agent911-fe/src/app/CreatePatientButton.tsx:36 | The greedy `\d+` takes a run of digits that is not followed by another digit. |
| CreatePatient.CapturedDigits | agent911-fe/src/app/CreatePatientButton.tsx:36 | A captured group is a non-empty run of digits. |
| CreatePatient.NextPatientId | agent911-fe/src/app/CreatePatientButton.tsx:34-42 | A next id always starts with `PAT-911-`. A null or empty previous id gives `PAT-911-001`, and any other result needs a captured number in the previous id. |
| CreatePatient.FirstMatchIs | agent911-fe/src/app/CreatePatientButton.tsx:36 | The regular expression's match is the leftmost position where `PAT-911-` is followed by a digit. |
| CreatePatient.NextPatientIdOfMatch | agent911-fe/src/app/CreatePatientButton.tsx:34-42 | With the leftmost match at i, the next id is the formatted value of the digit run after the prefix at i, plus one. |
| CreatePatient.CapturedIffMatch | agent911-fe/src/app/CreatePatientButton.tsx:36-37 | A number is captured exactly when the previous id contains `PAT-911-` followed by a digit somewhere. |
| CreatePatient.FormatPatientId | agent911-fe/src/app/CreatePatientButton.tsx:38-39 | A generated id starts with `PAT-911-` and has at least three characters after it. |
| CreatePatient.PaddedValue | agent911-fe/src/app/CreatePatientButton.tsx:38 | The zero-padded number is all digits and reads back as the number. |
| CreatePatient.FormatPatientIdWellFormed | agent911-fe/src/app/CreatePatientButton.tsx:38-39 | For a positive number, the id is the prefix followed by at least three digits worth that number. |
| CreatePatient.NoLastIdStartsAtOne | agent911-fe/src/app/CreatePatientButton.tsx:35 | A null or empty previous id gives `PAT-911-001`. |
| CreatePatient.NextPatientIdWellFormed | agent911-fe/src/app/CreatePatientButton.tsx:34-42 | Whatever the previous id, the result is the prefix followed by at least three digits worth at least one. |
| CreatePatient.CapturedAfterPrefix | agent911-fe/src/app/CreatePatientButton.tsx:36 | For the prefix followed by digits only, the pattern captures all of the digits. |
| CreatePatient.CapturedFromFormatted | agent911-fe/src/app/CreatePatientButton.tsx:36-38 | The pattern captures exactly the padded digits of a generated id. |
| CreatePatient.NextPatientIdAdvances | agent911-fe/src/app/CreatePatientButton.tsx:34-42 | A generated id for n is followed by the generated id for n + 1. |
| CreatePatient.LeadingZerosInIdIgnored | agent911-fe/src/app/CreatePatientButton.tsx:38 | Zeros in front of the previous number are ignored, so `PAT-911-007` is followed by `PAT-911-008`. |
| CreatePatient.FormatWide | agent911-fe/src/app/CreatePatientButton.tsx:38 | Padding never truncates: a number of three or more digits is written as it is, so 999 is followed by `PAT-911-1000`. |
| CreatePatient.FormatOneDigit | agent911-fe/src/app/CreatePatientButton.tsx:38 | A one-digit number is padded with two zeros. |
| CreatePatient.NoMatchStartsAtOne | agent911-fe/src/app/CreatePatientButton.tsx:41 | A previous id with no match anywhere gives `PAT-911-001`. |
| CreatePatient.BarePrefixStartsAtOne | agent911-fe/src/app/CreatePatientButton.tsx:36-41 | `PAT-911-` with no digits after it gives `PAT-911-001`. |
| CreatePatient.FirstHospitalId | agent911-fe/src/app/CreatePatientButton.tsx:6-18 | The first hospital of a successful non-empty list; "DEFAULT" otherwise, including when the request failed. |
| CreatePatient.LastPatientId | agent911-fe/src/app/CreatePatientButton.tsx:20-32 | The last patient of a successful non-empty list; null otherwise, including when the request failed. |
| CreatePatient.PatientsUrl | agent911-fe/src/app/CreatePatientButton.tsx:22 | A hospital's patients URL is the hospitals URL, `/`, the hospital id, then `/patients`; the id can be read back out of it. |
| CreatePatient.PatientsUrlInjective | agent911-fe/src/app/CreatePatientButton.tsx:22 | Different hospitals are reached at different patients URLs. |
| CreatePatient.SuccessiveCreatesCount | agent911-fe/src/app/CreatePatientButton.tsx:24-39 | Once the patient created with a generated id is the hospital's last patient, the next creation takes the following number. |
| CreatePatient.ReportField | agent911-fe/src/app/CreatePatientButton.tsx:57 | `report?.key` is undefined without a report object holding the key, and is that key's value when there is one. |
| CreatePatient.BuildPatientData | agent911-fe/src/app/CreatePatientButton.tsx:55-77 | The record carries the given id. Name, address, admission reason and diagnosis fall back on falsy report fields. Status is `admitted`, priority `urgent`, and the contact relationship `caller`. |
| CreatePatient.NonObjectReportFallsBack | agent911-fe/src/app/CreatePatientButton.tsx:57-67 | A missing report, or one that is not an object, yields the fallback name, address and admission reason. |
| CreatePatient.ResultMessage | agent911-fe/src/app/CreatePatientButton.tsx:84-91 | The message reports the admitted id, the registry's error, or the thrown error's message. |
| CreatePatient.CreatePatientButton.constructor | agent911-fe/src/app/CreatePatientButton.tsx:45-46 | The button starts not loading, with no message. |
| CreatePatient.CreatePatientButton.BeginCreate | agent911-fe/src/app/CreatePatientButton.tsx:49-50 | A click sets loading and clears the old message. |
| CreatePatient.CreatePatientButton.CompleteCreate | agent911-fe/src/app/CreatePatientButton.tsx:51-92 | The patients are requested at the chosen hospital's URL, and the record is posted to that same URL. The record's id is the next after the last patient listed there, and it is well formed. Loading ends with the result message. |
| Decimal.NatToDecimal | agent911-fe/src/app/CreatePatientButton.tsx:38 | `String(n)` is a non-empty digit string without a leading zero, one character long exactly when n < 10. |
| Decimal.DecimalValue | agent911-fe/src/app/CreatePatientButton.tsx:38 | `Number(digits)` of a single digit is that digit's value (with DecimalRoundTrip and LeadingZerosIgnored, which state the rest). |
| Decimal.DecimalRoundTrip | agent911-fe/src/app/CreatePatientButton.tsx:38 | `Number(String(n)) == n`. |
| Decimal.NatToDecimalInjective | agent911-fe/src/app/CreatePatientButton.tsx:38 | Different numbers are written differently. |
| Decimal.LeadingZerosIgnored | agent911-fe/src/app/CreatePatientButton.tsx:38 | Zeros written in front of digits keep them digits and do not change their value. |
| Decimal.PadStart | agent911-fe/src/app/CreatePatientButton.tsx:38 | `padStart` keeps the text as its suffix, fills only in front, and never shortens. |
| Dashboard.CompletedCalls | agent911-fe/src/app/DashboardPage.tsx:19 | The filter keeps exactly the calls with a truthy start and end time. |
| Dashboard.SumElapsed | agent911-fe/src/app/DashboardPage.tsx:22-26 | The `reduce` over one call is that call's duration. |
| Dashboard.SumElapsedAppend | agent911-fe/src/app/DashboardPage.tsx:22-26 | The sum over two runs of calls is the sum of their sums, so the order of reduction does not matter for a split. |
| Dashboard.Minutes | agent911-fe/src/app/DashboardPage.tsx:32 | `Math.floor(sec / 60)` is the m with 60m <= sec < 60m + 60, for negative durations too. |
| Dashboard.CompletedCallsCounts | agent911-fe/src/app/DashboardPage.tsx:19 | The filter keeps each completed call exactly as often as the list holds it, and nothing else. |
| Dashboard.CompletedCallsAppend | agent911-fe/src/app/DashboardPage.tsx:19 | The filter keeps the calls' order. |
| Dashboard.Seconds | agent911-fe/src/app/DashboardPage.tsx:33 | `sec % 60` lies in [0, 60) for non-negative durations. For a negative one it is JavaScript's truncated remainder `-((-sec) % 60)`, in (-60, 0]. |
| Dashboard.FormatDuration | agent911-fe/src/app/DashboardPage.tsx:31-35 | For sec >= 0 the text is the minutes, a colon, and the remaining seconds padded to two characters. |
| Dashboard.SecondsPartTwoChars | agent911-fe/src/app/DashboardPage.tsx:34 | The seconds part is always exactly two digits worth `sec % 60`. |
| Dashboard.FormatDurationRoundTrip | agent911-fe/src/app/DashboardPage.tsx:31-35 | Reading minutes and seconds back from the text gives `m * 60 + s == sec`. |
| Dashboard.OneHour | agent911-fe/src/app/DashboardPage.tsx:32-34 | Minutes are neither padded nor capped: 3600 seconds is `60:00`. |
| Dashboard.RoundDiv | agent911-fe/src/app/DashboardPage.tsx:21 | `Math.round(num / den)` is the nearest integer, halves rounded up. |
| Dashboard.AverageDurationSec | agent911-fe/src/app/DashboardPage.tsx:20-28 | With no completed call the average is 0. Otherwise it is the completed calls' mean duration in seconds, rounded to the nearest integer. |
| Dashboard.DashboardSummary | agent911-fe/src/app/DashboardPage.tsx:59-64 | "Total Calls" is the list's length. The average reads "N/A" exactly when no call is completed, and otherwise is the formatted average. |
| Dashboard.CardDuration | agent911-fe/src/app/DashboardPage.tsx:83-87 | A card shows a duration line exactly when `end_time` is truthy. With a truthy or null `start_time` it is the rounded elapsed seconds, formatted; a null date counts as time 0. With an absent or empty `start_time` it is `NaN:NaN`. |
| Dashboard.BackendCallsShowNoAverage | agent911-fe/src/app/DashboardPage.tsx:19-28 | Calls without an end time, as the back end serves them, are never completed, so the average reads "N/A". |
| GeminiService.StripStart | agent911_be/api/gemini_service.py:54 | Left stripping gives a suffix that does not start with whitespace. |
| GeminiService.StripStartDropsSpace | agent911_be/api/gemini_service.py:54 | Only whitespace is removed from the front. |
| GeminiService.StripEnd | agent911_be/api/gemini_service.py:54 | Right stripping gives a prefix that does not end with whitespace. |
| GeminiService.StripEndDropsSpace | agent911_be/api/gemini_service.py:54 | Only whitespace is removed from the back. |
| GeminiService.Strip | agent911_be/api/gemini_service.py:54 | `strip()` leaves no whitespace at either end. |
| GeminiService.DropJsonFence | agent911_be/api/gemini_service.py:55-56 | Removing a leading "```json" and re-stripping keeps the text trimmed. |
| GeminiService.DropOpeningFence | agent911_be/api/gemini_service.py:57-58 | Removing a leading "```" and re-stripping keeps the text trimmed. |
| GeminiService.DropClosingFence | agent911_be/api/gemini_service.py:59-60 | Removing a trailing "```" and re-stripping keeps the text trimmed. |
| GeminiService.StripFences | agent911_be/api/gemini_service.py:54-60 | The text handed to the parser never has surrounding whitespace, whatever the reply. |
| GeminiService.StripFencesSlice | agent911_be/api/gemini_service.py:54-60 | The text handed to the parser is a contiguous piece of the reply, so never longer than it. |
| GeminiService.UnfencedOnlyStripped | agent911_be/api/gemini_service.py:54-60 | A reply that, once stripped, neither starts nor ends with "```" is only stripped. |
| GeminiService.NoFenceUnchanged | agent911_be/api/gemini_service.py:55-60 | Text that neither starts nor ends with "```" passes the three removals unchanged. |
| GeminiService.FencedJsonUnwrapped | agent911_be/api/gemini_service.py:54-60 | A reply made of a "```json" line, a trimmed body and a "```" line yields exactly the body. |
| GeminiService.EmptyFencedReply | agent911_be/api/gemini_service.py:55-60 | Each marker is removed at most once: "```json", any whitespace, then "```" yields the empty text. |
| GeminiService.ErrorRecord | agent911_be/api/gemini_service.py:67 | The error record holds the fixed message and the raw reply. |
| GeminiService.ParseReport | agent911_be/api/gemini_service.py:62-67 | A parse of the unfenced text is returned; a failed parse gives the error record for the reply. |
| GeminiService.GenerateGeminiReport | agent911_be/api/gemini_service.py:38-70 | A missing or empty key raises before any client call. A client exception is re-raised. A reply without text raises the TypeError from slicing `None` at line 52. Otherwise the parsed report or the error record is returned. |
| GeminiService.ParseFailureKeepsRaw | agent911_be/api/gemini_service.py:62-67 | On a parse failure the result is still returned, and its `raw` field is the reply exactly as received, before stripping. |
| GeminiService.FencedReplyParsed | agent911_be/api/gemini_service.py:54-64 | A fenced reply whose body parses yields exactly the parsed body. |

## Left out

- Rendering (JSX, MUI layout), Next.js routing and `router.push`, and console or print logging.
- Network peers are parameters holding the outcome they delivered; their protocols, headers and timing are not modelled. This covers axios, the hospital registry, the speech-to-text POST and the language-model client.
- `JSON.parse` and `json.loads` are a `parse` parameter that returns a value or fails. `FormData`, `Blob` and `File` are reduced to their fields and bytes.
- MediaRecorder and the microphone are reduced to their events. `ConversationRoom.ConversationRoomPage.StartRecording` treats the awaited `getUserMedia` as granted, so a click that arrives while the permission is pending is not modelled.
- ConversationRoom.ConversationRoomPage.StartRecording: requires the previous recorder to be absent or inactive, since the Start button is disabled while recording. A new segment started after `stop()` but before the old recorder's stop event arrives would share the chunk buffer; that interleaving is not modelled.
- ConversationRoom.ResultText: a numeric `text` would be shown by the page as a number; the model shows the empty string instead. (React shows `true` as nothing and throws on an object.)
- CallViews.SttText: a non-string `text` in the speech-to-text reply is treated as a failure (500); Django would store its string form. The exception texts behind `str(e)` are stand-ins, not the libraries' exact wording.
- CallViews.CallViewSet.Transcribe: stores the call's start time as views.py asks. agent911_be/api/models.py:9 declares the field with `auto_now_add`, under which Django stores the save time instead; the clock is not modelled.
- CallViews.TranscriptBody: the timestamp is echoed as a number, not as ISO 8601 text.
- CallViews.SortBy: ties keep table order. The database promises no order among equal keys, so CallViewSet.Queryset and CallViewSet.Transcripts state only sortedness and exact contents.
- Calls and timestamps are plain integers; database ids are given, not allocated by the database.
- Dashboard: `new Date(...)` parsing is left out; each call carries its elapsed milliseconds. The floating-point mean and `Math.round` are computed exactly on rationals.
- Dashboard.CardDuration: a non-empty date text is taken to parse; an unparsable one, which would also print `NaN:NaN`, is not modelled.
- CreatePatient: the counter is an unbounded natural number; JavaScript's loss of precision above 2^53 is not modelled. `incident_report` keeps the report value instead of its `JSON.stringify` text. The empty `medical_history`, `allergies` and `medications` lists are not fields of the model.
- GeminiService: the prompt text and the `call_metadata` lookups only build the prompt and are left out. A reply without text raises at gemini_service.py:52, where the log line slices `None`; the model carries Python's message for that TypeError.
- CallChannel: the browser WebSocket is a small `Socket` class whose state changes only by the client's calls and the open and close events. The `CallConsumer` on the server side is not part of this model.
- agent911_be/agent911_be/asgi.py and agent911_be/api/urls.py (routing), and agent911_be/api/serializers.py (used only for record shapes).
