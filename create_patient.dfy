/**
 * The "create patient" button (CreatePatientButton.tsx): pick the first
 * hospital, read the id of its last patient, derive the next patient id
 * `PAT-911-NNN`, build the patient record from the incident report with
 * fallbacks, and post it. The hospital registry is reached through outcomes
 * handed in by the caller.
 */
module CreatePatient {
  import opened Wrappers
  import opened Values
  import opened Decimal

  const IdPrefix := "PAT-911-"
  const FirstPatientId := "PAT-911-001"
  const DefaultHospitalId := "DEFAULT"

  // ----- the next patient id -----

  /** The regular expression /PAT-911-(\d+)/ matches at position `i`. */
  predicate MatchAt(s: string, i: nat) {
    i + |IdPrefix| < |s| && s[i..i + |IdPrefix|] == IdPrefix && IsDigit(s[i + |IdPrefix|])
  }

  /** The leftmost match at or after `from`, as `String.prototype.match` finds it. */
  function FirstMatch(s: string, from: nat): (r: Option<nat>)
    requires from <= |s|
    ensures r.Some? ==> from <= r.value && MatchAt(s, r.value)
    ensures r.Some? ==> forall j | from <= j < r.value :: !MatchAt(s, j)
    ensures r.None? ==> forall j | from <= j <= |s| :: !MatchAt(s, j)
    decreases |s| - from
  {
    if MatchAt(s, from) then Some(from)
    else if from == |s| then None
    else FirstMatch(s, from + 1)
  }

  /** Length of the run of digits starting at `i`: what the greedy `\d+` takes. */
  function DigitRun(s: string, i: nat): (n: nat)
    requires i <= |s|
    ensures i + n <= |s| && AllDigits(s[i..i + n])
    ensures i + n == |s| || !IsDigit(s[i + n])
    decreases |s| - i
  {
    if i < |s| && IsDigit(s[i]) then
      var n := 1 + DigitRun(s, i + 1);
      assert s[i..i + n] == [s[i]] + s[i + 1..i + n];
      n
    else 0
  }

  /** The captured group `match[1]` of the leftmost match, if any. */
  function CapturedDigits(s: string): (r: Option<string>)
    ensures r.Some? ==> |r.value| >= 1 && AllDigits(r.value)
  {
    match FirstMatch(s, 0)
    case None => None
    case Some(i) => Some(s[i + |IdPrefix|..i + |IdPrefix| + DigitRun(s, i + |IdPrefix|)])
  }

  /** `PAT-911-` followed by the number written with at least three digits. */
  function FormatPatientId(n: nat): (id: string)
    ensures IdPrefix <= id && |id| >= |IdPrefix| + 3
  {
    IdPrefix + PadStart(NatToDecimal(n), 3, '0')
  }

  /** getNextPatientId. */
  function NextPatientId(lastId: Option<string>): (id: string)
    ensures IdPrefix <= id
    ensures lastId.None? || lastId.value == "" ==> id == FirstPatientId
    ensures id != FirstPatientId ==> lastId.Some? && CapturedDigits(lastId.value).Some?
  {
    if lastId.None? || lastId.value == "" then FirstPatientId
    else match CapturedDigits(lastId.value)
      case None => FirstPatientId
      case Some(digits) => FormatPatientId(DecimalValue(digits) + 1)
  }

  /** A well-formed generated id: the prefix, then at least three digits worth at least one. */
  predicate WellFormedId(id: string) {
    && IdPrefix <= id
    && |id| >= |IdPrefix| + 3
    && AllDigits(id[|IdPrefix|..])
    && DecimalValue(id[|IdPrefix|..]) >= 1
  }

  /** A padded number reads back as the number. */
  lemma PaddedValue(n: nat)
    ensures AllDigits(PadStart(NatToDecimal(n), 3, '0'))
    ensures DecimalValue(PadStart(NatToDecimal(n), 3, '0')) == n
  {
    var d := NatToDecimal(n);
    DecimalRoundTrip(n);
    if |d| < 3 {
      LeadingZerosIgnored(3 - |d|, d);
    }
  }

  lemma FormatPatientIdWellFormed(n: nat)
    requires n >= 1
    ensures WellFormedId(FormatPatientId(n))
    ensures FormatPatientId(n)[|IdPrefix|..] == PadStart(NatToDecimal(n), 3, '0')
  {
    PaddedValue(n);
    assert FormatPatientId(n)[|IdPrefix|..] == PadStart(NatToDecimal(n), 3, '0');
  }

  /** The empty and the missing id both start the sequence at 001. */
  lemma NoLastIdStartsAtOne()
    ensures NextPatientId(None) == NextPatientId(Some("")) == FirstPatientId
    ensures FirstPatientId == FormatPatientId(1)
  {
    assert NatToDecimal(1) == "1";
  }

  /** Whatever the previous id, the generated id is well formed. */
  lemma NextPatientIdWellFormed(lastId: Option<string>)
    ensures WellFormedId(NextPatientId(lastId))
  {
    NoLastIdStartsAtOne();
    FormatPatientIdWellFormed(1);
    if lastId.Some? && lastId.value != "" {
      var c := CapturedDigits(lastId.value);
      if c.Some? {
        FormatPatientIdWellFormed(DecimalValue(c.value) + 1);
      }
    }
  }

  /** A text that starts with the prefix and a digit matches at its start. */
  lemma MatchesAtStart(s: string)
    requires IdPrefix <= s && |IdPrefix| < |s| && IsDigit(s[|IdPrefix|])
    ensures FirstMatch(s, 0) == Some(0)
  {
    assert s[0..|IdPrefix|] == IdPrefix;
  }

  lemma CapturedAt(s: string, i: nat)
    requires i <= |s| && FirstMatch(s, 0) == Some(i)
    ensures CapturedDigits(s) == Some(s[i + |IdPrefix|..i + |IdPrefix| + DigitRun(s, i + |IdPrefix|)])
  {
  }

  /** A match with none before it is the one `match` finds, wherever it sits in the text. */
  lemma FirstMatchIs(s: string, i: nat)
    requires MatchAt(s, i) && forall j | 0 <= j < i :: !MatchAt(s, j)
    ensures FirstMatch(s, 0) == Some(i)
  {
  }

  /**
   * The pattern is unanchored and `\d+` is greedy: for any previous id whose
   * leftmost match is at `i`, the next id carries the number written by the
   * whole digit run after that prefix, plus one, whatever text surrounds it.
   */
  lemma NextPatientIdOfMatch(s: string, i: nat)
    requires MatchAt(s, i) && forall j | 0 <= j < i :: !MatchAt(s, j)
    ensures var p := i + |IdPrefix|;
      NextPatientId(Some(s)) == FormatPatientId(DecimalValue(s[p..p + DigitRun(s, p)]) + 1)
  {
    FirstMatchIs(s, i);
    CapturedAt(s, i);
  }

  /** A number is captured exactly when the pattern occurs somewhere in the text. */
  lemma CapturedIffMatch(s: string)
    ensures CapturedDigits(s).Some? <==> exists j | 0 <= j <= |s| :: MatchAt(s, j)
  {
    var m := FirstMatch(s, 0);
    if m.Some? {
      assert MatchAt(s, m.value);
    }
  }

  /** The prefix followed by digits only: the pattern captures all of the digits. */
  lemma CapturedAfterPrefix(digits: string)
    requires |digits| >= 1 && AllDigits(digits)
    ensures CapturedDigits(IdPrefix + digits) == Some(digits)
  {
    var id := IdPrefix + digits;
    var p := |IdPrefix|;
    assert id[p..] == digits;
    assert id[p] == digits[0];
    MatchesAtStart(id);
    DigitRunToEnd(id, p);
    CapturedAt(id, 0);
    assert id[p..|id|] == digits;
  }

  /** The digits of a generated id are exactly what the pattern captures from it. */
  lemma CapturedFromFormatted(n: nat)
    ensures CapturedDigits(FormatPatientId(n)) == Some(PadStart(NatToDecimal(n), 3, '0'))
  {
    PaddedValue(n);
    CapturedAfterPrefix(PadStart(NatToDecimal(n), 3, '0'));
  }

  /** An id this generator wrote is read back: the next one carries the following number. */
  lemma NextPatientIdAdvances(n: nat)
    ensures NextPatientId(Some(FormatPatientId(n))) == FormatPatientId(n + 1)
  {
    CapturedFromFormatted(n);
    PaddedValue(n);
  }

  /** Zeros in front of the number in the previous id are ignored: "PAT-911-007" is followed by "PAT-911-008". */
  lemma LeadingZerosInIdIgnored(k: nat, n: nat)
    ensures NextPatientId(Some(IdPrefix + (Repeat('0', k) + NatToDecimal(n)))) == FormatPatientId(n + 1)
  {
    var digits := Repeat('0', k) + NatToDecimal(n);
    LeadingZerosIgnored(k, NatToDecimal(n));
    DecimalRoundTrip(n);
    CapturedAfterPrefix(digits);
  }

  /** A digit run that reaches the end of the text is taken whole. */
  lemma {:induction false} DigitRunToEnd(s: string, i: nat)
    requires i <= |s| && AllDigits(s[i..])
    ensures DigitRun(s, i) == |s| - i
    decreases |s| - i
  {
    if i < |s| {
      assert s[i] == s[i..][0];
      assert s[i + 1..] == s[i..][1..];
      DigitRunToEnd(s, i + 1);
    }
  }

  /** Text without the pattern (including the bare prefix with no digits) starts the sequence over. */
  lemma NoMatchStartsAtOne(lastId: string)
    requires forall j | 0 <= j <= |lastId| :: !MatchAt(lastId, j)
    ensures NextPatientId(Some(lastId)) == FirstPatientId
  {
  }

  /** Padding never truncates: a number of three or more digits is written as it is, so 999 is followed by 1000. */
  lemma FormatWide(n: nat)
    requires n >= 100
    ensures FormatPatientId(n) == IdPrefix + NatToDecimal(n)
  {
    assert NatToDecimal(n) == NatToDecimal(n / 10) + [DigitChar(n % 10)];
    assert n / 10 >= 10;
  }

  /** A one-digit number gets two zeros in front, as in "PAT-911-007". */
  lemma FormatOneDigit(n: nat)
    requires n < 10
    ensures FormatPatientId(n) == IdPrefix + "00" + [DigitChar(n)]
  {
    assert Repeat('0', 2) == "00";
  }

  /** The prefix with no digit after it does not match. */
  lemma BarePrefixStartsAtOne()
    ensures NextPatientId(Some("PAT-911-")) == FirstPatientId
  {
    NoMatchStartsAtOne("PAT-911-");
  }

  // ----- the hospital registry -----

  /** An awaited axios call: the reply body, or the error it threw (caught by the caller). */
  datatype Fetch<T> = Received(body: T) | Failed(message: string)

  const HospitalsUrl := "https://hack.flyingwaffle.ca/api/hospitals"
  const PatientsPath := "/patients"

  /** `.../hospitals/${hospitalId}/patients`: where a hospital's patients are listed and new ones are posted. */
  function PatientsUrl(hospitalId: string): (url: string)
    ensures |url| == |HospitalsUrl| + 1 + |hospitalId| + |PatientsPath|
    ensures url[..|HospitalsUrl| + 1] == HospitalsUrl + "/"
    ensures url[|HospitalsUrl| + 1..|url| - |PatientsPath|] == hospitalId
    ensures url[|url| - |PatientsPath|..] == PatientsPath
  {
    var url := HospitalsUrl + "/" + hospitalId + PatientsPath;
    assert url[|HospitalsUrl| + 1..|url| - |PatientsPath|] == hospitalId;
    url
  }

  /** Different hospitals are reached at different URLs. */
  lemma PatientsUrlInjective(a: string, b: string)
    requires PatientsUrl(a) == PatientsUrl(b)
    ensures a == b
  {
  }

  /** The registry's list replies: `{success, data: [...]}`. */
  datatype ListReply<T> = ListReply(success: bool, data: seq<T>)
  datatype Hospital = Hospital(hospitalId: string)
  datatype Patient = Patient(patientId: string)

  /** getFirstHospitalId: the first hospital of a successful, non-empty list; "DEFAULT" otherwise. */
  function FirstHospitalId(f: Fetch<ListReply<Hospital>>): (id: string)
    ensures f.Received? && f.body.success && |f.body.data| > 0 ==> id == f.body.data[0].hospitalId
    ensures !(f.Received? && f.body.success && |f.body.data| > 0) ==> id == DefaultHospitalId
  {
    match f
    case Received(reply) => if reply.success && |reply.data| > 0 then reply.data[0].hospitalId else DefaultHospitalId
    case Failed(_) => DefaultHospitalId
  }

  /** getLastPatientId: the last patient of a successful, non-empty list; null otherwise. */
  function LastPatientId(f: Fetch<ListReply<Patient>>): (id: Option<string>)
    ensures f.Received? && f.body.success && |f.body.data| > 0 ==>
              id == Some(f.body.data[|f.body.data| - 1].patientId)
    ensures !(f.Received? && f.body.success && |f.body.data| > 0) ==> id == None
  {
    match f
    case Received(reply) => if reply.success && |reply.data| > 0 then Some(reply.data[|reply.data| - 1].patientId) else None
    case Failed(_) => None
  }

  /** Once the patient created with a generated id is the hospital's last one, the next creation takes the following number. */
  lemma SuccessiveCreatesCount(patients: seq<Patient>, n: nat)
    ensures NextPatientId(LastPatientId(Received(ListReply(true, patients + [Patient(FormatPatientId(n))]))))
            == FormatPatientId(n + 1)
  {
    NextPatientIdAdvances(n);
  }

  // ----- the patient record -----

  datatype EmergencyContact = EmergencyContact(name: string, phone: string, relationship: string)

  /** The posted patient. Report-derived fields keep whatever JSON value the report held. */
  datatype PatientData = PatientData(
    patientId: string,
    name: Json,
    age: Json,
    gender: string,
    phone: string,
    address: Json,
    emergencyContact: EmergencyContact,
    admissionReason: Json,
    diagnosis: Json,
    incidentReport: Option<Json>,
    doctorReport: string,
    bedId: string,
    status: string,
    priority: string)

  /** `report?.key`: undefined when there is no report or it is not an object. */
  function ReportField(report: Option<Json>, key: string): (v: Option<Json>)
    ensures v.Some? ==> report.Some? && Get(report.value, key) == v
    ensures report.Some? && report.value.JObj? && key in report.value.fields ==> v == Some(report.value.fields[key])
  {
    if report.None? then None else Get(report.value, key)
  }

  function BuildPatientData(patientId: string, report: Option<Json>, callId: string): (p: PatientData)
    ensures p.patientId == patientId
    ensures p.status == "admitted" && p.priority == "urgent"
    ensures p.emergencyContact.relationship == "caller"
    ensures p.name == OrElse(ReportField(report, "persons_involved"), JStr("Emergency Patient " + callId))
    ensures p.address == OrElse(ReportField(report, "location"), JStr(""))
    ensures p.admissionReason == OrElse(ReportField(report, "nature_of_emergency"), JStr("Emergency call"))
    ensures p.diagnosis == OrElse(ReportField(report, "diagnosis"), JStr(""))
  {
    PatientData(
      patientId,
      OrElse(ReportField(report, "persons_involved"), JStr("Emergency Patient " + callId)),
      JNull,
      "",
      "",
      OrElse(ReportField(report, "location"), JStr("")),
      EmergencyContact("", "", "caller"),
      OrElse(ReportField(report, "nature_of_emergency"), JStr("Emergency call")),
      OrElse(ReportField(report, "diagnosis"), JStr("")),
      report,
      "",
      "",
      "admitted",
      "urgent")
  }

  /** A report that is missing, or a plain string such as "No report available.", yields every fallback. */
  lemma NonObjectReportFallsBack(patientId: string, report: Option<Json>, callId: string)
    requires report.None? || !report.value.JObj?
    ensures BuildPatientData(patientId, report, callId).name == JStr("Emergency Patient " + callId)
    ensures BuildPatientData(patientId, report, callId).address == JStr("")
    ensures BuildPatientData(patientId, report, callId).admissionReason == JStr("Emergency call")
  {
  }

  /** The registry's reply to the POST. Absent fields read as undefined. */
  datatype PostReply = PostReply(success: bool, patientId: Option<string>, error: Option<string>)

  /** A value placed in a template literal: undefined prints as "undefined". */
  function TemplateText(v: Option<string>): string {
    if v.Some? then v.value else "undefined"
  }

  function ResultMessage(post: Fetch<PostReply>): (msg: string)
    ensures post.Received? && post.body.success ==> msg == "Patient admitted: " + TemplateText(post.body.patientId)
    ensures post.Received? && !post.body.success ==> msg == "Error: " + TemplateText(post.body.error)
    ensures post.Failed? ==> msg == "Error: " + post.message
  {
    match post
    case Received(reply) =>
      if reply.success then "Patient admitted: " + TemplateText(reply.patientId)
      else "Error: " + TemplateText(reply.error)
    case Failed(message) => "Error: " + message
  }

  /** The POST of a new patient: the URL it goes to, the hospital that URL names, and the record. */
  datatype PatientPost = PatientPost(url: string, hospitalId: string, patient: PatientData)

  class CreatePatientButton {
    var loading: bool
    var result: Option<string>

    constructor()
      ensures !loading && result == None
    {
      loading := false;
      result := None;
    }

    /** The synchronous start of handleCreatePatient: the button spins and the old message goes. */
    method BeginCreate()
      modifies this
      ensures loading && result == None
    {
      loading := true;
      result := None;
    }

    /**
     * The rest of handleCreatePatient, once the three awaited requests have
     * settled. `hospitals` and `patients` are the outcomes of the two list
     * requests, `post` that of the POST. The patients are requested from the
     * chosen hospital (`listed`), the next id is derived from the last of them,
     * and the record is posted to that same hospital.
     */
    method CompleteCreate(report: Option<Json>, callId: string,
                          hospitals: Fetch<ListReply<Hospital>>,
                          patients: Fetch<ListReply<Patient>>,
                          post: Fetch<PostReply>)
        returns (listed: string, posted: PatientPost)
      requires loading
      modifies this
      ensures posted.hospitalId == FirstHospitalId(hospitals)
      ensures listed == PatientsUrl(posted.hospitalId) && posted.url == listed
      ensures posted.patient == BuildPatientData(NextPatientId(LastPatientId(patients)), report, callId)
      ensures WellFormedId(posted.patient.patientId)
      ensures !loading && result == Some(ResultMessage(post))
    {
      var hospitalId := FirstHospitalId(hospitals);
      listed := PatientsUrl(hospitalId);
      var lastPatientId := LastPatientId(patients);
      var nextPatientId := NextPatientId(lastPatientId);
      NextPatientIdWellFormed(lastPatientId);
      posted := PatientPost(listed, hospitalId, BuildPatientData(nextPatientId, report, callId));
      result := Some(ResultMessage(post));
      loading := false;
    }
  }
}
