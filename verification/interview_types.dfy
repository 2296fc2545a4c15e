/**
  The record shapes of the interview dashboard: the `InterviewStatus` and
  `InterviewDuration` label sets, the nine fields of `InterviewFormData`, and an
  `Interview`, which is form data plus an id.

  At run time every field holds a plain string: the store, the form handlers and
  the parser route pass through whatever text they are given, and only the grid
  falls back to a default for a duration label it does not know. The enumerations
  below are therefore label tables with parsers, not field types.
 */
module InterviewTypes {
  import opened Wrappers

  /** `InterviewStatus`. */
  datatype InterviewStatus = Pending | Completed | Cancelled

  const AllStatuses: seq<InterviewStatus> := [Pending, Completed, Cancelled]

  function StatusLabel(s: InterviewStatus): string {
    match s
    case Pending => "待面试"
    case Completed => "已完成"
    case Cancelled => "已取消"
  }

  /** The status a label names, if it names one. */
  function ParseStatus(tag: string): (r: Option<InterviewStatus>)
    ensures r.Some? ==> StatusLabel(r.value) == tag
    ensures forall s :: StatusLabel(s) == tag ==> r == Some(s)
  {
    if tag == "待面试" then Some(Pending)
    else if tag == "已完成" then Some(Completed)
    else if tag == "已取消" then Some(Cancelled)
    else None
  }

  /** The status labels form a closed set of exactly three distinct strings. */
  lemma StatusesClosed()
    ensures |AllStatuses| == 3
    ensures forall s: InterviewStatus :: s in AllStatuses
    ensures forall i, j :: 0 <= i < j < |AllStatuses| ==> StatusLabel(AllStatuses[i]) != StatusLabel(AllStatuses[j])
  {
    forall s: InterviewStatus ensures s in AllStatuses {
      match s
      case Pending => assert AllStatuses[0] == s;
      case Completed => assert AllStatuses[1] == s;
      case Cancelled => assert AllStatuses[2] == s;
    }
    forall i, j | 0 <= i < j < |AllStatuses|
      ensures StatusLabel(AllStatuses[i]) != StatusLabel(AllStatuses[j])
    {
      assert StatusLabel(AllStatuses[i])[1] != StatusLabel(AllStatuses[j])[1];
    }
  }

  /** `InterviewDuration`. */
  datatype InterviewDuration = HalfHour | OneHour | HourAndHalf | TwoHours | TwoAndHalfHours | ThreeHours

  const AllDurations: seq<InterviewDuration> :=
    [HalfHour, OneHour, HourAndHalf, TwoHours, TwoAndHalfHours, ThreeHours]

  function DurationLabel(d: InterviewDuration): string {
    match d
    case HalfHour => "30分钟"
    case OneHour => "1小时"
    case HourAndHalf => "1.5小时"
    case TwoHours => "2小时"
    case TwoAndHalfHours => "2.5小时"
    case ThreeHours => "3小时"
  }

  /** How long an interview of each duration lasts, in minutes. */
  function Minutes(d: InterviewDuration): nat {
    match d
    case HalfHour => 30
    case OneHour => 60
    case HourAndHalf => 90
    case TwoHours => 120
    case TwoAndHalfHours => 150
    case ThreeHours => 180
  }

  /** The duration a label names, if it names one. */
  function ParseDuration(tag: string): (r: Option<InterviewDuration>)
    ensures r.Some? ==> DurationLabel(r.value) == tag
    ensures forall d :: DurationLabel(d) == tag ==> r == Some(d)
  {
    if tag == "30分钟" then Some(HalfHour)
    else if tag == "1小时" then Some(OneHour)
    else if tag == "1.5小时" then Some(HourAndHalf)
    else if tag == "2小时" then Some(TwoHours)
    else if tag == "2.5小时" then Some(TwoAndHalfHours)
    else if tag == "3小时" then Some(ThreeHours)
    else None
  }

  /** The duration labels form a closed set of exactly six distinct strings, in increasing length of time. */
  lemma DurationsClosed()
    ensures |AllDurations| == 6
    ensures forall d: InterviewDuration :: d in AllDurations
    ensures forall i, j :: 0 <= i < j < |AllDurations| ==> DurationLabel(AllDurations[i]) != DurationLabel(AllDurations[j])
    ensures forall i, j :: 0 <= i < j < |AllDurations| ==> Minutes(AllDurations[i]) < Minutes(AllDurations[j])
  {
    forall d: InterviewDuration ensures d in AllDurations {
      match d
      case HalfHour => assert AllDurations[0] == d;
      case OneHour => assert AllDurations[1] == d;
      case HourAndHalf => assert AllDurations[2] == d;
      case TwoHours => assert AllDurations[3] == d;
      case TwoAndHalfHours => assert AllDurations[4] == d;
      case ThreeHours => assert AllDurations[5] == d;
    }
    forall i, j | 0 <= i < j < |AllDurations|
      ensures DurationLabel(AllDurations[i]) != DurationLabel(AllDurations[j])
    {
      assert Minutes(AllDurations[i]) < Minutes(AllDurations[j]);
      assert ParseDuration(DurationLabel(AllDurations[i])) == Some(AllDurations[i]);
      assert ParseDuration(DurationLabel(AllDurations[j])) == Some(AllDurations[j]);
    }
  }

  /** The nine keys of `InterviewFormData`. */
  datatype FormField = CompanyName | Position | Date | StartTime | Duration | Location | Status | Notes | Color

  /** The keys of `Interview`: its id and the form keys. */
  datatype Field = Id | Detail(key: FormField)

  /** `InterviewFormData`: every field is free text at run time. */
  datatype FormData = FormData(
    companyName: string,
    position: string,
    date: string,
    startTime: string,
    duration: string,
    location: string,
    status: string,
    notes: string,
    color: string)

  /** `Interview`: the form fields plus the id it is stored under. */
  datatype Interview = Interview(id: string, details: FormData)

  /** `Partial<Interview>`: the fields a patch sets, with their new values. */
  type Patch = map<Field, string>

  const AllFormFields: set<FormField> :=
    {CompanyName, Position, Date, StartTime, Duration, Location, Status, Notes, Color}

  lemma AllFormFieldsComplete()
    ensures forall k: FormField :: k in AllFormFields
    ensures |AllFormFields| == 9
  {
    forall k: FormField ensures k in AllFormFields {
      match k
      case CompanyName =>
      case Position =>
      case Date =>
      case StartTime =>
      case Duration =>
      case Location =>
      case Status =>
      case Notes =>
      case Color =>
    }
    assert |{CompanyName, Position, Date, StartTime}| == 4;
    assert |{CompanyName, Position, Date, StartTime, Duration, Location}| == 6;
    assert |{CompanyName, Position, Date, StartTime, Duration, Location, Status, Notes}| == 8;
  }

  /** The property name of a form field, as it appears in JSON and in `key in formData`. */
  function FieldName(k: FormField): string {
    match k
    case CompanyName => "companyName"
    case Position => "position"
    case Date => "date"
    case StartTime => "startTime"
    case Duration => "duration"
    case Location => "location"
    case Status => "status"
    case Notes => "notes"
    case Color => "color"
  }

  /** `key in formData`: the form field a property name denotes, if any. */
  function FieldNamed(name: string): (r: Option<FormField>)
    ensures r.Some? ==> FieldName(r.value) == name
    ensures forall k :: FieldName(k) == name ==> r == Some(k)
  {
    if name == "companyName" then Some(CompanyName)
    else if name == "position" then Some(Position)
    else if name == "date" then Some(Date)
    else if name == "startTime" then Some(StartTime)
    else if name == "duration" then Some(Duration)
    else if name == "location" then Some(Location)
    else if name == "status" then Some(Status)
    else if name == "notes" then Some(Notes)
    else if name == "color" then Some(Color)
    else None
  }

  function GetField(f: FormData, k: FormField): string {
    match k
    case CompanyName => f.companyName
    case Position => f.position
    case Date => f.date
    case StartTime => f.startTime
    case Duration => f.duration
    case Location => f.location
    case Status => f.status
    case Notes => f.notes
    case Color => f.color
  }

  /** `{ ...f, [k]: v }`: the form with field `k` replaced by `v`. */
  function SetField(f: FormData, k: FormField, v: string): (g: FormData)
    ensures GetField(g, k) == v
    ensures forall j :: j != k ==> GetField(g, j) == GetField(f, j)
  {
    match k
    case CompanyName => f.(companyName := v)
    case Position => f.(position := v)
    case Date => f.(date := v)
    case StartTime => f.(startTime := v)
    case Duration => f.(duration := v)
    case Location => f.(location := v)
    case Status => f.(status := v)
    case Notes => f.(notes := v)
    case Color => f.(color := v)
  }

  /** Two forms with the same value in every field are the same form. */
  lemma FormDataExtensionality(a: FormData, b: FormData)
    requires forall k :: GetField(a, k) == GetField(b, k)
    ensures a == b
  {
    assert GetField(a, CompanyName) == GetField(b, CompanyName);
    assert GetField(a, Position) == GetField(b, Position);
    assert GetField(a, Date) == GetField(b, Date);
    assert GetField(a, StartTime) == GetField(b, StartTime);
    assert GetField(a, Duration) == GetField(b, Duration);
    assert GetField(a, Location) == GetField(b, Location);
    assert GetField(a, Status) == GetField(b, Status);
    assert GetField(a, Notes) == GetField(b, Notes);
    assert GetField(a, Color) == GetField(b, Color);
  }

  function Get(r: Interview, k: Field): string {
    match k
    case Id => r.id
    case Detail(j) => GetField(r.details, j)
  }

  /** An interview is its id and its form fields: the two views agree on every key. */
  lemma InterviewExtensionality(a: Interview, b: Interview)
    requires forall k :: Get(a, k) == Get(b, k)
    ensures a == b
  {
    assert Get(a, Id) == Get(b, Id);
    forall j ensures GetField(a.details, j) == GetField(b.details, j) {
      assert Get(a, Detail(j)) == Get(b, Detail(j));
    }
    FormDataExtensionality(a.details, b.details);
  }

  /** A whole form as a patch: every form key set to the form's value, and no id. */
  function FormPatch(f: FormData): (p: Patch)
    ensures Id !in p
    ensures forall k :: Detail(k) in p && p[Detail(k)] == GetField(f, k)
  {
    AllFormFieldsComplete();
    map k | k in AllFormFields :: Detail(k) := GetField(f, k)
  }

  /** The status, colour and duration labels a new form starts from. */
  const DefaultStatus: string := StatusLabel(Pending)
  const DefaultColor: string := "#3b82f6"
  const DefaultDuration: string := DurationLabel(OneHour)
  const DefaultStartTime: string := "09:00"
}
