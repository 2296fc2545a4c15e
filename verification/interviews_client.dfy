/**
  The interviews page's own state and its event handlers: the form being edited,
  the interview being edited, the first day of the shown week and the two dialog
  flags, next to the store they write to. Each handler is a state-to-state
  function; the clock is an explicit `today` argument and `Date.now()` ids a
  `freshId` argument.
 */
module InterviewsClient {
  import opened Wrappers
  import opened Calendar
  import opened InterviewTypes
  import opened InterviewStore
  import opened WeekGrid

  datatype ClientState = ClientState(
    store: StoreState,
    form: FormData,
    current: Option<Interview>,
    weekStart: int,
    addOpen: bool,
    editOpen: bool)

  /** The form a new interview starts from: dated today, 09:00, 1小时, 待面试, blue, empty texts. */
  function DefaultForm(today: CivilDate): FormData {
    FormData("", "", FormatIso(today), DefaultStartTime, DefaultDuration, "", DefaultStatus, "", DefaultColor)
  }

  /** The page as it mounts: default form, no dialog open, and the week of `today` starting on its Monday. */
  function InitialState(store: StoreState, today: CivilDate): (st: ClientState)
    requires IsCalendarDate(today)
    ensures Weekday(st.weekStart) == 0 && st.weekStart <= DayNumber(today) < st.weekStart + 7
    ensures st.store == store && st.form == DefaultForm(today) && st.current == None
    ensures !st.addOpen && !st.editOpen
  {
    ClientState(store, DefaultForm(today), None, StartOfWeek(DayNumber(today)), false, false)
  }

  /** `resetForm`: the default form dated today, today selected, no interview being edited. */
  function ResetForm(st: ClientState, today: CivilDate): (t: ClientState)
    ensures t.form == DefaultForm(today) && t.current == None
    ensures t.store.interviews == st.store.interviews && t.store.selectedDate == Some(Day(today))
    ensures t.weekStart == st.weekStart && t.addOpen == st.addOpen && t.editOpen == st.editOpen
  {
    st.(form := DefaultForm(today), store := SetSelectedDate(st.store, Some(Day(today))), current := None)
  }

  /**
    `handleAddInterview`: stores the form under the fresh id (replacing any interview
    already there), closes the add dialog and resets the form.
   */
  function HandleAddInterview(st: ClientState, freshId: string, today: CivilDate): (t: ClientState)
    ensures freshId in t.store.interviews && t.store.interviews[freshId] == Interview(freshId, st.form)
    ensures t.store.interviews.Keys == st.store.interviews.Keys + {freshId}
    ensures forall k :: k in st.store.interviews && k != freshId ==> t.store.interviews[k] == st.store.interviews[k]
    ensures t.form == DefaultForm(today) && t.current == None && !t.addOpen
    ensures t.store.selectedDate == Some(Day(today))
    ensures t.weekStart == st.weekStart && t.editOpen == st.editOpen
  {
    var s := AddInterview(st.store, Interview(freshId, st.form));
    ResetForm(st.(store := s, addOpen := false), today)
  }

  /**
    `handleEditInterview`: with no interview being edited nothing happens; otherwise
    every form field is written over the stored interview of that id (its id stays),
    the edit dialog closes and the form resets.
   */
  function HandleEditInterview(st: ClientState, today: CivilDate): (t: ClientState)
    ensures st.current.None? ==> t == st
    ensures st.current.Some? ==>
      var id := st.current.value.id;
      && t.store.interviews.Keys == st.store.interviews.Keys
      && (id in st.store.interviews ==>
           t.store.interviews[id] == Interview(st.store.interviews[id].id, st.form))
      && (forall k :: k in st.store.interviews && k != id ==> t.store.interviews[k] == st.store.interviews[k])
      && t.form == DefaultForm(today) && t.current == None && !t.editOpen
      && t.store.selectedDate == Some(Day(today))
      && t.weekStart == st.weekStart && t.addOpen == st.addOpen
  {
    if st.current.None? then st
    else
      var id := st.current.value.id;
      var s := UpdateInterview(st.store, id, FormPatch(st.form));
      assert id in st.store.interviews ==> s.interviews[id] == Interview(st.store.interviews[id].id, st.form) by {
        if id in st.store.interviews {
          var m := s.interviews[id];
          assert m.id == Get(m, Id);
          forall j ensures GetField(m.details, j) == GetField(st.form, j) {
            assert GetField(m.details, j) == Get(m, Detail(j));
          }
          FormDataExtensionality(m.details, st.form);
        }
      }
      ResetForm(st.(store := s, editOpen := false), today)
  }

  /** `openEditDialog`: remembers the interview, copies its fields into the form, selects its date. */
  function OpenEditDialog(st: ClientState, r: Interview): (t: ClientState)
    ensures t.current == Some(r) && t.form == r.details && t.editOpen
    ensures t.store.interviews == st.store.interviews
    ensures t.store.selectedDate == Some(ParseIsoDate(r.details.date))
    ensures t.weekStart == st.weekStart && t.addOpen == st.addOpen
  {
    st.(current := Some(r), form := r.details,
        store := SetSelectedDate(st.store, Some(ParseIsoDate(r.details.date))), editOpen := true)
  }

  /** Opening a stored interview for editing and saving it untouched leaves every stored interview as it was. */
  lemma OpenThenSaveIsIdentity(st: ClientState, r: Interview, today: CivilDate)
    requires r.id in st.store.interviews && st.store.interviews[r.id] == r
    ensures HandleEditInterview(OpenEditDialog(st, r), today).store.interviews == st.store.interviews
  {
    var t := HandleEditInterview(OpenEditDialog(st, r), today);
    assert t.store.interviews[r.id] == r;
  }

  /** Adding under the fresh id, editing and deleting keep every interview under its own id. */
  lemma HandlersKeepKeysMatchIds(st: ClientState, freshId: string, id: string, today: CivilDate)
    requires KeysMatchIds(st.store.interviews)
    ensures KeysMatchIds(HandleAddInterview(st, freshId, today).store.interviews)
    ensures KeysMatchIds(HandleEditInterview(st, today).store.interviews)
    ensures KeysMatchIds(HandleDeleteInterview(st, id).store.interviews)
  {
  }

  /** `handleInputChange` and `handleSelectChange`: one form field takes the new value. */
  function HandleFieldChange(st: ClientState, k: FormField, v: string): (t: ClientState)
    ensures GetField(t.form, k) == v
    ensures forall j :: j != k ==> GetField(t.form, j) == GetField(st.form, j)
    ensures t.store == st.store && t.current == st.current && t.weekStart == st.weekStart
    ensures t.addOpen == st.addOpen && t.editOpen == st.editOpen
  {
    st.(form := SetField(st.form, k, v))
  }

  /** `handleCalendarSelect`: a picked day becomes the selected date and the form's date text. */
  function HandleCalendarSelect(st: ClientState, picked: Option<CivilDate>): (t: ClientState)
    ensures picked.None? ==> t == st
    ensures picked.Some? ==>
      && t.store.selectedDate == Some(Day(picked.value))
      && t.form == SetField(st.form, Date, FormatIso(picked.value))
      && t.store.interviews == st.store.interviews
    ensures t.current == st.current && t.weekStart == st.weekStart
    ensures t.addOpen == st.addOpen && t.editOpen == st.editOpen
  {
    if picked.None? then st
    else
      st.(store := SetSelectedDate(st.store, Some(Day(picked.value))),
          form := st.form.(date := FormatIso(picked.value)))
  }

  /** `handleDeleteInterview`. */
  function HandleDeleteInterview(st: ClientState, id: string): (t: ClientState)
    ensures t.store.interviews.Keys == st.store.interviews.Keys - {id}
    ensures forall k :: k in t.store.interviews ==> t.store.interviews[k] == st.store.interviews[k]
    ensures t.form == st.form && t.current == st.current && t.weekStart == st.weekStart
    ensures t.store.selectedDate == st.store.selectedDate
    ensures t.addOpen == st.addOpen && t.editOpen == st.editOpen
  {
    st.(store := DeleteInterview(st.store, id))
  }

  /** `handlePrevWeek`: `subWeeks(currentWeekStart, 1)`. */
  function PrevWeek(st: ClientState): (t: ClientState)
    ensures t.weekStart == st.weekStart - 7
    ensures t.store == st.store && t.form == st.form && t.current == st.current
    ensures t.addOpen == st.addOpen && t.editOpen == st.editOpen
  {
    st.(weekStart := st.weekStart - 7)
  }

  /** `handleNextWeek`: `addWeeks(currentWeekStart, 1)`. */
  function NextWeek(st: ClientState): (t: ClientState)
    ensures t.weekStart == st.weekStart + 7
    ensures t.store == st.store && t.form == st.form && t.current == st.current
    ensures t.addOpen == st.addOpen && t.editOpen == st.editOpen
  {
    st.(weekStart := st.weekStart + 7)
  }

  /** The two week buttons undo each other and keep the week starting on the same weekday. */
  lemma WeekNavigationInverse(st: ClientState)
    ensures PrevWeek(NextWeek(st)) == st && NextWeek(PrevWeek(st)) == st
    ensures Weekday(NextWeek(st).weekStart) == Weekday(st.weekStart)
    ensures Weekday(PrevWeek(st).weekStart) == Weekday(st.weekStart)
  {
  }

  /** The sample interviews the page stores when it mounts on an empty store, under ids 1, 2 and 3. */
  function DemoInterviews(): (ds: seq<Interview>)
    ensures |ds| == 3 && ds[0].id == "1" && ds[1].id == "2" && ds[2].id == "3"
  {
    [ Interview("1", FormData("阿里巴巴", "", "2025-03-13", "11:00", "1小时",
        "杭州市余杭区文一西路969号", "待面试", "需要准备React和Vue的相关知识点，以及算法题目", "#f59e0b")),
      Interview("2", FormData("腾讯", "全栈开发工程师", "2025-03-11", "14:00", "1.5小时",
        "深圳市南山区科技中一路腾讯大厦", "待面试", "需要准备Node.js和微服务相关知识", "#3b82f6")),
      Interview("3", FormData("字节跳动", "资深前端工程师", "2025-03-15", "10:00", "1.5小时",
        "北京市海淀区中关村软件园二期", "已完成", "面试官问了很多关于性能优化的问题，需要加强这方面的知识", "#10b981")) ]
  }

  /** `demoInterviews.forEach(addInterview)`: the three samples are added in order, each under its own id. */
  function SeedDemos(s: StoreState): (t: StoreState)
    ensures t.interviews.Keys == s.interviews.Keys + {"1", "2", "3"}
    ensures forall i :: 0 <= i < 3 ==> t.interviews[DemoInterviews()[i].id] == DemoInterviews()[i]
    ensures forall k :: k in s.interviews && k !in {"1", "2", "3"} ==> t.interviews[k] == s.interviews[k]
    ensures KeysMatchIds(s.interviews) ==> KeysMatchIds(t.interviews)
    ensures t.selectedDate == s.selectedDate
  {
    var ds := DemoInterviews();
    AddInterview(AddInterview(AddInterview(s, ds[0]), ds[1]), ds[2])
  }

  /**
    The mount effect: an empty store receives the three sample interviews; a store
    that already holds interviews is left alone. A selected `Date` is copied into
    the form's date.
   */
  function Mount(st: ClientState): (t: ClientState)
    ensures |st.store.interviews| == 0 ==>
      && t.store.interviews == map["1" := DemoInterviews()[0], "2" := DemoInterviews()[1], "3" := DemoInterviews()[2]]
      && KeysMatchIds(t.store.interviews)
    ensures |st.store.interviews| != 0 ==> t.store.interviews == st.store.interviews
    ensures st.store.selectedDate.Some? && st.store.selectedDate.value.Day? ==>
      t.form == SetField(st.form, Date, FormatIso(st.store.selectedDate.value.date))
    ensures st.store.selectedDate.None? ==> t.form == st.form
    ensures st.store.selectedDate == Some(InvalidDate) ==> t.form == st.form
    ensures t.store.selectedDate == st.store.selectedDate
    ensures t.current == st.current && t.weekStart == st.weekStart
    ensures t.addOpen == st.addOpen && t.editOpen == st.editOpen
  {
    var s := if |st.store.interviews| == 0 then SeedDemos(st.store) else st.store;
    assert |st.store.interviews| == 0 ==> st.store.interviews == map[];
    var f := match st.store.selectedDate
      case Some(Day(d)) => st.form.(date := FormatIso(d))
      case _ => st.form;
    st.(store := s, form := f)
  }

  /**
    The grid as the page renders it: every stored interview listed once, then placed.
    Every drawn event is a stored interview at its place, and every stored interview
    dated in the shown week is drawn, exactly once while each is filed under its own id.
   */
  method Render(st: ClientState) returns (events: seq<PositionedEvent>)
    ensures forall e :: e in events ==>
      e.interview in st.store.interviews.Values && PlaceEvent(e.interview, st.weekStart) == Some(e)
    ensures forall k :: k in st.store.interviews && InWeek(ParseIsoDate(st.store.interviews[k].details.date), st.weekStart) ==>
      PlaceEvent(st.store.interviews[k], st.weekStart).Some? && PlaceEvent(st.store.interviews[k], st.weekStart).value in events
    ensures |events| <= |st.store.interviews|
    ensures KeysMatchIds(st.store.interviews) ==>
      forall k :: k in st.store.interviews && InWeek(ParseIsoDate(st.store.interviews[k].details.date), st.weekStart) ==>
        multiset(Drawn(events))[st.store.interviews[k]] == 1
  {
    var ids, rs := AllInterviews(st.store);
    ListingIsValues(st.store.interviews, ids, rs);
    if KeysMatchIds(st.store.interviews) {
      ListedOnce(st.store.interviews, ids, rs);
    }
    events := Layout(rs, st.weekStart);
    LayoutMultiplicity(rs, st.weekStart);
  }
}
