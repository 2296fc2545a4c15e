/**
  The text parser inside the interview form dialog: the guard on the parse button,
  the check that the selected AI model is configured, the request it posts to the
  parser route, and what it does with the answer, which is to write the non-empty
  fields of the returned patch into the form through the page's field handler and
  select the returned date through the page's calendar handler.
 */
module FormDialog {
  import opened Wrappers
  import opened Text
  import opened Calendar
  import opened InterviewTypes
  import opened InterviewStore
  import opened InterviewsClient
  import opened ParserRoute

  /** The AI settings the dialog reads from its configuration store. */
  datatype AiSettings = AiSettings(
    selectedModel: string,
    doubaoApiKey: string,
    doubaoModelId: string,
    deepseekApiKey: string,
    deepseekModelId: string)

  /** The dialog's own state: the pasted text, the in-flight flag, and whether the parser panel is shown. */
  datatype DialogState = DialogState(parserText: string, parsing: bool, showParser: bool)

  /** The page and the dialog together. */
  datatype Screen = Screen(client: ClientState, dialog: DialogState)

  const Doubao: string := "doubao"

  /** The parse button is disabled while a parse is running and while the text trims to nothing. */
  predicate ParseButtonDisabled(d: DialogState) {
    d.parsing || Trim(d.parserText) == ""
  }

  /** The button is disabled exactly while parsing or while the text is all white space. */
  lemma ParseButtonGuard(d: DialogState)
    ensures ParseButtonDisabled(d) <==> d.parsing || IsBlank(d.parserText)
  {
    TrimEmptyIffBlank(d.parserText);
  }

  /**
    `isConfigured`: doubao needs its key and its model id; any other model needs
    the deepseek key, and the deepseek model id too when its configuration asks
    for one. An empty string counts as absent.
   */
  predicate IsConfigured(s: AiSettings, requiresModelId: bool) {
    if s.selectedModel == Doubao then s.doubaoApiKey != "" && s.doubaoModelId != ""
    else if requiresModelId then s.deepseekApiKey != "" && s.deepseekModelId != ""
    else s.deepseekApiKey != ""
  }

  /** The key posted with the text. */
  function ApiKey(s: AiSettings): string {
    if s.selectedModel == Doubao then s.doubaoApiKey else s.deepseekApiKey
  }

  /** The model posted with the text: doubao's model id, else the deepseek model id or the configured default. */
  function RequestModel(s: AiSettings, cfg: ModelConfig): string {
    if s.selectedModel == Doubao then s.doubaoModelId
    else if cfg.requiresModelId then s.deepseekModelId
    else cfg.defaultModel
  }

  /**
    How a click on the parse button begins: nothing happens for blank text;
    reading the configuration of a model missing from the table fails before any
    state changes; an unconfigured model stops with an error notice; otherwise the
    dialog enters the parsing state and posts the request.
   */
  datatype ParseStart = Skipped | Crashed | NotConfigured | Sent(dialog: DialogState, request: RouteRequest)

  function StartParse(d: DialogState, s: AiSettings, configs: Configs): (r: ParseStart)
    ensures r.Skipped? <==> IsBlank(d.parserText)
    ensures r.Crashed? <==> !IsBlank(d.parserText) && s.selectedModel != Doubao && s.selectedModel !in configs
    ensures r.NotConfigured? ==> s.selectedModel == Doubao || s.selectedModel in configs
    ensures r.NotConfigured? ==>
      !IsConfigured(s, s.selectedModel != Doubao && configs[s.selectedModel].requiresModelId)
    ensures r.Sent? ==>
      && r.dialog == d.(parsing := true)
      && r.request.Body?
      && r.request.text == Text(d.parserText)
      && r.request.apiKey == ApiKey(s)
      && r.request.modelType == s.selectedModel
      && (s.selectedModel == Doubao ==> r.request.model == s.doubaoModelId)
      && (s.selectedModel != Doubao ==> r.request.model == RequestModel(s, configs[s.selectedModel]))
      && IsConfigured(s, s.selectedModel != Doubao && configs[s.selectedModel].requiresModelId)
      && !IsBlank(d.parserText)
  {
    TrimEmptyIffBlank(d.parserText);
    if Trim(d.parserText) == "" then Skipped
    else if s.selectedModel == Doubao then
      if !IsConfigured(s, false) then NotConfigured
      else Sent(d.(parsing := true), Body(Text(d.parserText), ApiKey(s), s.doubaoModelId, s.selectedModel))
    else if s.selectedModel !in configs then Crashed
    else
      var cfg := configs[s.selectedModel];
      if !IsConfigured(s, cfg.requiresModelId) then NotConfigured
      else Sent(d.(parsing := true), Body(Text(d.parserText), ApiKey(s), RequestModel(s, cfg), s.selectedModel))
  }

  /** What the dialog's `fetch` yields: a failure, or the HTTP status's `ok` and the body's `data`. */
  datatype ServerOutcome = FetchFailed | Responded(ok: bool, data: Option<JsonPatch>)

  /** The route's response as the dialog receives it: data with status 200, or an error body without data. */
  function Deliver(r: RouteResponse): ServerOutcome {
    match r
    case Data(p) => Responded(true, Some(p))
    case Error(_, _) => Responded(false, None)
  }

  /** `response.ok && result.data`. */
  predicate Succeeded(out: ServerOutcome) {
    out.Responded? && out.ok && out.data.Some?
  }

  /**
    The form after the patch is written into it: a field takes the patch's value
    when the patch names it with a non-empty value, and keeps its own otherwise;
    properties that are not form fields are ignored.
   */
  function MergePatch(form: FormData, p: JsonPatch): (f: FormData)
    ensures forall k :: GetField(f, k) == Extracted(p, FieldName(k), GetField(form, k))
  {
    FormData(
      Extracted(p, "companyName", form.companyName),
      Extracted(p, "position", form.position),
      Extracted(p, "date", form.date),
      Extracted(p, "startTime", form.startTime),
      Extracted(p, "duration", form.duration),
      Extracted(p, "location", form.location),
      Extracted(p, "status", form.status),
      Extracted(p, "notes", form.notes),
      Extracted(p, "color", form.color))
  }

  /**
    The `forEach` over the patch's entries, calling the page's field handler for each
    non-empty value whose key is a form field, in whatever order the entries come:
    the result is the merged form, and nothing but the form changes.
   */
  method ApplyEntries(st: ClientState, p: JsonPatch) returns (t: ClientState)
    ensures t == st.(form := MergePatch(st.form, p))
  {
    t := st;
    var rest := p.Keys;
    while rest != {}
      invariant rest <= p.Keys
      invariant t == st.(form := t.form)
      invariant forall k :: GetField(t.form, k) == if FieldName(k) in rest then GetField(st.form, k) else Extracted(p, FieldName(k), GetField(st.form, k))
      decreases rest
    {
      var key :| key in rest;
      var named := FieldNamed(key);
      if p[key] != "" && named.Some? {
        t := HandleFieldChange(t, named.value, p[key]);
      }
      rest := rest - {key};
    }
    FormDataExtensionality(t.form, MergePatch(st.form, p));
  }

  /**
    Selecting the returned date: a `YYYY-MM-DD` day goes through the page's calendar
    handler; any other text is selected as an invalid date.
   */
  function SelectParsedDate(st: ClientState, text: string): (t: ClientState)
    ensures t.store.interviews == st.store.interviews
    ensures t.store.selectedDate == Some(ParseIsoDate(text))
    ensures ParseIsoDate(text).Day? ==> t.form == SetField(st.form, Date, FormatIso(ParseIsoDate(text).date))
    ensures ParseIsoDate(text).Day? && ParseIsoDate(text).date.year >= 1 ==> t.form == SetField(st.form, Date, text)
    ensures ParseIsoDate(text).InvalidDate? ==> t.form == st.form
    ensures t.current == st.current && t.weekStart == st.weekStart
    ensures t.addOpen == st.addOpen && t.editOpen == st.editOpen
  {
    match ParseIsoDate(text)
    case Day(c) =>
      FormatParseIso(text);
      HandleCalendarSelect(st, Some(c))
    case InvalidDate => st.(store := SetSelectedDate(st.store, Some(InvalidDate)))
  }

  /**
    How the parse ends. On an ok response with data the patch is merged into the
    form, a non-empty returned date is selected, and the parser panel is emptied and
    hidden; on any other outcome the page is left as it was. The parsing flag is
    cleared on every path.
   */
  function FinishParse(st: ClientState, d: DialogState, out: ServerOutcome): (r: Screen)
    ensures !r.dialog.parsing
    ensures Succeeded(out) ==> r.dialog == DialogState("", false, false)
    ensures !Succeeded(out) ==> r.dialog == d.(parsing := false) && r.client == st
    ensures Succeeded(out) ==>
      var p := out.data.value;
      var returned := ParseIsoDate(Extracted(p, "date", ""));
      && r.client.store.interviews == st.store.interviews
      && r.client.current == st.current && r.client.weekStart == st.weekStart
      && r.client.addOpen == st.addOpen && r.client.editOpen == st.editOpen
      && (forall k :: k != Date ==> GetField(r.client.form, k) == Extracted(p, FieldName(k), GetField(st.form, k)))
      && (returned.Day? ==> r.client.form.date == FormatIso(returned.date))
      && (returned.InvalidDate? ==> r.client.form.date == Extracted(p, "date", st.form.date))
      && (Extracted(p, "date", "") == "" ==> r.client.store.selectedDate == st.store.selectedDate)
      && (Extracted(p, "date", "") != "" ==> r.client.store.selectedDate == Some(ParseIsoDate(p["date"])))
  {
    if Succeeded(out) then
      var p := out.data.value;
      var merged := st.(form := MergePatch(st.form, p));
      assert ParseIsoDate("") == InvalidDate;
      var selected := if Extracted(p, "date", "") != "" then SelectParsedDate(merged, p["date"]) else merged;
      assert forall k :: k != Date ==> GetField(selected.form, k) == GetField(merged.form, k) by {
        if Extracted(p, "date", "") != "" {
          assert GetField(merged.form, Date) == p["date"];
        }
      }
      Screen(selected, DialogState("", false, false))
    else
      Screen(st, d.(parsing := false))
  }

  /**
    `handleParseText` from click to finish, with the provider's reply as an argument:
    every path that does not post leaves page and dialog as they were, and every
    path that posts ends with the parsing flag cleared.
   */
  function HandleParseText(st: ClientState, d: DialogState, s: AiSettings, configs: Configs, reply: ProviderReply): (r: Screen)
    ensures !StartParse(d, s, configs).Sent? ==> r == Screen(st, d)
    ensures StartParse(d, s, configs).Sent? ==> !r.dialog.parsing
    ensures IsBlank(d.parserText) ==> r == Screen(st, d)
  {
    match StartParse(d, s, configs)
    case Sent(d1, req) => FinishParse(st, d1, Deliver(Route(req, configs, reply).response))
    case _ => Screen(st, d)
  }

  /** The dialog only posts text that is neither missing nor empty, so the route never answers it with a 400 error. */
  lemma PostedTextIsNeverRejected(d: DialogState, s: AiSettings, configs: Configs, reply: ProviderReply)
    requires StartParse(d, s, configs).Sent?
    ensures Route(StartParse(d, s, configs).request, configs, reply).response != Error(400, BadTextMessage)
  {
  }

  /**
    The model the provider receives, through the dialog and then the route: the
    user's model id for the selected provider when its configuration requires one,
    and the configured default otherwise. The key and the text arrive unchanged.
   */
  lemma ProviderReceivesConfiguredModel(d: DialogState, s: AiSettings, configs: Configs, reply: ProviderReply)
    requires StartParse(d, s, configs).Sent? && s.selectedModel in configs
    ensures var cfg := configs[s.selectedModel];
      var modelId := if s.selectedModel == Doubao then s.doubaoModelId else s.deepseekModelId;
      Route(StartParse(d, s, configs).request, configs, reply).sent ==
        Some(ProviderRequest(cfg.url, ApiKey(s), if cfg.requiresModelId then modelId else cfg.defaultModel, d.parserText))
  {
    PostedTextIsNeverRejected(d, s, configs, reply);
  }

  /**
    Whenever the provider's reply carries a message, parsing overwrites the form's
    status with 待面试 and its colour with #3b82f6, whatever they were and whatever
    the provider extracted.
   */
  lemma SuccessfulParseResetsStatusAndColor(st: ClientState, d: DialogState, s: AiSettings, configs: Configs, reply: ProviderReply)
    requires StartParse(d, s, configs).Sent? && s.selectedModel in configs && reply.Message?
    ensures HandleParseText(st, d, s, configs, reply).client.form.status == DefaultStatus
    ensures HandleParseText(st, d, s, configs, reply).client.form.color == DefaultColor
  {
    var start := StartParse(d, s, configs);
    var p := Respond(reply).patch;
    assert Route(start.request, configs, reply).response == Data(p);
    assert HandleParseText(st, d, s, configs, reply) == FinishParse(st, start.dialog, Responded(true, Some(p)));
    FinishForcesStatusAndColor(st, start.dialog, p);
  }

  /** A successful finish with a patch whose status and colour are the defaults leaves the form with them. */
  lemma FinishForcesStatusAndColor(st: ClientState, d: DialogState, p: JsonPatch)
    requires "status" in p && "color" in p && p["status"] == DefaultStatus && p["color"] == DefaultColor
    ensures FinishParse(st, d, Responded(true, Some(p))).client.form.status == DefaultStatus
    ensures FinishParse(st, d, Responded(true, Some(p))).client.form.color == DefaultColor
  {
    var r := FinishParse(st, d, Responded(true, Some(p)));
    assert GetField(r.client.form, Status) == Extracted(p, "status", st.form.status);
    assert GetField(r.client.form, Color) == Extracted(p, "color", st.form.color);
  }

  /**
    A date the route returns in `YYYY-MM-DD` form is selected as that day and ends
    up in the form formatted back: unchanged from year 1 on, and with its year
    written 0001 when the route returned year 0000.
   */
  lemma ParsedDateIsKept(st: ClientState, d: DialogState, p: JsonPatch)
    requires "date" in p && ParseIsoDate(p["date"]).Day?
    ensures var r := FinishParse(st, d, Responded(true, Some(p)));
      r.client.store.selectedDate == Some(ParseIsoDate(p["date"]))
    ensures ParseIsoDate(p["date"]).date.year >= 1 ==>
      FinishParse(st, d, Responded(true, Some(p))).client.form.date == p["date"]
    ensures ParseIsoDate(p["date"]).date.year == 0 ==>
      FinishParse(st, d, Responded(true, Some(p))).client.form.date == "0001" + p["date"][4..]
  {
    assert p["date"] != "" by {
      assert ParseIsoDate("") == InvalidDate;
    }
    FormatParseIso(p["date"]);
  }
}
