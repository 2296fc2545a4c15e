/**
  The interview-parser route: it checks the posted text, looks up the model
  configuration named by `modelType`, forwards the text to that provider, and
  turns the provider's reply into a patch of form fields. The provider call is
  not modelled; its reply is an argument. So is the configuration table, which
  lives outside this model.
 */
module ParserRoute {
  import opened Wrappers
  import opened InterviewTypes

  /** The `text` property of the posted body. */
  datatype TextField = Missing | NonString | Text(value: string)

  /** The posted body, or a body that is not JSON at all. */
  datatype RouteRequest =
    | BodyNotJson
    | Body(text: TextField, apiKey: string, model: string, modelType: string)

  /** One entry of the model configuration table. */
  datatype ModelConfig = ModelConfig(url: string, requiresModelId: bool, defaultModel: string)

  type Configs = map<string, ModelConfig>

  /** What the route sends to the provider: where, with which key, which model, and the user's text. */
  datatype ProviderRequest = ProviderRequest(url: string, apiKey: string, model: string, userText: string)

  /**
    The message content as `JSON.parse` sees it: not JSON (or no content), the
    literal `null`, or any other value, listed by its string properties (none for
    a number or a string).
   */
  datatype Content = Unparseable | ParsedNull | ParsedObject(fields: map<string, string>)

  /**
    The provider's reply, whatever its HTTP status: no reply or a body that is not
    JSON; the JSON body `null`, whose `choices` cannot be read; any other JSON body
    without `choices[0].message` (an error object, say); or a message.
   */
  datatype ProviderReply = ProviderFailed | NullBody | NoMessage | Message(content: Content)

  /** A JSON object of string properties, as the route returns its `data`. */
  type JsonPatch = map<string, string>

  datatype RouteResponse = Data(patch: JsonPatch) | Error(status: nat, message: string)

  /** The response together with the provider request the route made, if it made one. */
  datatype RouteOutcome = RouteOutcome(response: RouteResponse, sent: Option<ProviderRequest>)

  const BadTextMessage: string := "请提供有效的文本内容"
  const ServerErrorMessage: string := "解析面试文本时出错"

  /** `text` is present, a string, and not empty. */
  predicate ValidText(t: TextField) {
    t.Text? && t.value != ""
  }

  /** `o[key] || fallback` for a string-valued property. */
  function Extracted(o: JsonPatch, key: string, fallback: string): string {
    if key in o && o[key] != "" then o[key] else fallback
  }

  /** The names of the nine form fields. */
  const FormFieldNames: set<string> :=
    {"companyName", "position", "date", "startTime", "duration", "location", "status", "notes", "color"}

  lemma FormFieldNamesAreFieldNames()
    ensures forall key :: key in FormFieldNames <==> FieldNamed(key).Some?
    ensures forall k :: FieldName(k) in FormFieldNames
  {
  }

  /**
    The patch built from a parsed object: every extracted field, or its default
    when the provider left it out or empty (`1小时` for the duration, "" for the
    rest), and the status and colour of a new interview whatever the provider said.
   */
  function Normalise(o: JsonPatch): (p: JsonPatch)
    ensures p.Keys == FormFieldNames
    ensures forall k :: k != Status && k != Color && k != Duration ==>
      p[FieldName(k)] == Extracted(o, FieldName(k), "")
    ensures p["duration"] == Extracted(o, "duration", DefaultDuration)
    ensures p["status"] == DefaultStatus && p["color"] == DefaultColor
  {
    map[
      "companyName" := Extracted(o, "companyName", ""),
      "position" := Extracted(o, "position", ""),
      "date" := Extracted(o, "date", ""),
      "startTime" := Extracted(o, "startTime", ""),
      "duration" := Extracted(o, "duration", DefaultDuration),
      "location" := Extracted(o, "location", ""),
      "notes" := Extracted(o, "notes", ""),
      "status" := DefaultStatus,
      "color" := DefaultColor]
  }

  /** Normalising a normalised patch changes nothing: its duration is never empty and its status and colour are already forced. */
  lemma NormaliseIdempotent(o: JsonPatch)
    ensures Normalise(Normalise(o)) == Normalise(o)
  {
    var p := Normalise(o);
    var q := Normalise(p);
    forall key | key in q.Keys ensures q[key] == p[key] {
      var k := FieldNamed(key).value;
      assert FieldName(k) == key;
    }
  }

  /** The patch sent when the message content cannot be parsed. */
  const FallbackPatch: JsonPatch := map["status" := DefaultStatus, "color" := DefaultColor]

  /**
    The response for a provider reply: a 500 error when there is no reply or its
    body is not JSON, the empty patch without a message, the fallback patch when
    reading the body or its content throws (a `null` body, content that does not
    parse or parses to `null`), and the normalised patch otherwise.
   */
  function Respond(reply: ProviderReply): (r: RouteResponse)
    ensures r.Error? <==> reply.ProviderFailed?
    ensures r.Error? ==> r == Error(500, ServerErrorMessage)
    ensures reply.NoMessage? ==> r == Data(map[])
    ensures reply.NullBody? ==> r == Data(FallbackPatch)
    ensures reply.Message? && !reply.content.ParsedObject? ==> r == Data(FallbackPatch)
    ensures reply.Message? ==>
      && r.Data? && "status" in r.patch && "color" in r.patch
      && r.patch["status"] == DefaultStatus && r.patch["color"] == DefaultColor
    ensures reply.Message? && reply.content.ParsedObject? ==> r == Data(Normalise(reply.content.fields))
    ensures r.Data? ==> r.patch.Keys <= FormFieldNames
  {
    match reply
    case ProviderFailed => Error(500, ServerErrorMessage)
    case NullBody => Data(FallbackPatch)
    case NoMessage => Data(map[])
    case Message(ParsedObject(o)) => Data(Normalise(o))
    case Message(_) => Data(FallbackPatch)
  }

  /** The model the route names to the provider. */
  function ProviderModel(cfg: ModelConfig, requested: string): string {
    if cfg.requiresModelId then requested else cfg.defaultModel
  }

  /**
    `POST`: a body that is not JSON is a 500 error; a missing, non-string or empty
    `text` is a 400 error; an unknown `modelType` is a 500 error; none of these
    reaches the provider. Otherwise the text goes to the configured provider and its
    reply is turned into the response.
   */
  function Route(req: RouteRequest, configs: Configs, reply: ProviderReply): (r: RouteOutcome)
    ensures r.response == Error(400, BadTextMessage) <==> req.Body? && !ValidText(req.text)
    ensures r.sent.Some? <==> req.Body? && ValidText(req.text) && req.modelType in configs
    ensures r.sent.None? ==> r.response.Error?
    ensures req.BodyNotJson? ==> r.response == Error(500, ServerErrorMessage)
    ensures req.Body? && ValidText(req.text) && req.modelType !in configs ==>
      r.response == Error(500, ServerErrorMessage)
    ensures r.sent.Some? ==>
      var cfg := configs[req.modelType];
      && r.sent.value == ProviderRequest(cfg.url, req.apiKey, ProviderModel(cfg, req.model), req.text.value)
      && r.response == Respond(reply)
  {
    match req
    case BodyNotJson => RouteOutcome(Error(500, ServerErrorMessage), None)
    case Body(text, apiKey, model, modelType) =>
      if !ValidText(text) then RouteOutcome(Error(400, BadTextMessage), None)
      else if modelType !in configs then RouteOutcome(Error(500, ServerErrorMessage), None)
      else
        var cfg := configs[modelType];
        RouteOutcome(Respond(reply), Some(ProviderRequest(cfg.url, apiKey, ProviderModel(cfg, model), text.value)))
  }
}
