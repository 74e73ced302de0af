/** The `submit` handler (main.py, `submit`): validate the form, build the
    payload, turn the posted service-account key into a bearer token, post
    the payload to the Web Risk API and persist the operation it returns.
    Credential parsing, token refresh and the HTTP call are oracles passed
    in; what the handler does with them is recorded as a trace of effects. */
module Submit {
  import opened Wrappers
  import opened Text
  import opened JsonValues
  import opened Payload
  import opened DocIds
  import opened Store

  /** Why the handler answers 400. */
  datatype SubmitError =
    | MissingField(field: string)   // `request.form[field]` on a form without it (a KeyError)
    | Required                      // parent or uri blank after strip()
    | InvalidScore(reason: string)  // `float(score)` raised
    | KeyNotJson                    // `json.loads(sa_key)` raised
    | KeyUnusable(reason: string)   // building or refreshing the credentials raised
    | Raised(reason: string)        // the POST failed or its status was not 2xx
    | MalformedResult               // the response is not an object, or its `name` is not a string

  /** The body of the 400 answer, for the errors whose text the handler
      writes itself; the others carry the text of the exception raised. */
  function Message(e: SubmitError): string {
    match e
    case MissingField(field) => field
    case Required => "project number and uri are required"
    case InvalidScore(reason) => reason
    case KeyNotJson => "Service-account key is not valid JSON"
    case KeyUnusable(reason) => "Could not use service-account key: " + reason
    case Raised(reason) => reason
    case MalformedResult => "malformed response"
  }

  /** `jsonify(result)` with status 200, or a plain-text answer with 400. */
  datatype Reply = Ok(result: Json) | BadRequest(error: SubmitError)

  /** The external actions the handler performs, in order. */
  datatype Effect =
    | ParseKey
    | RefreshCredentials
    | PostSubmission(url: string, body: Json)
    | AppendLog(name: string)
    | StoreWrite(name: string)

  datatype Target = Target(projectNumber: string, uri: string)

  /** The first check of `submit`: `parent` and `uri` must be there and must
      not be blank; both are used stripped. */
  function Validate(form: Form): (r: Result<Target, SubmitError>)
    ensures form.parent.None? ==> r == Failure(MissingField("parent"))
    ensures form.parent.Some? && form.uri.None? ==> r == Failure(MissingField("uri"))
    ensures form.parent.Some? && form.uri.Some? ==>
              (r.Success? <==> !AllSpace(form.parent.value) && !AllSpace(form.uri.value))
    ensures r.Failure? && form.parent.Some? && form.uri.Some? ==> r.error == Required
    ensures r.Success? ==>
              && r.value == Target(Strip(form.parent.value), Strip(form.uri.value))
              && r.value.projectNumber != "" && r.value.uri != ""
  {
    if form.parent.None? then Failure(MissingField("parent"))
    else if form.uri.None? then Failure(MissingField("uri"))
    else
      var projectNumber := Strip(form.parent.value);
      var uri := Strip(form.uri.value);
      StripEmptyIffAllSpace(form.parent.value);
      StripEmptyIffAllSpace(form.uri.value);
      if projectNumber == "" || uri == "" then Failure(Required)
      else Success(Target(projectNumber, uri))
  }

  /** The Web Risk endpoint for `parent = projects/<number>`. */
  function SubmitUrl(projectNumber: string): string {
    "https://webrisk.googleapis.com/v1/projects/" + projectNumber + "/uris:submit"
  }

  datatype OperationName = NoName | Named(name: string) | Unusable

  /** `result.get("name")` and the `if op_name:` test: a missing or falsy
      name is skipped; a response that is not an object, or a truthy name
      that is not a string, makes the handler raise. */
  function NameOf(result: Json): (r: OperationName)
    ensures r.Named? ==> result.Obj? && Get(result.fields, "name") == Some(Str(r.name)) && r.name != ""
    ensures (result.Obj? && Get(result.fields, "name").Some? && Get(result.fields, "name").value.Str?
             && Get(result.fields, "name").value.s != "") ==> r == Named(Get(result.fields, "name").value.s)
    ensures r.NoName? <==> result.Obj? && (Get(result.fields, "name").None? || !Truthy(Get(result.fields, "name").value))
    ensures r.Unusable? <==> !result.Obj? || (Get(result.fields, "name").Some?
                                               && Truthy(Get(result.fields, "name").value)
                                               && !Get(result.fields, "name").value.Str?)
  {
    match result
    case Obj(fields) =>
      (match Get(fields, "name")
       case None => NoName
       case Some(v) => if !Truthy(v) then NoName else if v.Str? then Named(v.s) else Unusable)
    case _ => Unusable
  }

  /** The form passed validation and its payload was built. */
  predicate Checked(form: Form, parseFloat: string -> Result<real, string>) {
    Validate(form).Success? && PayloadOf(form, Validate(form).value.uri, parseFloat).Success?
  }

  /** The JSON body posted for a checked form. */
  function Body(form: Form, parseFloat: string -> Result<real, string>): Json
    requires Checked(form, parseFloat)
  {
    ToJson(PayloadOf(form, Validate(form).value.uri, parseFloat).value)
  }

  /** The credentials parsed from the posted key. */
  function KeyOf(form: Form, parseKey: string -> Option<Json>): Option<Json>
    requires form.saKey.Some?
  {
    parseKey(Strip(form.saKey.value))
  }

  /** A checked form whose key is not JSON. */
  predicate KeyRejected(form: Form, parseFloat: string -> Result<real, string>, parseKey: string -> Option<Json>) {
    Checked(form, parseFloat) && form.saKey.Some? && KeyOf(form, parseKey).None?
  }

  /** A checked form whose key parses but yields no token. */
  predicate TokenRefused(form: Form, parseFloat: string -> Result<real, string>,
                         parseKey: string -> Option<Json>, refresh: Json -> Result<string, string>) {
    && Checked(form, parseFloat) && form.saKey.Some? && KeyOf(form, parseKey).Some?
    && refresh(KeyOf(form, parseKey).value).Failure?
  }

  /** A checked form with a usable key: the payload is posted. */
  predicate Posted(form: Form, parseFloat: string -> Result<real, string>,
                   parseKey: string -> Option<Json>, refresh: Json -> Result<string, string>) {
    && Checked(form, parseFloat) && form.saKey.Some? && KeyOf(form, parseKey).Some?
    && refresh(KeyOf(form, parseKey).value).Success?
  }

  /** What the Web Risk API answers to the posted payload. */
  function Response(form: Form, parseFloat: string -> Result<real, string>,
                    parseKey: string -> Option<Json>, refresh: Json -> Result<string, string>,
                    post: (string, Json, string) -> Result<Json, string>): Result<Json, string>
    requires Posted(form, parseFloat, parseKey, refresh)
  {
    post(SubmitUrl(Validate(form).value.projectNumber), Body(form, parseFloat),
         refresh(KeyOf(form, parseKey).value).value)
  }

  /** The effects up to and including the POST. */
  function PostTrace(form: Form, parseFloat: string -> Result<real, string>): seq<Effect>
    requires Checked(form, parseFloat)
  {
    [ParseKey, RefreshCredentials, PostSubmission(SubmitUrl(Validate(form).value.projectNumber), Body(form, parseFloat))]
  }

  /** `submit()`. Validation and the payload come first and fail with no
      effect at all; credentials, the POST and persistence follow, each
      failure answering 400; a successful POST is answered with its result,
      after the operation name it carries is logged and saved. */
  method Submit(store: OperationStore, form: Form,
                parseFloat: string -> Result<real, string>,
                parseKey: string -> Option<Json>,
                refresh: Json -> Result<string, string>,
                post: (string, Json, string) -> Result<Json, string>)
    returns (reply: Reply, effects: seq<Effect>)
    requires store.Valid()
    modifies store
    ensures store.Valid()
    ensures Validate(form).Failure? ==>
              reply == BadRequest(Validate(form).error) && effects == [] && unchanged(store)
    ensures Validate(form).Success? && !Checked(form, parseFloat) ==>
              && reply == BadRequest(InvalidScore(PayloadOf(form, Validate(form).value.uri, parseFloat).error))
              && effects == [] && unchanged(store)
    ensures Checked(form, parseFloat) && form.saKey.None? ==>
              reply == BadRequest(MissingField("sa_key")) && effects == [] && unchanged(store)
    ensures effects != [] ==> Checked(form, parseFloat) && form.saKey.Some? && effects[0] == ParseKey
    ensures KeyRejected(form, parseFloat, parseKey) ==>
              reply == BadRequest(KeyNotJson) && effects == [ParseKey] && unchanged(store)
    ensures TokenRefused(form, parseFloat, parseKey, refresh) ==>
              && reply == BadRequest(KeyUnusable(refresh(KeyOf(form, parseKey).value).error))
              && effects == [ParseKey, RefreshCredentials] && unchanged(store)
    ensures Posted(form, parseFloat, parseKey, refresh) && Response(form, parseFloat, parseKey, refresh, post).Failure? ==>
              && reply == BadRequest(Raised(Response(form, parseFloat, parseKey, refresh, post).error))
              && effects == PostTrace(form, parseFloat) && unchanged(store)
    ensures Posted(form, parseFloat, parseKey, refresh) && Response(form, parseFloat, parseKey, refresh, post).Success? ==>
              var result := Response(form, parseFloat, parseKey, refresh, post).value;
              && (NameOf(result).Unusable? ==>
                    reply == BadRequest(MalformedResult) && effects == PostTrace(form, parseFloat) && unchanged(store))
              && (NameOf(result).NoName? ==>
                    reply == Ok(result) && effects == PostTrace(form, parseFloat) && unchanged(store))
              && (NameOf(result).Named? ==>
                    && reply == Ok(result)
                    && effects == PostTrace(form, parseFloat) + [AppendLog(NameOf(result).name), StoreWrite(NameOf(result).name)]
                    && store.docs == Upsert(old(store.docs), DocId(store.sha1, NameOf(result).name),
                                            NameOf(result).name, Validate(form).value.uri,
                                            Body(form, parseFloat), store.clock)
                    && store.clock > old(store.clock)
                    && forall k :: k in old(store.docs) ==> old(store.docs)[k].created < store.clock)
  {
    var target := Validate(form);
    if target.Failure? {
      return BadRequest(target.error), [];
    }
    var built := BuildPayload(form, target.value.uri, parseFloat);
    if built.Failure? {
      return BadRequest(InvalidScore(built.error)), [];
    }
    var body := ToJson(built.value);
    if form.saKey.None? {
      return BadRequest(MissingField("sa_key")), [];
    }
    var keyInfo := parseKey(Strip(form.saKey.value));
    if keyInfo.None? {
      return BadRequest(KeyNotJson), [ParseKey];
    }
    var token := refresh(keyInfo.value);
    if token.Failure? {
      return BadRequest(KeyUnusable(token.error)), [ParseKey, RefreshCredentials];
    }
    var url := SubmitUrl(target.value.projectNumber);
    effects := [ParseKey, RefreshCredentials, PostSubmission(url, body)];
    assert effects == PostTrace(form, parseFloat);
    var response := post(url, body, token.value);
    if response.Failure? {
      return BadRequest(Raised(response.error)), effects;
    }
    var opName := NameOf(response.value);
    if opName.Unusable? {
      return BadRequest(MalformedResult), effects;
    }
    if opName.Named? {
      effects := effects + [AppendLog(opName.name), StoreWrite(opName.name)];
      store.SaveOperation(opName.name, target.value.uri, body);
    }
    reply := Ok(response.value);
  }
}
