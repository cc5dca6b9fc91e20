/** The HTTP client's error interceptor: every failed request is classified by its
    network and timeout flags and its status, given the server's own message when the
    body carries one, and, for validation errors, the per-field messages of the body. */
module ErrorInterceptor {
  import opened Wrappers
  import Seqs
  import opened Json

  datatype ApiErrorType =
    | NetworkError
    | TimeoutError
    | ValidationError
    | AuthError
    | NotFoundError
    | ConflictError
    | RateLimitError
    | ServerError
    | UnknownError

  /** The default message of each kind of error. */
  function ErrorMessage(t: ApiErrorType): string {
    match t
    case NetworkError => "Erro de conexão. Verifique sua internet e tente novamente."
    case TimeoutError => "A requisição demorou muito. Tente novamente."
    case ValidationError => "Dados inválidos. Verifique os campos e tente novamente."
    case AuthError => "Você não tem permissão para acessar este recurso."
    case NotFoundError => "O recurso solicitado não foi encontrado."
    case ConflictError => "Conflito ao processar a requisição. O recurso pode já existir."
    case RateLimitError => "Muitas requisições. Aguarde alguns segundos e tente novamente."
    case ServerError => "Erro interno do servidor. Tente novamente mais tarde."
    case UnknownError => "Ocorreu um erro inesperado. Tente novamente."
  }

  /** What the client hands the interceptor: the two flags, the status when there was a
      response, and the parsed body when there was one. */
  datatype HttpError = HttpError(isNetworkError: bool, isTimeoutError: bool, status: Option<int>, data: Option<Json>)

  /** `getErrorType`: the network flag wins, then the timeout flag, then the status. */
  function GetErrorType(e: HttpError): (r: ApiErrorType)
    ensures r == NetworkError <==> e.isNetworkError
    ensures r == TimeoutError <==> !e.isNetworkError && e.isTimeoutError
    ensures var byStatus := !e.isNetworkError && !e.isTimeoutError;
            && (r == ValidationError <==> byStatus && (e.status == Some(400) || e.status == Some(422)))
            && (r == AuthError <==> byStatus && (e.status == Some(401) || e.status == Some(403)))
            && (r == NotFoundError <==> byStatus && e.status == Some(404))
            && (r == ConflictError <==> byStatus && e.status == Some(409))
            && (r == RateLimitError <==> byStatus && e.status == Some(429))
            && (r == ServerError <==> byStatus && e.status.Some? && e.status.value in {500, 502, 503, 504})
    ensures r == UnknownError <==>
              !e.isNetworkError && !e.isTimeoutError
              && (e.status.None? || e.status.value !in {400, 422, 401, 403, 404, 409, 429, 500, 502, 503, 504})
  {
    if e.isNetworkError then NetworkError
    else if e.isTimeoutError then TimeoutError
    else match e.status
      case None => UnknownError
      case Some(s) =>
        if s == 400 || s == 422 then ValidationError
        else if s == 401 || s == 403 then AuthError
        else if s == 404 then NotFoundError
        else if s == 409 then ConflictError
        else if s == 429 then RateLimitError
        else if s == 500 || s == 502 || s == 503 || s == 504 then ServerError
        else UnknownError
  }

  /** `errorObj.message ?? errorObj.msg`. */
  function MessageOrMsg(v: Json): Option<Json> {
    Coalesce(Get(v, "message"), Get(v, "msg"))
  }

  /** Whether an object has a string under `key`. */
  predicate StringField(v: Json, key: string) {
    Get(v, key).Some? && Get(v, key).value.JStr?
  }

  /** `extractErrorMessage`: from an object body, a string `message`, else a string
      `error`, else the first entry of a non-empty `errors` array when it is a string,
      or its `message` (or `msg`) when it is an object. */
  function ExtractErrorMessage(e: HttpError): (r: Option<Json>)
    ensures r.Some? ==> e.data.Some? && e.data.value.JObj?
    ensures e.data.Some? && StringField(e.data.value, "message") ==> r == Get(e.data.value, "message")
    ensures e.data.Some? && !StringField(e.data.value, "message") && StringField(e.data.value, "error")
            ==> r == Get(e.data.value, "error")
    ensures e.data.Some? && !StringField(e.data.value, "message") && !StringField(e.data.value, "error") ==>
              var errors := Get(e.data.value, "errors");
              if errors.Some? && errors.value.JArr? && |errors.value.items| > 0 then
                var first := errors.value.items[0];
                && (first.JStr? ==> r == Some(first))
                && (first.JObj? ==> r == Coalesce(Get(first, "message"), Get(first, "msg")))
                && (!first.JStr? && !first.JObj? ==> r == None)
              else r == None
  {
    if e.data.None? || !IsObject(e.data.value) then None
    else
      var data := e.data.value;
      var message, error, errors := Get(data, "message"), Get(data, "error"), Get(data, "errors");
      if message.Some? && message.value.JStr? then message
      else if error.Some? && error.value.JStr? then error
      else if errors.Some? && errors.value.JArr? && |errors.value.items| > 0 then
        var first := errors.value.items[0];
        if first.JStr? then Some(first)
        else if IsObject(first) then MessageOrMsg(first)
        else None
      else None
  }

  /** The field an entry of an `errors` array is filed under: its `field`, else its
      `path`, else "general"; a key that is not a string is turned into one by `keyOf`
      (JavaScript's property-key conversion). */
  function FieldOf(err: Json, keyOf: Json -> string): string {
    var f := Coalesce(Coalesce(Get(err, "field"), Get(err, "path")), Some(JStr("general")));
    if f.value.JStr? then f.value.s else keyOf(f.value)
  }

  /** The message an entry contributes: its `message`, else its `msg`, else the default. */
  function MessageFor(err: Json): Json {
    Coalesce(MessageOrMsg(err), Some(JStr("Erro de validação"))).value
  }

  /** The entries filed under `key`, in their order: those that are objects (or arrays)
      and whose field is `key`. */
  function FiledUnder(errs: seq<Json>, key: string, keyOf: Json -> string): seq<Json> {
    Seqs.Filter(errs, (err: Json) => IsObject(err) && FieldOf(err, keyOf) == key)
  }

  /** The messages of a list of entries, in order. */
  function Messages(errs: seq<Json>): (r: seq<Json>)
    ensures |r| == |errs| && forall k :: 0 <= k < |errs| ==> r[k] == MessageFor(errs[k])
  {
    seq(|errs|, k requires 0 <= k < |errs| => MessageFor(errs[k]))
  }

  /** What the `forEach` over an `errors` array has built after the given entries: each
      object entry's message pushed onto its field's list. */
  function Grouped(errs: seq<Json>, keyOf: Json -> string): map<string, seq<Json>> {
    if |errs| == 0 then map[]
    else
      var g := Grouped(errs[..|errs| - 1], keyOf);
      var err := errs[|errs| - 1];
      if IsObject(err) then
        var key := FieldOf(err, keyOf);
        g[key := (if key in g then g[key] else []) + [MessageFor(err)]]
      else g
  }

  /** Each field of the grouping holds exactly the messages of the entries filed under
      it, in their order, and a field is present only when some entry is filed under it. */
  lemma {:induction false} GroupedSpec(errs: seq<Json>, keyOf: Json -> string, key: string)
    ensures key in Grouped(errs, keyOf) <==> FiledUnder(errs, key, keyOf) != []
    ensures key in Grouped(errs, keyOf) ==> Grouped(errs, keyOf)[key] == Messages(FiledUnder(errs, key, keyOf))
  {
    if |errs| > 0 {
      var init, err := errs[..|errs| - 1], errs[|errs| - 1];
      GroupedSpec(init, keyOf, key);
      assert errs == init + [err];
      FiledUnderSnoc(init, err, key, keyOf);
      if IsObject(err) && FieldOf(err, keyOf) == key {
        MessagesSnoc(FiledUnder(init, key, keyOf), err);
      }
    }
  }

  lemma FiledUnderSnoc(init: seq<Json>, err: Json, key: string, keyOf: Json -> string)
    ensures FiledUnder(init + [err], key, keyOf)
         == FiledUnder(init, key, keyOf) + (if IsObject(err) && FieldOf(err, keyOf) == key then [err] else [])
  {
    var p := (e: Json) => IsObject(e) && FieldOf(e, keyOf) == key;
    Seqs.FilterAppend(init, [err], p);
    assert Seqs.Filter([err], p) == if p(err) then [err] else [];
  }

  lemma MessagesSnoc(xs: seq<Json>, x: Json)
    ensures Messages(xs + [x]) == Messages(xs) + [MessageFor(x)]
  {
  }

  /** The `forEach` over an `errors` array, pushing each object entry's message onto its
      field's list. */
  method GroupByField(errs: seq<Json>, keyOf: Json -> string) returns (errors: map<string, seq<Json>>)
    ensures errors == Grouped(errs, keyOf)
  {
    errors := map[];
    for i := 0 to |errs|
      invariant errors == Grouped(errs[..i], keyOf)
    {
      var err := errs[i];
      assert errs[..i + 1][..i] == errs[..i];
      if IsObject(err) {
        var field := FieldOf(err, keyOf);
        if field !in errors {
          errors := errors[field := []];
        }
        errors := errors[field := errors[field] + [MessageFor(err)]];
      }
    }
    assert errs[..|errs|] == errs;
  }

  /** What `extractValidationErrors` returns: an `errors` object as it is, or the
      messages of an `errors` array grouped by field. */
  datatype ValidationErrors =
    | AsGiven(byKey: map<string, Json>)
    | ByField(messages: map<string, seq<Json>>)

  /** `extractValidationErrors`: an object `errors` is passed through; an array is
      grouped by field, and nothing is returned when no entry was grouped. */
  function ValidationErrorsOf(e: HttpError, keyOf: Json -> string): (r: Option<ValidationErrors>)
    ensures r.Some? ==> e.data.Some? && Get(e.data.value, "errors").Some?
    ensures r.Some? && r.value.ByField? ==> r.value.messages != map[]
    ensures e.data.Some? && Get(e.data.value, "errors").Some? && Get(e.data.value, "errors").value.JObj?
            ==> r == Some(AsGiven(Get(e.data.value, "errors").value.fields))
  {
    if e.data.None? || !IsObject(e.data.value) then None
    else
      match Get(e.data.value, "errors")
      case Some(JObj(m)) => Some(AsGiven(m))
      case Some(JArr(xs)) =>
        var g := Grouped(xs, keyOf);
        if |g| > 0 then Some(ByField(g)) else None
      case _ => None
  }

  method ExtractValidationErrors(e: HttpError, keyOf: Json -> string) returns (r: Option<ValidationErrors>)
    ensures r == ValidationErrorsOf(e, keyOf)
  {
    if e.data.None? || !IsObject(e.data.value) {
      return None;
    }
    var errors := Get(e.data.value, "errors");
    if errors.Some? && errors.value.JObj? {
      return Some(AsGiven(errors.value.fields));
    }
    if errors.Some? && errors.value.JArr? {
      var g := GroupByField(errors.value.items, keyOf);
      if |g| > 0 {
        return Some(ByField(g));
      }
      return None;
    }
    return None;
  }

  datatype ApiError = ApiError(
    errorType: ApiErrorType,
    message: Json,
    status: Option<int>,
    originalError: HttpError,
    validationErrors: Option<ValidationErrors>)

  /** `transformError`: the kind, the server's message or else the kind's default, the
      status, the original error, and validation details for validation errors only. */
  method TransformError(e: HttpError, keyOf: Json -> string) returns (r: ApiError)
    ensures r.errorType == GetErrorType(e) && r.status == e.status && r.originalError == e
    ensures !Nullish(ExtractErrorMessage(e)) ==> r.message == ExtractErrorMessage(e).value
    ensures Nullish(ExtractErrorMessage(e)) ==> r.message == JStr(ErrorMessage(r.errorType))
    ensures r.validationErrors.Some? ==> r.errorType == ValidationError
    ensures r.errorType == ValidationError ==> r.validationErrors == ValidationErrorsOf(e, keyOf)
  {
    var t := GetErrorType(e);
    var custom := ExtractErrorMessage(e);
    var validation := None;
    if t == ValidationError {
      validation := ExtractValidationErrors(e, keyOf);
    }
    var message := if Nullish(custom) then JStr(ErrorMessage(t)) else custom.value;
    r := ApiError(t, message, e.status, e, validation);
  }
}
