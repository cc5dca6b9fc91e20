/** Turning a caught error into what the screen shows: a title, a message, the server's
    error code and status, and for invalid data the list of issues; plus the two checks
    that decide between a session refresh and a return to the login page, and the
    per-field map of validation messages for forms.

    The error codes are compared as strings; each code's string is taken to be its own
    name (`auth.types.ts`, which declares them, is not part of this model). */
module ErrorHandler {
  import opened Wrappers
  import opened Json

  const AccessTokenRequired := "ACCESS_TOKEN_REQUIRED"
  const InvalidAccessToken := "INVALID_ACCESS_TOKEN"
  const RefreshTokenRequired := "REFRESH_TOKEN_REQUIRED"
  const RefreshTokenExpired := "REFRESH_TOKEN_EXPIRED"
  const InvalidRefreshToken := "INVALID_REFRESH_TOKEN"
  const UserNotFound := "USER_NOT_FOUND"

  datatype ProcessedError = ProcessedError(
    title: string,
    message: Json,
    code: Option<Json>,
    status: Option<Json>,
    issues: Option<Json>)

  /** `isApiError`: an object with a `response` object holding a `data` object that has
      an `error` property. */
  predicate IsApiError(error: Json) {
    var response := Get(error, "response");
    response.Some? && IsObject(response.value)
    && var data := Get(response.value, "data");
       data.Some? && IsObject(data.value) && Get(data.value, "error").Some?
  }

  /** `a || b` where `b` is a default message. */
  function OrDefault(a: Option<Json>, default: string): (r: Json)
    ensures a.Some? && Truthy(a.value) ==> r == a.value
    ensures !(a.Some? && Truthy(a.value)) ==> r == JStr(default)
  {
    if a.Some? && Truthy(a.value) then a.value else JStr(default)
  }

  /** The response of an API error. */
  function ResponseOf(error: Json): Json
    requires IsApiError(error)
  {
    Get(error, "response").value
  }

  /** `data.error` of an API error. */
  function ErrorBody(error: Json): Json
    requires IsApiError(error)
  {
    Get(Get(ResponseOf(error), "data").value, "error").value
  }

  /** The title `handleApiError` gives an API error with this status and code. */
  function Title(status: Option<Json>, code: Option<Json>): string {
    if status == Some(JNum(400)) then "Dados Inválidos"
    else if status == Some(JNum(401)) then
      if code == Some(JStr(AccessTokenRequired)) then "Não Autenticado"
      else if code == Some(JStr(InvalidAccessToken)) then "Sessão Expirada"
      else if code == Some(JStr(RefreshTokenRequired)) then "Sessão Encerrada"
      else "Não Autorizado"
    else if status == Some(JNum(404)) then "Não Encontrado"
    else if status == Some(JNum(422)) then
      if code == Some(JStr(RefreshTokenExpired)) then "Sessão Expirada"
      else if code == Some(JStr(InvalidRefreshToken)) then "Sessão Inválida"
      else if code == Some(JStr(UserNotFound)) then "Usuário Não Encontrado"
      else "Erro de Validação"
    else if status == Some(JNum(500)) then "Erro no Servidor"
    else "Erro"
  }

  /** The statuses and codes whose message is fixed, whatever the server said. */
  predicate FixedMessage(status: Option<Json>, code: Option<Json>) {
    (status == Some(JNum(401))
     && code in {Some(JStr(AccessTokenRequired)), Some(JStr(InvalidAccessToken)), Some(JStr(RefreshTokenRequired))})
    || (status == Some(JNum(422))
        && code in {Some(JStr(RefreshTokenExpired)), Some(JStr(InvalidRefreshToken)), Some(JStr(UserNotFound))})
    || status == Some(JNum(500))
  }

  /** The fixed message of such a status and code. */
  function FixedText(status: Option<Json>, code: Option<Json>): string {
    if status == Some(JNum(401)) then
      if code == Some(JStr(AccessTokenRequired)) then "Por favor, faça login para continuar."
      else if code == Some(JStr(InvalidAccessToken)) then "Sua sessão expirou. Tentando renovar..."
      else "Por favor, faça login novamente."
    else if status == Some(JNum(422)) then
      if code == Some(JStr(RefreshTokenExpired)) then "Sua sessão expirou. Por favor, faça login novamente."
      else if code == Some(JStr(InvalidRefreshToken)) then "Sua sessão é inválida. Por favor, faça login novamente."
      else "Sua conta não foi encontrada. Entre em contato com o suporte."
    else "Ocorreu um erro inesperado. Tente novamente mais tarde."
  }

  /** The message used when the server sent none (or an empty one). */
  function DefaultText(status: Option<Json>): string {
    if status == Some(JNum(400)) then "Por favor, verifique os dados informados."
    else if status == Some(JNum(401)) then "Você não tem permissão para acessar este recurso."
    else if status == Some(JNum(404)) then "O recurso solicitado não foi encontrado."
    else if status == Some(JNum(422)) then "Não foi possível processar sua solicitação."
    else "Ocorreu um erro inesperado. Tente novamente."
  }

  const ConnectionError :=
    ProcessedError("Erro de Conexão",
                   JStr("Não foi possível conectar ao servidor. Verifique sua conexão com a internet."),
                   None, None, None)

  /** `handleApiError`. Every API error has a response object, so the second "no
      response" branch of `handleApiError` is never taken. */
  function HandleApiError(error: Json): (r: ProcessedError)
    ensures !IsApiError(error) ==> r == ConnectionError
    ensures IsApiError(error) ==>
              && r.code == Get(ErrorBody(error), "code")
              && r.status == Get(ResponseOf(error), "status")
              && r.title == Title(r.status, r.code)
    ensures r.issues.Some? ==> IsApiError(error) && r.status == Some(JNum(400))
    ensures IsApiError(error) && r.status == Some(JNum(400)) ==> r.issues == Get(ErrorBody(error), "issues")
    ensures IsApiError(error) && FixedMessage(r.status, r.code) ==> r.message == JStr(FixedText(r.status, r.code))
    ensures IsApiError(error) && !FixedMessage(r.status, r.code) ==>
              r.message == OrDefault(Get(ErrorBody(error), "message"), DefaultText(r.status))
  {
    if !IsApiError(error) then ConnectionError
    else
      var status := Get(ResponseOf(error), "status");
      var body := ErrorBody(error);
      var code := Get(body, "code");
      var message :=
        if FixedMessage(status, code) then JStr(FixedText(status, code))
        else OrDefault(Get(body, "message"), DefaultText(status));
      ProcessedError(Title(status, code), message, code, status,
                     if status == Some(JNum(400)) then Get(body, "issues") else None)
  }

  /** The codes after which the user must sign in again. */
  const LoginCodes: seq<Json> :=
    [JStr(RefreshTokenExpired), JStr(InvalidRefreshToken), JStr(UserNotFound), JStr(RefreshTokenRequired)]

  /** `shouldRedirectToLogin`: no (or a falsy) code never redirects; otherwise the code
      must be one of the four listed. */
  function ShouldRedirectToLogin(error: ProcessedError): (b: bool)
    ensures b <==> error.code.Some? && error.code.value in LoginCodes
  {
    if error.code.None? || !Truthy(error.code.value) then false
    else error.code.value in LoginCodes
  }

  /** `shouldAttemptTokenRefresh`. */
  function ShouldAttemptTokenRefresh(error: ProcessedError): (b: bool)
    ensures b ==> !ShouldRedirectToLogin(error)
    ensures b <==> error.status == Some(JNum(401)) && error.code == Some(JStr(InvalidAccessToken))
  {
    error.status == Some(JNum(401)) && error.code == Some(JStr(InvalidAccessToken))
  }

  /** An expired access token leads to a refresh and a missing refresh token to the
      login page. */
  lemma SessionOutcomes(error: Json)
    requires IsApiError(error) && Get(ResponseOf(error), "status") == Some(JNum(401))
    ensures Get(ErrorBody(error), "code") == Some(JStr(InvalidAccessToken)) ==>
              ShouldAttemptTokenRefresh(HandleApiError(error)) && HandleApiError(error).title == "Sessão Expirada"
    ensures Get(ErrorBody(error), "code") == Some(JStr(RefreshTokenRequired)) ==>
              ShouldRedirectToLogin(HandleApiError(error)) && !ShouldAttemptTokenRefresh(HandleApiError(error))
  {
  }

  datatype Issue = Issue(path: seq<string>, message: string)

  /** `parts.join(sep)`. */
  function Join(parts: seq<string>, sep: string): string {
    if |parts| == 0 then ""
    else if |parts| == 1 then parts[0]
    else parts[0] + sep + Join(parts[1..], sep)
  }

  /** The `reduce` of `formatValidationErrors` after the given issues: each issue's
      message stored under its joined path, a later one overwriting an earlier one. */
  function Formatted(issues: seq<Issue>): map<string, string> {
    if |issues| == 0 then map[]
    else
      var last := issues[|issues| - 1];
      Formatted(issues[..|issues| - 1])[Join(last.path, ".") := last.message]
  }

  /** `formatValidationErrors`: no issues give an empty map. */
  function FormatValidationErrors(issues: Option<seq<Issue>>): (r: map<string, string>)
    ensures issues.None? ==> r == map[]
  {
    if issues.None? then map[] else Formatted(issues.value)
  }

  /** A key is present exactly when some issue's path joins to it. */
  lemma {:induction false} FormattedKeys(issues: seq<Issue>, key: string)
    ensures key in Formatted(issues) <==> exists i :: 0 <= i < |issues| && Join(issues[i].path, ".") == key
  {
    if |issues| > 0 {
      var init := issues[..|issues| - 1];
      FormattedKeys(init, key);
      if exists i :: 0 <= i < |issues| && Join(issues[i].path, ".") == key {
        var i :| 0 <= i < |issues| && Join(issues[i].path, ".") == key;
        if i < |init| {
          assert init[i] == issues[i];
        }
      }
      if exists i :: 0 <= i < |init| && Join(init[i].path, ".") == key {
        var i :| 0 <= i < |init| && Join(init[i].path, ".") == key;
        assert issues[i] == init[i];
      }
    }
  }

  /** A present key holds the message of the last issue whose path joins to it. */
  lemma {:induction false} FormattedLastWins(issues: seq<Issue>, key: string)
    requires key in Formatted(issues)
    ensures exists i :: 0 <= i < |issues| && Join(issues[i].path, ".") == key
                        && Formatted(issues)[key] == issues[i].message
                        && forall j :: i < j < |issues| ==> Join(issues[j].path, ".") != key
  {
    var init, last := issues[..|issues| - 1], issues[|issues| - 1];
    if Join(last.path, ".") == key {
      assert Formatted(issues)[key] == issues[|issues| - 1].message;
    } else {
      FormattedLastWins(init, key);
      var i :| 0 <= i < |init| && Join(init[i].path, ".") == key && Formatted(init)[key] == init[i].message
               && forall j :: i < j < |init| ==> Join(init[j].path, ".") != key;
      assert issues[i] == init[i];
      assert forall j :: i < j < |issues| ==> Join(issues[j].path, ".") != key by {
        forall j | i < j < |issues| ensures Join(issues[j].path, ".") != key {
          if j < |init| { assert issues[j] == init[j]; }
        }
      }
    }
  }
}
