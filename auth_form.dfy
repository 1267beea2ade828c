/**
 * The login/register dialog (frontend/src/components/AuthForm.tsx): its fields,
 * the mode flag, the submit handler that posts the form, stores the session on
 * success and shows an error otherwise, and the mode toggle.
 *
 * The network is the parameter `fetch`; `onAuthSuccess` is modelled by what it
 * is called with, returned as `notified`.
 */
module AuthFormView {

  import opened Basics
  import opened Text
  import opened Json
  import opened Browser
  import opened Gateway
  import SessionStore

  const LoginUrl: string := "/api/resume/auth/login"
  const RegisterUrl: string := "/api/resume/auth/register"
  const MinPasswordLength: nat := 8
  const AuthFailed: string := "Authentication failed"
  /** The message of the `SyntaxError` `response.json()` rejects with. */
  const BodyNotJson: string := "Unexpected token in JSON"

  /** The message of the `TypeError` raised by reading `prop` of `null`. */
  function NullRead(prop: string): string
  {
    "Cannot read properties of null (reading '" + prop + "')"
  }

  /** `String(v)` for a parsed value. */
  function JsString(v: Json): string
  {
    match v
    case Null => "null"
    case Bool(b) => if b then "true" else "false"
    case Num(n) => IntToString(n)
    case Str(s) => s
    case Arr(items) => JsItems(items)
    case Obj(_) => "[object Object]"
  }

  /** `Array.prototype.join(",")`, which writes `null` items as empty text. */
  function JsItems(items: seq<Json>): string
  {
    if items == [] then ""
    else
      var first := if items[0] == Null then "" else JsString(items[0]);
      if |items| == 1 then first else first + "," + JsItems(items[1..])
  }

  /** The endpoint of each mode. */
  function Endpoint(isLogin: bool): (e: string)
    ensures e == LoginUrl <==> isLogin
    ensures e == RegisterUrl <==> !isLogin
  {
    if isLogin then LoginUrl else RegisterUrl
  }

  /** The posted object: email and password, and the name only when registering. */
  function RequestBody(isLogin: bool, email: string, password: string, name: string): (body: Json)
    ensures Get(body, "email") == Some(Str(email)) && Get(body, "password") == Some(Str(password))
    ensures Get(body, "name").Some? <==> !isLogin
    ensures !isLogin ==> Get(body, "name") == Some(Str(name))
  {
    var both := [Member("email", Str(email)), Member("password", Str(password))];
    assert "email"[0] != "password"[0] && "name"[0] !in {"email"[0], "password"[0]};
    assert both[..1] == [Member("email", Str(email))];
    assert LastValue(both, "email") == Some(Str(email));
    if isLogin then Obj(both)
    else
      var all := both + [Member("name", Str(name))];
      assert all[..2] == both;
      Obj(all)
  }

  /** `JSON.stringify` of a field, "undefined" text when the field is missing. */
  function StoredUser(user: Option<Json>): (t: string)
    ensures user.Some? ==> Parse(t) == user
    ensures user.None? ==> t == "undefined"
  {
    match user
    case None => "undefined"
    case Some(u) =>
      ParseStringify(u);
      Stringify(u)
  }

  /** What a submit comes to, once the request has settled. */
  datatype Outcome =
    | Failed(message: string)
      /** The texts written under `token` and `user`, and the values `onAuthSuccess` receives. */
    | Succeeded(tokenText: string, userText: string, token: Option<Json>, user: Option<Json>)

  /** `response.ok`. */
  predicate IsOk(status: int)
  {
    200 <= status <= 299
  }

  /**
   * A submit given the settled request: a rejected request, a body that is not
   * JSON and a non-2xx status fail; the last with the server's `error` field when
   * it is truthy, "Authentication failed" otherwise. A 2xx with a JSON body
   * succeeds: the token is stored as `String(data.token)` and the user as
   * `JSON.stringify(data.user)`; a missing field is stored as "undefined".
   */
  function SubmitOutcome(sent: Result<Response, string>): (out: Outcome)
    ensures sent.Err? ==> out == Failed(sent.error)
    ensures out.Succeeded? <==> sent.Ok? && IsOk(sent.value.status) && Parse(sent.value.body).Some?
                                 && Parse(sent.value.body).value != Null
    ensures sent.Ok? && !IsOk(sent.value.status) && Parse(sent.value.body).Some? ==>
      var data := Parse(sent.value.body).value;
      var field := Get(data, "error");
      && (data != Null && field.Some? && TruthyValue(field.value) ==> out == Failed(JsString(field.value)))
      && (data != Null && (field.None? || !TruthyValue(field.value)) ==> out == Failed(AuthFailed))
    ensures out.Succeeded? ==>
      var data := Parse(sent.value.body).value;
      && out.token == Get(data, "token") && out.user == Get(data, "user")
      && (out.user.Some? ==> Parse(out.userText) == out.user)
      && (out.token.Some? && out.token.value.Str? ==> out.tokenText == out.token.value.s)
  {
    match sent
    case Err(msg) => Failed(msg)
    case Ok(response) =>
      match Parse(response.body)
      case None => Failed(BodyNotJson)
      case Some(data) =>
        if !IsOk(response.status) then
          if data == Null then Failed(NullRead("error"))
          else
            var field := Get(data, "error");
            if field.Some? && TruthyValue(field.value) then Failed(JsString(field.value)) else Failed(AuthFailed)
        else if data == Null then Failed(NullRead("token"))
        else
          var token := Get(data, "token");
          var user := Get(data, "user");
          Succeeded(if token.Some? then JsString(token.value) else "undefined", StoredUser(user), token, user)
  }

  /**
   * After a successful submit whose response carries a non-empty string token and
   * a user, the next mount of the session provider restores exactly that session.
   */
  lemma SuccessIsRestorable(sent: Result<Response, string>, entries: map<string, string>, s: SessionStore.Session)
    requires SubmitOutcome(sent).Succeeded?
    requires var out := SubmitOutcome(sent);
      out.token.Some? && out.token.value.Str? && out.token.value.s != [] && out.user.Some?
    ensures var out := SubmitOutcome(sent);
      SessionStore.Restored(entries[SessionStore.TokenKey := out.tokenText][SessionStore.UserKey := out.userText], s)
        == Ok(SessionStore.Session(Some(out.token.value.s), out.user))
  {
    var out := SubmitOutcome(sent);
    var stored := entries[SessionStore.TokenKey := out.tokenText][SessionStore.UserKey := out.userText];
    assert SessionStore.Stored(stored, SessionStore.TokenKey) == Some(out.tokenText);
    assert SessionStore.Stored(stored, SessionStore.UserKey) == Some(out.userText);
    assert out.userText == Stringify(out.user.value);
  }

  /** A success without a `user` field stores "undefined", which the next mount fails to parse. */
  lemma MissingUserBreaksRestore(sent: Result<Response, string>, entries: map<string, string>, s: SessionStore.Session)
    requires SubmitOutcome(sent).Succeeded?
    requires var out := SubmitOutcome(sent); out.user.None? && out.tokenText != []
    ensures SessionStore.Restored(entries[SessionStore.TokenKey := SubmitOutcome(sent).tokenText]
                                         [SessionStore.UserKey := SubmitOutcome(sent).userText], s).Err?
  {
    var out := SubmitOutcome(sent);
    var stored := entries[SessionStore.TokenKey := out.tokenText][SessionStore.UserKey := out.userText];
    assert SessionStore.Stored(stored, SessionStore.TokenKey) == Some(out.tokenText);
    assert SessionStore.Stored(stored, SessionStore.UserKey) == Some("undefined");
    assert ParseNumber("undefined") == None by {
      assert DigitRun("undefined") == 0;
    }
    assert Parse("undefined") == None;
  }

  /** The dialog's state. */
  class AuthForm {
    var isLogin: bool
    var email: string
    var password: string
    var name: string
    var loading: bool
    var error: string
    const storage: LocalStorage

    /** The dialog opens in login mode with empty fields. */
    constructor (storage: LocalStorage)
      ensures isLogin && email == [] && password == [] && name == [] && !loading && error == []
      ensures this.storage == storage
    {
      isLogin := true;
      email := [];
      password := [];
      name := [];
      loading := false;
      error := [];
      this.storage := storage;
    }

    /**
     * The browser lets the form submit: the button is enabled (not loading), the
     * email is filled in, and the password has at least 8 characters, in both modes.
     */
    predicate CanSubmit()
      reads this
      ensures loading ==> !CanSubmit()
      ensures email == [] ==> !CanSubmit()
      ensures |password| < MinPasswordLength ==> !CanSubmit()
    {
      !loading && email != [] && |password| >= MinPasswordLength
    }

    /** `handleSubmit`, run to the end of its `finally`. */
    method HandleSubmit(fetch: Fetch) returns (notified: Option<(Option<Json>, Option<Json>)>)
      modifies this, storage
      ensures !loading
      ensures isLogin == old(isLogin) && email == old(email) && password == old(password) && name == old(name)
      ensures var out := SubmitOutcome(fetch(Endpoint(old(isLogin)),
                RequestInit(Some("POST"), map[ContentType := "application/json"],
                            Some(Stringify(RequestBody(old(isLogin), old(email), old(password), old(name)))), map[])));
        && (out.Failed? ==> error == out.message && notified == None && storage.entries == old(storage.entries))
        && (out.Succeeded? ==>
              error == [] && notified == Some((out.token, out.user))
              && storage.entries == old(storage.entries)[SessionStore.TokenKey := out.tokenText][SessionStore.UserKey := out.userText])
    {
      error := [];
      loading := true;
      var body := RequestBody(isLogin, email, password, name);
      var sent := fetch(Endpoint(isLogin),
                        RequestInit(Some("POST"), map[ContentType := "application/json"], Some(Stringify(body)), map[]));
      var out := SubmitOutcome(sent);
      if out.Failed? {
        error := out.message;
        notified := None;
      } else {
        storage.SetItem(SessionStore.TokenKey, out.tokenText);
        storage.SetItem(SessionStore.UserKey, out.userText);
        notified := Some((out.token, out.user));
      }
      loading := false;
    }

    /** The mode toggle: flips the mode and clears the error, keeping what was typed. */
    method ToggleMode()
      modifies this
      ensures isLogin == !old(isLogin) && error == []
      ensures email == old(email) && password == old(password) && name == old(name) && loading == old(loading)
    {
      isLogin := !isLogin;
      error := [];
    }
  }
}
