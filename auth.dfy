/**
 * The authentication handlers: login with the optional `auto_login`
 * update, the session token and its decoding, the current-user lookup,
 * and the new-password rules. Password hashing and verification are
 * library calls: verification is an input, and a password change names
 * the password the stored hash is made from. The token is the JSON text
 * `{"userId":"…","timestamp":…}`; its base64 encoding, a bijection on the
 * text's bytes, is not part of this model.
 */
module Auth {
  import opened Wrappers
  import opened Text
  import opened RecordRules

  // ---------------------------------------------------------------------
  // JSON strings

  predicate NoControlChars(s: string) { forall i :: 0 <= i < |s| ==> s[i] >= ' ' }

  /** `JSON.stringify`'s escaping of a string without control characters:
      a backslash before each `"` and `\`. */
  function JsonEscape(s: string): (r: string)
    ensures |r| >= |s|
  {
    if s == [] then []
    else (if s[0] == '"' || s[0] == '\\' then ['\\', s[0]] else [s[0]]) + JsonEscape(s[1..])
  }

  /** The body of a JSON string literal up to its closing quote, and the
      text after it; `None` for an unterminated literal, a raw control
      character, or an escape other than the two `JsonEscape` writes. */
  function ParseJsonBody(t: string): (r: Option<(string, string)>)
    ensures r.Some? ==> |r.value.1| < |t| && r.value.1 == t[|t| - |r.value.1|..]
    decreases |t|
  {
    if t == [] then None
    else if t[0] == '"' then Some(([], t[1..]))
    else if t[0] < ' ' then None
    else if t[0] == '\\' then
      if |t| < 2 || !(t[1] == '"' || t[1] == '\\') then None
      else match ParseJsonBody(t[2..])
        case None => None
        case Some(p) => Some(([t[1]] + p.0, p.1))
    else match ParseJsonBody(t[1..])
      case None => None
      case Some(p) => Some(([t[0]] + p.0, p.1))
  }

  /** Parsing an escaped string gives it back, with the text after its
      closing quote. */
  lemma {:induction false} ParseJsonBodyOfEscape(s: string, tail: string)
    requires NoControlChars(s)
    ensures ParseJsonBody(JsonEscape(s) + "\"" + tail) == Some((s, tail))
    decreases |s|
  {
    if s == [] {
      assert JsonEscape(s) + "\"" + tail == "\"" + tail;
    } else {
      var rest := s[1..];
      assert NoControlChars(rest) by {
        forall i | 0 <= i < |rest| ensures rest[i] >= ' ' {
          assert rest[i] == s[i + 1];
        }
      }
      ParseJsonBodyOfEscape(rest, tail);
      ConsStep(s, tail);
    }
  }

  /** The inductive step: one more character in front of the string. */
  lemma ConsStep(s: string, tail: string)
    requires s != [] && s[0] >= ' '
    requires ParseJsonBody(JsonEscape(s[1..]) + "\"" + tail) == Some((s[1..], tail))
    ensures ParseJsonBody(JsonEscape(s) + "\"" + tail) == Some((s, tail))
  {
    assert [s[0]] + s[1..] == s;
    var u := JsonEscape(s[1..]) + "\"" + tail;
    if s[0] == '"' || s[0] == '\\' {
      EscapedStep(s[0], u, EscapedCons(s, tail));
    } else {
      PlainStep(s[0], u, PlainCons(s, tail));
    }
  }

  /** The escaped text of a string whose first character is escaped. */
  function EscapedCons(s: string, tail: string): (t: string)
    requires s != [] && (s[0] == '"' || s[0] == '\\')
    ensures t == JsonEscape(s) + "\"" + tail
    ensures t == ['\\', s[0]] + (JsonEscape(s[1..]) + "\"" + tail)
  {
    ['\\', s[0]] + (JsonEscape(s[1..]) + "\"" + tail)
  }

  /** The escaped text of a string whose first character is kept. */
  function PlainCons(s: string, tail: string): (t: string)
    requires s != [] && s[0] != '"' && s[0] != '\\'
    ensures t == JsonEscape(s) + "\"" + tail
    ensures t == [s[0]] + (JsonEscape(s[1..]) + "\"" + tail)
  {
    [s[0]] + (JsonEscape(s[1..]) + "\"" + tail)
  }

  /** One escaped character in front of a parsable literal body. */
  lemma EscapedStep(c: char, u: string, t: string)
    requires (c == '"' || c == '\\') && t == ['\\', c] + u && ParseJsonBody(u).Some?
    ensures ParseJsonBody(t) == Some(([c] + ParseJsonBody(u).value.0, ParseJsonBody(u).value.1))
  {
    assert t[0] == '\\' && t[1] == c && t[2..] == u;
  }

  /** One plain character in front of a parsable literal body. */
  lemma PlainStep(c: char, u: string, t: string)
    requires c >= ' ' && c != '"' && c != '\\' && t == [c] + u && ParseJsonBody(u).Some?
    ensures ParseJsonBody(t) == Some(([c] + ParseJsonBody(u).value.0, ParseJsonBody(u).value.1))
  {
    assert t[0] == c && t[1..] == u;
  }

  // ---------------------------------------------------------------------
  // The session token

  const UserIdKey := "{\"userId\":\""
  const TimestampKey := ",\"timestamp\":"

  /** `generateToken(userId)` at clock reading `now` (milliseconds). */
  function GenerateToken(userId: string, now: nat): (token: string)
    ensures StartsWith(token, UserIdKey)
  {
    UserIdKey + JsonEscape(userId) + "\"" + TimestampKey + NatToString(now) + "}"
  }

  /** `JSON.parse(...).userId` for a token of `generateToken`'s shape;
      `None` for a token that does not parse. */
  function TokenUserId(token: string): (r: Option<string>)
    ensures r.Some? ==> StartsWith(token, UserIdKey) && EndsWith(token, "}")
  {
    if !StartsWith(token, UserIdKey) then None
    else match ParseJsonBody(token[|UserIdKey|..])
      case None => None
      case Some(p) =>
        var rest := p.1;
        if StartsWith(rest, TimestampKey) && EndsWith(rest, "}") && |rest| > |TimestampKey| + 1
           && AllDigits(rest[|TimestampKey|..|rest| - 1])
        then Some(p.0) else None
  }

  /** Decoding a generated token yields the user id it was made for. */
  lemma TokenRoundTrip(userId: string, now: nat)
    requires NoControlChars(userId)
    ensures TokenUserId(GenerateToken(userId, now)) == Some(userId)
  {
    var token := GenerateToken(userId, now);
    var digits := NatToString(now);
    var rest := TimestampKey + digits + "}";
    assert token == UserIdKey + (JsonEscape(userId) + "\"" + rest);
    assert token[|UserIdKey|..] == JsonEscape(userId) + "\"" + rest;
    ParseJsonBodyOfEscape(userId, rest);
    assert rest[|TimestampKey|..|rest| - 1] == digits;
    assert rest[..|TimestampKey|] == TimestampKey;
  }

  // ---------------------------------------------------------------------
  // Login and the current user

  /** A users row: its id and its other columns. */
  datatype StoredUser = StoredUser(id: string, columns: Record)

  /** `const { password_hash, ...rest } = user`. */
  function WithoutPasswordHash(u: StoredUser): (r: StoredUser)
    ensures r.id == u.id && "password_hash" !in r.columns
    ensures forall k :: k != "password_hash" ==> Get(r.columns, k) == Get(u.columns, k)
  {
    StoredUser(u.id, u.columns - {"password_hash"})
  }

  datatype LoginResponse =
    | LoginOk(user: StoredUser, token: string, requiresPasswordChange: Value)
    | LoginFailed(message: string)

  const InvalidCredentials := "이메일 또는 비밀번호가 올바르지 않습니다."

  /** `handleLogin`: `found` is the users row with the email (`None` when
      there is none) and `passwordValid` what the hash verification said.
      Besides the response it returns the `auto_login` value written back
      to the row, if any. */
  method HandleLogin(found: Option<StoredUser>, passwordValid: bool, autoLogin: Option<bool>, now: nat)
    returns (r: LoginResponse, autoLoginWrite: Option<bool>)
    ensures r.LoginOk? <==> found.Some? && passwordValid
    ensures r.LoginFailed? ==> r.message == InvalidCredentials
    ensures autoLoginWrite.Some? <==>
      r.LoginOk? && autoLogin.Some? && Get(found.value.columns, "auto_login") != Bool(autoLogin.value)
    ensures autoLoginWrite.Some? ==> autoLoginWrite == autoLogin
    ensures r.LoginOk? ==>
      var u := found.value;
      && r.user.id == u.id
      && "password_hash" !in r.user.columns
      && r.requiresPasswordChange == Get(u.columns, "is_initial_password")
      && r.token == GenerateToken(u.id, now)
      && Get(r.user.columns, "auto_login") == (if autoLogin.Some? then Bool(autoLogin.value) else Get(u.columns, "auto_login"))
      && (forall k :: k != "password_hash" && k != "auto_login" ==> Get(r.user.columns, k) == Get(u.columns, k))
  {
    autoLoginWrite := None;
    if found.None? || !passwordValid {
      return LoginFailed(InvalidCredentials), None;
    }
    var user := found.value;
    if autoLogin.Some? && Get(user.columns, "auto_login") != Bool(autoLogin.value) {
      autoLoginWrite := autoLogin;
      user := StoredUser(user.id, user.columns["auto_login" := Bool(autoLogin.value)]);
    }
    var token := GenerateToken(user.id, now);
    r := LoginOk(WithoutPasswordHash(user), token, Get(user.columns, "is_initial_password"));
  }

  datatype CurrentUserResponse = CurrentUser(user: StoredUser) | CurrentUserFailed(message: string)

  const UserNotFound := "사용자를 찾을 수 없습니다."
  const CurrentUserError := "사용자 정보를 가져오는 중 오류가 발생했습니다."

  /** The users rows with id `id`. */
  function UsersWithId(users: seq<StoredUser>, id: string): (rs: seq<StoredUser>)
    ensures forall u :: u in rs <==> u in users && u.id == id
    decreases |users|
  {
    if users == [] then []
    else
      var front := UsersWithId(users[..|users| - 1], id);
      var x := users[|users| - 1];
      assert users == users[..|users| - 1] + [x];
      if x.id == id then front + [x] else front
  }

  /** `handleGetCurrentUser`: the row of the token's user id, found by a
      `.single()` lookup, without its password hash. */
  function HandleGetCurrentUser(token: string, users: seq<StoredUser>): (r: CurrentUserResponse)
    ensures r.CurrentUser? ==> "password_hash" !in r.user.columns
    ensures r.CurrentUser? ==> TokenUserId(token) == Some(r.user.id)
    ensures r.CurrentUser? ==> exists u :: u in users && u.id == r.user.id && r.user == WithoutPasswordHash(u)
    ensures TokenUserId(token).None? ==> r == CurrentUserFailed(CurrentUserError)
    ensures TokenUserId(token).Some? && |UsersWithId(users, TokenUserId(token).value)| == 1 ==>
      r == CurrentUser(WithoutPasswordHash(UsersWithId(users, TokenUserId(token).value)[0]))
    ensures TokenUserId(token).Some? && |UsersWithId(users, TokenUserId(token).value)| != 1 ==>
      r == CurrentUserFailed(UserNotFound)
  {
    match TokenUserId(token)
    case None => CurrentUserFailed(CurrentUserError)
    case Some(id) =>
      var rows := UsersWithId(users, id);
      if |rows| == 1 then
        assert rows[0] in rows;
        CurrentUser(WithoutPasswordHash(rows[0]))
      else CurrentUserFailed(UserNotFound)
  }

  /** The token a login hands out finds the logged-in user again. */
  lemma LoginTokenFindsUser(u: StoredUser, users: seq<StoredUser>, now: nat)
    requires NoControlChars(u.id)
    requires UsersWithId(users, u.id) == [u]
    ensures HandleGetCurrentUser(GenerateToken(u.id, now), users) == CurrentUser(WithoutPasswordHash(u))
  {
    TokenRoundTrip(u.id, now);
  }

  // ---------------------------------------------------------------------
  // Changing the password

  /** The update a password change writes: the hash of `password`, with
      the initial-password flag cleared. */
  datatype PasswordUpdate = PasswordUpdate(password: string, isInitialPassword: bool)

  const InitialPassword := "1234"
  const MinPasswordLength := 4
  const PasswordTooShort := "비밀번호는 최소 4자 이상이어야 합니다."
  const InitialPasswordRefused := "초기 비밀번호(1234)는 사용할 수 없습니다."

  /** `handleChangePassword`'s checks, in order. */
  function ChangePassword(newPassword: string): (r: Result<PasswordUpdate, string>)
    ensures r.Ok? <==> |newPassword| >= MinPasswordLength && newPassword != InitialPassword
    ensures |newPassword| < MinPasswordLength ==> r == Err(PasswordTooShort)
    ensures newPassword == InitialPassword ==> r == Err(InitialPasswordRefused)
    ensures r.Ok? ==> r.value == PasswordUpdate(newPassword, false)
  {
    if |newPassword| < MinPasswordLength then Err(PasswordTooShort)
    else if newPassword == InitialPassword then Err(InitialPasswordRefused)
    else Ok(PasswordUpdate(newPassword, false))
  }

  const PasswordChangeFailed := "비밀번호 변경에 실패했습니다."
  const PasswordChanged := "비밀번호가 성공적으로 변경되었습니다."

  /** `handleChangePassword`'s answer: a rejected password is refused
      before anything is written, a failed write of the update is refused
      with its own message, and otherwise the change is confirmed. */
  function HandleChangePassword(newPassword: string, writeFailed: bool): (r: Result<string, string>)
    ensures r.Ok? <==> |newPassword| >= MinPasswordLength && newPassword != InitialPassword && !writeFailed
    ensures r.Ok? ==> r.value == PasswordChanged
    ensures ChangePassword(newPassword).Err? ==> r == Err(ChangePassword(newPassword).error)
    ensures ChangePassword(newPassword).Ok? && writeFailed ==> r == Err(PasswordChangeFailed)
  {
    match ChangePassword(newPassword)
    case Err(message) => Err(message)
    case Ok(_) => if writeFailed then Err(PasswordChangeFailed) else Ok(PasswordChanged)
  }
}
