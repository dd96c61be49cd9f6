/** The admin login cloud function (`backend/auth/index.py`): preflight, method and
    configuration guards, the hard-coded debug login, the quote-escaped user lookup, the password
    check and the `last_login` update. Password hashing and token signing are oracles. */
module AuthHandler {

  import opened Wrappers
  import opened Json
  import opened Http

  /** A row of `admin_users`. */
  datatype UserRow = UserRow(id: int, username: string, passwordHash: string, lastLogin: Option<int>)

  /** The response and the user table after the call. */
  datatype Outcome = Outcome(response: Response, users: seq<UserRow>)

  /** `bcrypt.checkpw(password, hash)` (`None` when it raises, as for a malformed hash) and
      `jwt.encode` of a user id and name; the token's `exp`/`iat` times are not modelled. */
  datatype Crypto = Crypto(checkpw: (string, string) -> Option<bool>, sign: (int, string) -> string)

  const AllowedMethods: string := "POST, OPTIONS"
  const InvalidCredentials: string := "Invalid credentials"
  const DebugUser: string := "admin"
  const DebugPassword: string := "temp123"
  const DebugUserId: int := 999

  function QuoteCount(s: string): (n: nat)
    ensures n <= |s|
    ensures n == 0 <==> '\'' !in s
  {
    if |s| == 0 then 0 else (if s[0] == '\'' then 1 else 0) + QuoteCount(s[1..])
  }

  /** `username.replace("'", "''")`: every single quote doubled, every other character kept in
      place. The result is one character longer per quote, and a quote-free name is unchanged. */
  function Escape(s: string): (r: string)
    ensures |r| == |s| + QuoteCount(s)
    ensures '\'' !in s ==> r == s
    ensures |s| > 0 && s[0] != '\'' ==> |r| > 0 && r[0] == s[0]
  {
    if |s| == 0 then ""
    else if s[0] == '\'' then "''" + Escape(s[1..])
    else [s[0]] + Escape(s[1..])
  }

  /** How SQL reads the body of a string literal, just after its opening quote: `''` stands for
      one quote, a lone quote closes the literal. The result is the denoted text and what follows
      the closing quote; `None` when the literal is never closed. */
  function ReadLiteral(s: string): (r: Option<(string, string)>)
    decreases |s|
  {
    if |s| == 0 then None
    else if s[0] == '\'' then
      if |s| >= 2 && s[1] == '\'' then
        match ReadLiteral(s[2..])
        case None => None
        case Some(p) => Some(("'" + p.0, p.1))
      else Some(("", s[1..]))
    else
      match ReadLiteral(s[1..])
      case None => None
      case Some(p) => Some(([s[0]] + p.0, p.1))
  }

  /** An escaped name between quotes is read back as exactly that name, whatever it contains,
      and the text after the closing quote is left for the rest of the statement. */
  lemma {:induction false} ReadEscaped(u: string, rest: string)
    requires |rest| == 0 || rest[0] != '\''
    ensures ReadLiteral(Escape(u) + "'" + rest) == Some((u, rest))
    decreases |u|
  {
    if |u| == 0 {
      assert Escape(u) + "'" + rest == "'" + rest;
    } else {
      ReadEscaped(u[1..], rest);
      if u[0] == '\'' {
        ReadEscapedQuote(u, rest);
      } else {
        ReadEscapedOther(u, rest);
      }
    }
  }

  /** A leading quote is written twice and read back as one. */
  lemma ReadEscapedQuote(u: string, rest: string)
    requires |u| > 0 && u[0] == '\''
    requires ReadLiteral(Escape(u[1..]) + "'" + rest) == Some((u[1..], rest))
    ensures ReadLiteral(Escape(u) + "'" + rest) == Some((u, rest))
  {
    var tail := Escape(u[1..]) + "'" + rest;
    var s := Escape(u) + "'" + rest;
    assert s == "''" + tail;
    assert s[2..] == tail;
    assert "'" + u[1..] == u;
  }

  /** Any other leading character is copied and read back as itself. */
  lemma ReadEscapedOther(u: string, rest: string)
    requires |u| > 0 && u[0] != '\''
    requires ReadLiteral(Escape(u[1..]) + "'" + rest) == Some((u[1..], rest))
    ensures ReadLiteral(Escape(u) + "'" + rest) == Some((u, rest))
  {
    var tail := Escape(u[1..]) + "'" + rest;
    var s := Escape(u) + "'" + rest;
    assert s == [u[0]] + tail;
    assert s[1..] == tail;
    assert [u[0]] + u[1..] == u;
  }

  const SelectPrefix: string := "SELECT id, username, password_hash FROM admin_users WHERE username = '"

  /** The lookup statement sent for a name. */
  function SelectUser(u: string): (q: string)
    ensures |q| >= |SelectPrefix| && q[..|SelectPrefix|] == SelectPrefix
    ensures ReadLiteral(q[|SelectPrefix|..]) == Some((u, ""))
  {
    ReadEscaped(u, "");
    var q := SelectPrefix + Escape(u) + "'";
    assert q[|SelectPrefix|..] == Escape(u) + "'" + "";
    q
  }

  /** The row the lookup returns: the first whose name equals `u`. */
  function FindUser(users: seq<UserRow>, u: string): (r: Option<nat>)
    ensures r.None? <==> forall i :: 0 <= i < |users| ==> users[i].username != u
    ensures r.Some? ==> r.value < |users| && users[r.value].username == u
    ensures r.Some? ==> forall i :: 0 <= i < r.value ==> users[i].username != u
  {
    if |users| == 0 then None
    else if users[0].username == u then Some(0)
    else
      match FindUser(users[1..], u)
      case None => None
      case Some(i) => Some(i + 1)
  }

  /** `UPDATE admin_users SET last_login = now WHERE id = ...`: no row is added, removed or
      moved, no column but `last_login` changes, and `last_login` is now exactly for the rows
      with that id. */
  function SetLastLogin(users: seq<UserRow>, id: int, now: int): (r: seq<UserRow>)
    ensures |r| == |users|
    ensures forall i :: 0 <= i < |users| ==> r[i].(lastLogin := users[i].lastLogin) == users[i]
    ensures forall i :: 0 <= i < |users| && users[i].id == id ==> r[i].lastLogin == Some(now)
    ensures forall i :: 0 <= i < |users| && users[i].id != id ==> r[i] == users[i]
  {
    seq(|users|, i requires 0 <= i < |users| =>
      if users[i].id == id then users[i].(lastLogin := Some(now)) else users[i])
  }

  /** The body of a successful login. */
  function LoginBody(token: string, id: int, username: string): Json {
    JObject(map[
      "success" := JBool(true),
      "token" := JString(token),
      "user" := JObject(map["id" := JNumber(id), "username" := JString(username)])
    ])
  }

  /** The handler. `users` is the table, `now` the database clock. */
  function Handler(e: Event, env: Environment, users: seq<UserRow>, now: int, crypto: Crypto): (o: Outcome)
    ensures Method(e) == "OPTIONS" ==> o == Outcome(Preflight(AllowedMethods), users)
    ensures Method(e) != "OPTIONS" && Method(e) != "POST" ==> o == Outcome(ErrorResponse(405, MethodNotAllowed), users)
    ensures Method(e) == "POST" && !DatabaseConfigured(env) ==> o == Outcome(ErrorResponse(500, NotConfigured), users)
    ensures o.response.statusCode != 200 ==> o.users == users
    ensures |o.users| == |users|
    ensures forall i :: 0 <= i < |users| ==> o.users[i].(lastLogin := users[i].lastLogin) == users[i]
  {
    var verb := Method(e);
    if verb == "OPTIONS" then Outcome(Preflight(AllowedMethods), users)
    else if verb != "POST" then Outcome(ErrorResponse(405, MethodNotAllowed), users)
    else if !DatabaseConfigured(env) then Outcome(ErrorResponse(500, NotConfigured), users)
    else
      match e.body
      case None => Outcome(ServerError, users)
      case Some(b) =>
        if !b.JObject? then Outcome(ServerError, users)
        else Login(GetOr(b.fields, "username", JString("")), GetOr(b.fields, "password", JString("")),
                   env, users, now, crypto)
  }

  /** The credential part of the handler, once the body has been read. */
  function Login(username: Json, password: Json, env: Environment, users: seq<UserRow>, now: int, crypto: Crypto)
    : (o: Outcome)
    ensures o.response.statusCode != 200 ==> o.users == users
    ensures |o.users| == |users|
    ensures forall i :: 0 <= i < |users| ==> o.users[i].(lastLogin := users[i].lastLogin) == users[i]
  {
    if username == JString(DebugUser) && password == JString(DebugPassword) then
      Outcome(JsonResponse(200, LoginBody(crypto.sign(DebugUserId, DebugUser), DebugUserId, DebugUser)), users)
    else if !PyTruthy(username) || !PyTruthy(password) then
      Outcome(ErrorResponse(400, "Username and password required"), users)
    else if !env.connectOk || !username.JString? then
      Outcome(ServerError, users)
    else
      match FindUser(users, username.s)
      case None => Outcome(ErrorResponse(401, InvalidCredentials), users)
      case Some(i) =>
        var row := users[i];
        if !password.JString? then Outcome(ServerError, users)
        else
          match crypto.checkpw(password.s, row.passwordHash)
          case None => Outcome(ServerError, users)
          case Some(false) => Outcome(ErrorResponse(401, InvalidCredentials), users)
          case Some(true) =>
            Outcome(JsonResponse(200, LoginBody(crypto.sign(row.id, row.username), row.id, row.username)),
                    SetLastLogin(users, row.id, now))
  }

  /** The debug login is answered before the database is touched: user 999 `admin`, whatever the
      table holds or whether a connection could be made; but only once `DATABASE_URL` is set. */
  lemma DebugLoginBypassesDatabase(e: Event, env: Environment, users: seq<UserRow>, now: int, crypto: Crypto,
                                   body: map<string, Json>)
    requires Method(e) == "POST" && e.body == Some(JObject(body))
    requires "username" in body && body["username"] == JString("admin")
    requires "password" in body && body["password"] == JString("temp123")
    ensures var o := Handler(e, env, users, now, crypto);
      && (DatabaseConfigured(env) ==>
            o == Outcome(JsonResponse(200, LoginBody(crypto.sign(999, "admin"), 999, "admin")), users))
      && (!DatabaseConfigured(env) ==> o.response.statusCode == 500)
  {
  }

  /** Outside the debug login, an empty or missing name or password is a 400. */
  lemma MissingCredentials(username: Json, password: Json, env: Environment, users: seq<UserRow>, now: int,
                           crypto: Crypto)
    requires !(username == JString("admin") && password == JString("temp123"))
    requires !PyTruthy(username) || !PyTruthy(password)
    ensures Login(username, password, env, users, now, crypto) ==
            Outcome(ErrorResponse(400, "Username and password required"), users)
  {
  }

  /** An unknown name and a wrong password get the same 401, and `last_login` stays. */
  lemma RejectedLogin(u: string, p: string, env: Environment, users: seq<UserRow>, now: int, crypto: Crypto)
    requires !(u == "admin" && p == "temp123") && u != "" && p != "" && env.connectOk
    requires FindUser(users, u).None? || crypto.checkpw(p, users[FindUser(users, u).value].passwordHash) == Some(false)
    ensures Login(JString(u), JString(p), env, users, now, crypto) == Outcome(ErrorResponse(401, "Invalid credentials"), users)
  {
  }

  /** A matching password logs in the first user with that name: the answer carries that row's
      id and name, and exactly the rows with that id get `last_login = now`. */
  lemma AcceptedLogin(u: string, p: string, env: Environment, users: seq<UserRow>, now: int, crypto: Crypto)
    requires !(u == "admin" && p == "temp123") && u != "" && p != "" && env.connectOk
    requires FindUser(users, u).Some?
    requires crypto.checkpw(p, users[FindUser(users, u).value].passwordHash) == Some(true)
    ensures var row := users[FindUser(users, u).value];
            var o := Login(JString(u), JString(p), env, users, now, crypto);
      && row.username == u
      && o.response == JsonResponse(200, LoginBody(crypto.sign(row.id, u), row.id, u))
      && (forall i :: 0 <= i < |users| ==> o.users[i].lastLogin == Some(now) || o.users[i] == users[i])
      && (forall i :: 0 <= i < |users| && users[i].id == row.id ==> o.users[i].lastLogin == Some(now))
  {
  }
}
