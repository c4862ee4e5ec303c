/**
 The `/login` and `/users` handlers. Each is a decision from the request and
 the result the database hands to the callback to the response written; the
 outcome also records which statement, if any, was sent. Token signing is a
 library call, so `sign` is a parameter.
 */
module Users {
  import opened Wrappers
  import opened Api
  import Auth

  const FieldsRequiredMessage := "Username and password are required."
  const InternalErrorMessage := "Internal server error."
  const LoginSucceededMessage := "Login successful!"
  const BadCredentialsMessage := "Invalid username or password."
  const DatabaseErrorMessage := "Database error."
  const NotFoundMessage := "User not found."
  const CreatedMessage := "User created successfully."
  const UpdatedMessage := "User updated successfully."
  const DeletedMessage := "User deleted successfully."

  /** `POST /login`: both fields are required before the lookup; a failed
      lookup is 500; a token for the first matching row is 200; no matching
      row is 401. */
  function Login(body: Credentials, result: SelectResult, sign: Claims -> string): (o: Outcome)
    ensures o.response.status in {200, 400, 401, 500}
    ensures o.issued.None? <==> !Truthy(body.username) || !Truthy(body.password)
    ensures o.issued.None? ==> o.response.status == 400
    ensures o.issued.Some? ==>
              o.issued.value == SelectByCredentials(body.username.value, body.password.value)
    ensures o.response.status == 500 <==> o.issued.Some? && result.SelectFailed?
    ensures o.response.status == 401 <==> o.issued.Some? && result == Selected([])
    ensures o.response.body.LoginSucceeded? <==> o.issued.Some? && result.Selected? && result.rows != []
    ensures o.response.body.LoginSucceeded? ==>
              o.response.status == 200 &&
              o.response.body == LoginSucceeded(LoginSucceededMessage,
                                                sign(Claims(result.rows[0].id, result.rows[0].username)))
    ensures o.response.status == 400 ==> o.response.body == Message(FieldsRequiredMessage)
    ensures o.response.status == 500 ==> o.response.body == Message(InternalErrorMessage)
    ensures o.response.status == 401 ==> o.response.body == Message(BadCredentialsMessage)
  {
    if !Truthy(body.username) || !Truthy(body.password) then
      Outcome(Json(400, Message(FieldsRequiredMessage)), None)
    else
      var issued := Some(SelectByCredentials(body.username.value, body.password.value));
      match result
      case SelectFailed => Outcome(Json(500, Message(InternalErrorMessage)), issued)
      case Selected(rows) =>
        if |rows| > 0 then
          var user := rows[0];
          var token := sign(Claims(user.id, user.username));
          Outcome(Json(200, LoginSucceeded(LoginSucceededMessage, token)), issued)
        else
          Outcome(Json(401, Message(BadCredentialsMessage)), issued)
  }

  /** `GET /users`: every row, unfiltered, or 500. */
  function ListUsers(result: SelectResult): (o: Outcome)
    ensures o.issued == Some(SelectAll)
    ensures o.response.status in {200, 500}
    ensures o.response.status == 500 <==> result.SelectFailed?
    ensures result.Selected? ==> o.response.body == UserList(result.rows)
    ensures result.SelectFailed? ==> o.response.body == Message(DatabaseErrorMessage)
  {
    match result
    case SelectFailed => Outcome(Json(500, Message(DatabaseErrorMessage)), Some(SelectAll))
    case Selected(rows) => Outcome(Json(200, UserList(rows)), Some(SelectAll))
  }

  /** `GET /users/:id`: 500 on a failed lookup, 404 on no row, otherwise
      exactly the first row. */
  function GetUser(id: string, result: SelectResult): (o: Outcome)
    ensures o.issued == Some(SelectById(id))
    ensures o.response.status in {200, 404, 500}
    ensures o.response.status == 500 <==> result.SelectFailed?
    ensures o.response.status == 404 <==> result == Selected([])
    ensures o.response.status == 200 ==>
              result.Selected? && result.rows != [] && o.response.body == SingleUser(result.rows[0])
    ensures o.response.status == 404 ==> o.response.body == Message(NotFoundMessage)
    ensures o.response.status == 500 ==> o.response.body == Message(DatabaseErrorMessage)
  {
    match result
    case SelectFailed => Outcome(Json(500, Message(DatabaseErrorMessage)), Some(SelectById(id)))
    case Selected(rows) =>
      if |rows| == 0 then Outcome(Json(404, Message(NotFoundMessage)), Some(SelectById(id)))
      else Outcome(Json(200, SingleUser(rows[0])), Some(SelectById(id)))
  }

  /** `POST /users`: both fields are required before the insert; a failed
      insert is 500; otherwise 201 with the generated id. */
  function CreateUser(body: Credentials, result: WriteResult): (o: Outcome)
    ensures o.response.status in {201, 400, 500}
    ensures o.issued.None? <==> !Truthy(body.username) || !Truthy(body.password)
    ensures o.issued.None? ==> o.response.status == 400
    ensures o.issued.Some? ==>
              o.issued.value == InsertUser(body.username.value, body.password.value)
    ensures o.response.status == 500 <==> o.issued.Some? && result.WriteFailed?
    ensures o.response.status == 201 <==> o.issued.Some? && result.Written?
    ensures o.response.status == 201 ==>
              result.Written? && o.response.body == UserCreated(CreatedMessage, result.insertId)
    ensures o.response.status == 400 ==> o.response.body == Message(FieldsRequiredMessage)
    ensures o.response.status == 500 ==> o.response.body == Message(DatabaseErrorMessage)
  {
    if !Truthy(body.username) || !Truthy(body.password) then
      Outcome(Json(400, Message(FieldsRequiredMessage)), None)
    else
      var issued := Some(InsertUser(body.username.value, body.password.value));
      match result
      case WriteFailed => Outcome(Json(500, Message(DatabaseErrorMessage)), issued)
      case Written(insertId, _) => Outcome(Json(201, UserCreated(CreatedMessage, insertId)), issued)
  }

  /** `PUT /users/:id`: no check of the body; the fields are bound as they
      are, and any statement that does not fail is acknowledged with 200,
      however many rows it touched. */
  function UpdateUser(id: string, body: Credentials, result: WriteResult): (o: Outcome)
    ensures o.issued == Some(UpdateById(id, body.username, body.password))
    ensures o.response.status in {200, 500}
    ensures o.response.status == 200 <==> result.Written?
    ensures result.Written? ==> o.response == Json(200, Message(UpdatedMessage))
    ensures result.WriteFailed? ==> o.response == Json(500, Message(DatabaseErrorMessage))
  {
    var issued := Some(UpdateById(id, body.username, body.password));
    match result
    case WriteFailed => Outcome(Json(500, Message(DatabaseErrorMessage)), issued)
    case Written(_, _) => Outcome(Json(200, Message(UpdatedMessage)), issued)
  }

  /** `DELETE /users/:id`: 200 whenever the statement does not fail, whether
      or not a row was removed. */
  function DeleteUser(id: string, result: WriteResult): (o: Outcome)
    ensures o.issued == Some(DeleteById(id))
    ensures o.response.status in {200, 500}
    ensures o.response.status == 200 <==> result.Written?
    ensures result.Written? ==> o.response == Json(200, Message(DeletedMessage))
    ensures result.WriteFailed? ==> o.response == Json(500, Message(DatabaseErrorMessage))
  {
    var issued := Some(DeleteById(id));
    match result
    case WriteFailed => Outcome(Json(500, Message(DatabaseErrorMessage)), issued)
    case Written(_, _) => Outcome(Json(200, Message(DeletedMessage)), issued)
  }

  /** Neither update nor delete tells an existing row from a missing one:
      the response does not depend on the number of rows affected. */
  lemma WritesIgnoreRowsAffected(id: string, body: Credentials, insertId: int, n: nat, m: nat)
    ensures UpdateUser(id, body, Written(insertId, n)) == UpdateUser(id, body, Written(insertId, m))
    ensures DeleteUser(id, Written(insertId, n)) == DeleteUser(id, Written(insertId, m))
  {
  }

  /** A token from a successful login gets through the guard with the
      identity of the first matching row, provided the verifier accepts
      what the signer produced and signed tokens are single non-empty words
      (as the compact JWT form is). */
  lemma {:induction false} LoginTokenPassesGuard(
    body: Credentials, rows: seq<UserRow>,
    sign: Claims -> string, verify: string -> Option<Claims>)
    requires Truthy(body.username) && Truthy(body.password) && rows != []
    requires forall c :: verify(sign(c)) == Some(c)
    requires forall c :: sign(c) != "" && ' ' !in sign(c)
    ensures Login(body, Selected(rows), sign).response.body.LoginSucceeded?
    ensures Auth.Authenticate(Some("Bearer " + Login(body, Selected(rows), sign).response.body.token), verify)
            == Auth.Proceed(Claims(rows[0].id, rows[0].username))
  {
    var claims := Claims(rows[0].id, rows[0].username);
    var token := sign(claims);
    assert Login(body, Selected(rows), sign).response.body.token == token;
    Auth.TokenIsSecondWord("Bearer", token, "");
    assert "Bearer" + [' '] + token + "" == "Bearer " + token;
  }
}
