/**
 The vocabulary shared by the guard and the user handlers: rows of the
 `users` table, token payloads, the parameterised statements a handler can
 issue, and the JSON responses it writes.
 */
module Api {
  import opened Wrappers

  /** A row of the `users` table, as `SELECT *` returns it. */
  datatype UserRow = UserRow(id: int, username: string, password: string)

  /** The payload signed into a token at login and decoded by the guard. */
  datatype Claims = Claims(id: int, username: string)

  /** The statements the handlers issue, with their bound parameters. The
      update binds the body fields as they are, absent ones included. */
  datatype Statement =
    | SelectByCredentials(username: string, password: string)
    | SelectAll
    | SelectById(id: string)
    | InsertUser(username: string, password: string)
    | UpdateById(id: string, newUsername: Option<string>, newPassword: Option<string>)
    | DeleteById(id: string)

  /** What a SELECT hands to its callback: an error, or the matching rows. */
  datatype SelectResult = SelectFailed | Selected(rows: seq<UserRow>)

  /** What an INSERT, UPDATE or DELETE hands to its callback. */
  datatype WriteResult = WriteFailed | Written(insertId: int, affectedRows: nat)

  /** The JSON bodies the handlers send. */
  datatype Payload =
    | Message(text: string)
    | LoginSucceeded(message: string, token: string)
    | UserList(rows: seq<UserRow>)
    | SingleUser(row: UserRow)
    | UserCreated(message: string, userId: int)

  /** `res.status(status).json(body)`; `res.json(body)` alone sends 200. */
  datatype Response = Json(status: int, body: Payload)

  /** What serving one request did: the response written, and the statement
      sent to the database, if any. */
  datatype Outcome = Outcome(response: Response, issued: Option<Statement>)

  /** The request body of login, create and update. */
  datatype Credentials = Credentials(username: Option<string>, password: Option<string>)
}
