/** The part of an HTTP response the accounts endpoints determine. */
module Http {
  import opened AccountModel

  const StatusOk: int := 200
  const StatusUnauthorized: int := 401
  const StatusInternalServerError: int := 500

  /** What a handler's return value is serialised as. */
  datatype Body =
    | Text(text: string)                 // a plain string entity
    | AccountList(accounts: seq<Account>) // a JSON array of accounts
    | SingleAccount(account: Account)    // one JSON account
    | Empty                              // a handler that returned null
    | ServerError                        // the framework's default error page

  datatype Response = Response(status: int, body: Body)
}
