/**
 * The account service and controller: list and create accounts over the
 * repository, the `readAccount` stub, and request dispatch that runs the
 * authorization gate before any handler.
 */
module AccountWeb {
  import opened Wrappers
  import opened AccountModel
  import opened Http
  import opened Security
  import opened AccountPersistence

  /** `readAccounts()` on a store in state `t`; `ToAccounts` states what it holds. */
  function Accounts(t: Table): seq<Account> {
    ToAccounts(t.rows)
  }

  /** Listing a store that holds nothing gives the empty list. */
  lemma AccountsOfEmptyTable()
    ensures Accounts(EmptyTable) == []
  {
  }

  /** The listed accounts carry each row's id, alias and balance, in store order. */
  lemma AccountsMirrorRows(t: Table, i: int)
    requires 0 <= i < |t.rows|
    ensures Accounts(t)[i].id == t.rows[i].id
    ensures Accounts(t)[i].alias == t.rows[i].alias
    ensures Accounts(t)[i].balance == t.rows[i].balance
  {
  }

  /** The store after `createAccount`, and what it returned. */
  datatype Created = Created(table: Table, result: Result<Account, StoreError>)

  /**
   * `createAccount`: the incoming id is replaced by 0 before the save, and
   * the saved row is mapped back to an account.
   */
  function Create(t: Table, account: Account): (c: Created)
    ensures c.result.Ok? <==> t.nextId <= MaxLong && |account.alias| <= AliasMaxLength
    ensures c.result.Ok? ==> c.result.value == account.(id := t.nextId)
    ensures c.result.Ok? ==> Accounts(c.table) == Accounts(t) + [c.result.value]
    ensures c.result.Err? ==> Accounts(c.table) == Accounts(t)
  {
    var s := Insert(t, ToAccountJpa(account).(id := 0));
    match s.result
    case Ok(row) =>
      Created(s.table, Ok(ToAccount(row)))
    case Err(e) => Created(s.table, Err(e))
  }

  /** Whatever id the caller sends, creation behaves the same. */
  lemma CreateIgnoresIncomingId(t: Table, account: Account, id: Long)
    ensures Create(t, account.(id := id)) == Create(t, account)
  {
  }

  /** Creation keeps the store's invariant. */
  lemma CreatePreservesWellFormed(t: Table, account: Account)
    requires WellFormed(t)
    ensures WellFormed(Create(t, account).table)
  {
  }

  /** On a fresh store the created account gets id 1000 and becomes its only row. */
  lemma CreateOnEmptyStore(account: Account)
    requires |account.alias| <= AliasMaxLength
    ensures Create(EmptyTable, account).result == Ok(account.(id := 1000))
    ensures Create(EmptyTable, account).table.rows == [ToAccountJpa(account.(id := 1000))]
  {
  }

  /** Two accounts created one after the other get distinct ids. */
  lemma SuccessiveCreatesGetDistinctIds(t: Table, first: Account, second: Account)
    requires WellFormed(t)
    requires Create(t, first).result.Ok?
    requires Create(Create(t, first).table, second).result.Ok?
    ensures Create(Create(t, first).table, second).result.value.id
         != Create(t, first).result.value.id
    ensures Create(Create(t, first).table, second).result.value.id
         == Create(t, first).result.value.id + 1
  {
  }

  /** The accounts endpoints. */
  datatype Route =
    | GetAllAccounts                  // GET /accounts
    | GetAccountById(id: Long)        // GET /accounts/{id}
    | PostNewAccount(account: Account) // POST /accounts with a JSON body

  /** The parameters each handler declares, in order. */
  function HandlerParameters(route: Route): (params: seq<ParameterType>)
    ensures |params| >= 1 && params[0] == UserType
  {
    match route
    case GetAllAccounts => [UserType]
    case GetAccountById(_) => [UserType, LongType]
    case PostNewAccount(_) => [UserType, AccountType]
  }

  /** Whether the resolver has a parameter to fill for the handler of `route`. */
  predicate Gated(route: Route) {
    exists i | 0 <= i < |HandlerParameters(route)| :: SupportsParameter(HandlerParameters(route)[i])
  }

  /**
   * Every handler's first parameter is a `User`, and no other one is, so
   * the resolver runs for every route before any other argument is bound.
   */
  lemma EveryHandlerIsGated(route: Route)
    ensures Gated(route)
    ensures SupportsParameter(HandlerParameters(route)[0])
    ensures forall i :: 1 <= i < |HandlerParameters(route)| ==> !SupportsParameter(HandlerParameters(route)[i])
  {
    assert SupportsParameter(HandlerParameters(route)[0]);
  }

  /** How a handler returning an optional account is rendered. */
  function RenderOptional(account: Option<Account>): (r: Response)
    ensures r.status == StatusOk
    ensures account.Some? <==> r.body.SingleAccount?
    ensures account.Some? ==> r.body == SingleAccount(account.value)
    ensures account.None? ==> r.body == Empty
  {
    match account
    case Some(a) => Response(StatusOk, SingleAccount(a))
    case None => Response(StatusOk, Empty)
  }

  /** The store after a request, and the response sent. */
  datatype Exchange = Exchange(table: Table, response: Response)

  /** The handler of `route` run for an already resolved user. */
  function Handle(t: Table, user: User, route: Route): (x: Exchange)
    ensures !route.PostNewAccount? ==> x.table == t
    ensures route.GetAllAccounts? ==> x.response == Response(StatusOk, AccountList(ToAccounts(t.rows)))
    ensures route.GetAccountById? ==> x.response == Response(StatusOk, Empty)
    ensures route.PostNewAccount? ==> x.table == Create(t, route.account).table
    ensures route.PostNewAccount? && Create(t, route.account).result.Ok? ==>
              x.response == Response(StatusOk, SingleAccount(Create(t, route.account).result.value))
    ensures route.PostNewAccount? && Create(t, route.account).result.Err? ==>
              x.response == Response(StatusInternalServerError, ServerError)
  {
    match route
    case GetAllAccounts => Exchange(t, Response(StatusOk, AccountList(Accounts(t))))
    case GetAccountById(_) => Exchange(t, RenderOptional(None))
    case PostNewAccount(account) =>
      var c := Create(t, account);
      match c.result
      case Ok(created) => Exchange(c.table, Response(StatusOk, SingleAccount(created)))
      case Err(_) => Exchange(c.table, Response(StatusInternalServerError, ServerError))
  }

  /**
   * A request to `route` with username header `header`: when the handler
   * declares a parameter the resolver supplies, resolve first, then handle.
   */
  function Serve(t: Table, header: Option<string>, route: Route): (x: Exchange)
    ensures Resolve(header).Err? ==> x.table == t && x.response.status == StatusUnauthorized
  {
    if Gated(route) then
      match Resolve(header)
      case Err(ex) => Exchange(t, HandleUnauthorizedException(ex))
      case Ok(user) => Handle(t, user, route)
    else
      EveryHandlerIsGated(route);
      assert false;
      Exchange(t, Response(StatusInternalServerError, ServerError))
  }

  /** A missing or unknown username yields 401 with the fixed message and leaves the store alone. */
  lemma UnauthorizedRequestIsRejected(t: Table, header: Option<string>, route: Route)
    requires header.None? || (header.value != UsernameAdmin && header.value != UsernameCustomer)
    ensures Serve(t, header, route) == Exchange(t, Response(StatusUnauthorized, Text(UnauthorizedMessage)))
  {
  }

  /** A known user listing the accounts gets 200 and every stored account. */
  lemma KnownUserListsAccounts(t: Table, name: string)
    requires name == UsernameAdmin || name == UsernameCustomer
    ensures Serve(t, Some(name), GetAllAccounts) == Exchange(t, Response(StatusOk, AccountList(Accounts(t))))
  {
    EveryHandlerIsGated(GetAllAccounts);
  }

  /** Listing an empty store as "customer" gives 200 and the empty list. */
  lemma CustomerListsEmptyStore()
    ensures Serve(EmptyTable, Some(UsernameCustomer), GetAllAccounts).response == Response(StatusOk, AccountList([]))
  {
    EveryHandlerIsGated(GetAllAccounts);
  }

  /** Listing changes nothing, so a second listing answers exactly as the first. */
  lemma ListingIsIdempotent(t: Table, header: Option<string>)
    ensures Serve(t, header, GetAllAccounts).table == t
    ensures Serve(Serve(t, header, GetAllAccounts).table, header, GetAllAccounts) == Serve(t, header, GetAllAccounts)
  {
  }

  /** A stored account saved directly into a fresh store is exactly what listing returns. */
  lemma ListingShowsSavedAccount(account: Account)
    requires account.id == 0 && |account.alias| <= AliasMaxLength
    ensures Insert(EmptyTable, ToAccountJpa(account)).result.Ok?
    ensures Serve(Insert(EmptyTable, ToAccountJpa(account)).table, Some(UsernameCustomer), GetAllAccounts).response
         == Response(StatusOk, AccountList([ToAccount(Insert(EmptyTable, ToAccountJpa(account)).result.value)]))
  {
    EveryHandlerIsGated(GetAllAccounts);
    var s := Insert(EmptyTable, ToAccountJpa(account));
    assert Accounts(s.table) == [ToAccount(s.result.value)];
  }

  /** The single-account lookup answers 200 with no body for every id and every store. */
  lemma LookupIsStub(t: Table, name: string, id: Long)
    requires name == UsernameAdmin || name == UsernameCustomer
    ensures Serve(t, Some(name), GetAccountById(id)) == Exchange(t, Response(StatusOk, Empty))
  {
    EveryHandlerIsGated(GetAccountById(id));
  }

  /**
   * Posting as a known user returns the body with the store's id, and a
   * following listing ends with that account after all earlier ones.
   */
  lemma PostThenList(t: Table, name: string, account: Account)
    requires name == UsernameAdmin || name == UsernameCustomer
    requires t.nextId <= MaxLong && |account.alias| <= AliasMaxLength
    ensures Serve(t, Some(name), PostNewAccount(account)).response
         == Response(StatusOk, SingleAccount(account.(id := t.nextId)))
    ensures Serve(Serve(t, Some(name), PostNewAccount(account)).table, Some(name), GetAllAccounts).response
         == Response(StatusOk, AccountList(Accounts(t) + [account.(id := t.nextId)]))
  {
    EveryHandlerIsGated(PostNewAccount(account));
    EveryHandlerIsGated(GetAllAccounts);
  }

  /** The tests' post of {"id":0,"alias":"alias","balance":42} into a fresh store. */
  lemma PostAliasIntoEmptyStore()
    ensures Serve(EmptyTable, Some(UsernameCustomer), PostNewAccount(Account(0, "alias", 42)))
         == Exchange(Table([AccountJpa(1000, "alias", 42)], 1001), Response(StatusOk, SingleAccount(Account(1000, "alias", 42))))
  {
    EveryHandlerIsGated(PostNewAccount(Account(0, "alias", 42)));
  }

  /** A save the store refuses becomes a server error; the store keeps its rows. */
  lemma RefusedPostIsServerError(t: Table, name: string, account: Account)
    requires name == UsernameAdmin || name == UsernameCustomer
    requires |account.alias| > AliasMaxLength
    ensures Serve(t, Some(name), PostNewAccount(account)).response == Response(StatusInternalServerError, ServerError)
    ensures Serve(t, Some(name), PostNewAccount(account)).table.rows == t.rows
  {
  }

  /** `AccountService`: stateless, over the injected repository. */
  class AccountService {
    const repo: AccountRepository

    constructor (repo: AccountRepository)
      ensures this.repo == repo
    {
      this.repo := repo;
    }

    /** `readAccounts()`: every stored account, in store order. */
    method ReadAccounts() returns (accounts: seq<Account>)
      requires repo.Valid()
      ensures accounts == Accounts(repo.State())
    {
      accounts := ToAccounts(repo.FindAll());
    }

    /** `readAccount(id)`: not implemented, always null. */
    method ReadAccount(id: Long) returns (account: Option<Account>)
      ensures account == None
    {
      account := None;
    }

    /** `createAccount(account)`: save with id 0 and return the saved account. */
    method CreateAccount(account: Account) returns (result: Result<Account, StoreError>)
      requires repo.Valid()
      modifies repo
      ensures repo.Valid()
      ensures Created(repo.State(), result) == Create(old(repo.State()), account)
    {
      var saved := repo.Save(ToAccountJpa(account).(id := 0));
      match saved
      case Ok(row) => result := Ok(ToAccount(row));
      case Err(e) => result := Err(e);
    }
  }

  /** `AccountController`: each handler takes the resolved `User`. */
  class AccountController {
    const service: AccountService

    constructor (service: AccountService)
      ensures this.service == service
    {
      this.service := service;
    }

    /** `GET /accounts`. */
    method GetAccounts(user: User) returns (accounts: seq<Account>)
      requires service.repo.Valid()
      ensures accounts == Accounts(service.repo.State())
    {
      accounts := service.ReadAccounts();
    }

    /** `GET /accounts/{id}`. */
    method GetAccount(user: User, id: Long) returns (account: Option<Account>)
      ensures account == None
    {
      account := service.ReadAccount(id);
    }

    /** `POST /accounts`. */
    method PostAccount(user: User, account: Account) returns (result: Result<Account, StoreError>)
      requires service.repo.Valid()
      modifies service.repo
      ensures service.repo.Valid()
      ensures Created(service.repo.State(), result) == Create(old(service.repo.State()), account)
    {
      result := service.CreateAccount(account);
    }

    /**
     * One request: the handler declares a `User`, so the username header is
     * resolved first; on failure the exception handler answers and no
     * handler runs.
     */
    method Dispatch(header: Option<string>, route: Route) returns (response: Response)
      requires service.repo.Valid()
      modifies service.repo
      ensures service.repo.Valid()
      ensures Exchange(service.repo.State(), response) == Serve(old(service.repo.State()), header, route)
      ensures Resolve(header).Err? ==> unchanged(service.repo) && response.status == StatusUnauthorized
    {
      if !Gated(route) {
        EveryHandlerIsGated(route);
        assert false;
      }
      var resolved := Resolve(header);
      if resolved.Err? {
        return HandleUnauthorizedException(resolved.error);
      }
      var user := resolved.value;
      match route
      case GetAllAccounts =>
        var accounts := GetAccounts(user);
        response := Response(StatusOk, AccountList(accounts));
      case GetAccountById(id) =>
        var account := GetAccount(user, id);
        response := RenderOptional(account);
      case PostNewAccount(account) =>
        var result := PostAccount(user, account);
        match result
        case Ok(created) => response := Response(StatusOk, SingleAccount(created));
        case Err(_) => response := Response(StatusInternalServerError, ServerError);
    }
  }
}
