/**
 * The authorization gate: a fixed user directory, the argument resolver
 * that turns the `X-ultimate_username` header into a `User`, and the
 * mapping of its failure to an HTTP response.
 */
module Security {
  import opened Wrappers
  import opened Http

  const UsernameAdmin: string := "admin"
  const UsernameCustomer: string := "customer"
  const UnauthorizedMessage: string := "You are not authorized to access this page!"

  /** The caller identity bound to an authorized request. */
  datatype User = User(name: string)

  /** Thrown by the resolver when no identity can be established. */
  datatype UnauthorizedException = UnauthorizedException

  /** The Java types a handler parameter can have in the accounts controllers. */
  datatype ParameterType = UserType | LongType | AccountType

  /**
   * Kotlin's `associateBy { it.name }`: a map from each user's name to the
   * user; on a repeated name the later entry wins.
   */
  function AssociateByName(users: seq<User>): (m: map<string, User>)
    ensures m.Keys == set i | 0 <= i < |users| :: users[i].name
    ensures forall k :: k in m ==> m[k].name == k
    decreases |users|
  {
    if users == [] then map[]
    else
      var init := users[..|users| - 1];
      var last := users[|users| - 1];
      var rest := AssociateByName(init);
      rest[last.name := last]
  }

  /** The directory `UserServiceImpl` builds once from its two fixed users. */
  const Users: seq<User> := [User(UsernameAdmin), User(UsernameCustomer)]

  function UsersByName(): map<string, User> {
    AssociateByName(Users)
  }

  /** The directory holds exactly the two fixed users, each under its own name. */
  lemma DirectoryHoldsExactlyTwoUsers()
    ensures UsersByName().Keys == {UsernameAdmin, UsernameCustomer}
    ensures |UsersByName()| == 2
    ensures forall k :: k in UsersByName() ==> UsersByName()[k] == User(k)
  {
    assert Users[0].name == UsernameAdmin && Users[1].name == UsernameCustomer;
  }

  /** `UserServiceImpl.findUser`: the user of that name, if the directory has one. */
  function FindUser(name: string): (r: Option<User>)
    ensures r.Some? <==> name == UsernameAdmin || name == UsernameCustomer
    ensures r.Some? ==> r.value.name == name
  {
    DirectoryHoldsExactlyTwoUsers();
    if name in UsersByName() then Some(UsersByName()[name]) else None
  }

  /** A name outside the directory, such as the tests' "wrongUsername", finds nobody. */
  lemma WrongUsernameIsUnknown()
    ensures FindUser("wrongUsername") == None
  {
  }

  /** `UserResolver.supportsParameter`: the resolver fills exactly the `User` parameters. */
  function SupportsParameter(p: ParameterType): (r: bool)
    ensures r <==> p == UserType
  {
    p.UserType?
  }

  /**
   * `UserResolver.resolveArgument`, given the user service it was built
   * with and the value of the username header (None when absent).
   */
  function ResolveArgument(findUser: string -> Option<User>, header: Option<string>)
    : (r: Result<User, UnauthorizedException>)
    ensures r.Ok? <==> header.Some? && findUser(header.value).Some?
    ensures r.Ok? ==> findUser(header.value) == Some(r.value)
  {
    match header
    case None => Err(UnauthorizedException)
    case Some(name) =>
      match findUser(name)
      case None => Err(UnauthorizedException)
      case Some(user) => Ok(user)
  }

  /** A request without the header is rejected whatever the user service would say. */
  lemma MissingHeaderNeverConsultsDirectory(findUser: string -> Option<User>)
    ensures ResolveArgument(findUser, None) == Err(UnauthorizedException)
  {
  }

  /** The gate as wired in the application: the resolver over `UserServiceImpl`. */
  function Resolve(header: Option<string>): (r: Result<User, UnauthorizedException>)
    ensures r.Ok? <==> header.Some? && (header.value == UsernameAdmin || header.value == UsernameCustomer)
    ensures r.Ok? ==> r.value == User(header.value)
  {
    ResolveArgument(FindUser, header)
  }

  /** `RestResponseEntityExceptionHandler.handleUnauthorizedException`. */
  function HandleUnauthorizedException(ex: UnauthorizedException): (r: Response)
    ensures r.status == StatusUnauthorized && r.body == Text(UnauthorizedMessage)
  {
    Response(StatusUnauthorized, Text(UnauthorizedMessage))
  }
}
