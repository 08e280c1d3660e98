/** The user service of services/user-service/service/user.go: account
    creation with a hashed password, the admin lookup, and login. Password
    hashing and checking (bcrypt) and token signing are parameters. */
module UserService {
  import opened Errors
  import opened Domain
  import UserRepo
  import Jwt

  datatype JwtConfig = JwtConfig(secret: string, expiry: int)

  /** CreateUser: hash the password, then store the user with the hash in
      place of the password. A hashing failure is returned before the
      store is touched; otherwise the store's result is returned. */
  function CreateUser(s: UserRepo.Store, u: User, hash: string -> Result<string>,
                      created: int, updated: int, generated: string, fault: Option<Error>): (r: (UserRepo.Store, Result<string>))
    ensures hash(u.password).Failure? ==> r == (s, Failure(hash(u.password).error))
    ensures hash(u.password).Success? ==>
              r == UserRepo.MongoCreate(s, u.(password := hash(u.password).value), created, updated, generated, fault)
    ensures r.1.Success? ==> r.0[r.1.value].password == hash(u.password).value
  {
    match hash(u.password)
    case Failure(e) => (s, Failure(e))
    case Success(hashed) => UserRepo.MongoCreate(s, u.(password := hashed), created, updated, generated, fault)
  }

  /** A stored user never keeps the plain password unless the hash equals it. */
  lemma CreateUserStoresHash(s: UserRepo.Store, u: User, hash: string -> Result<string>,
                             created: int, updated: int, generated: string, fault: Option<Error>)
    requires hash(u.password).Success? && hash(u.password).value != u.password
    ensures var r := CreateUser(s, u, hash, created, updated, generated, fault);
            r.1.Success? ==> r.0[r.1.value].password != u.password
  {
  }

  /** GetAdmins: the users whose role is "admin". */
  method GetAdmins(s: UserRepo.Store, fault: Option<Error>) returns (r: Result<seq<User>>)
    ensures fault.Some? ==> r == Failure(fault.value)
    ensures fault.None? ==> r.Success?
    ensures r.Success? ==> |r.value| == |UserRepo.WithRole(s, AdminRole)|
    ensures r.Success? ==> forall u :: u in r.value ==> u in s.Values && u.role == AdminRole
    ensures r.Success? ==> forall k :: k in s && s[k].role == AdminRole ==> s[k] in r.value
  {
    r := UserRepo.MongoGetAllByRole(s, AdminRole, fault);
  }

  /** Login's triple: the user (or nil), the token, the error (or nil). */
  datatype LoginResult = LoginResult(user: Option<User>, token: string, err: Option<Error>)

  /** What a caller of Login relies on: an error exactly when there is no user. */
  predicate WellFormed(r: LoginResult) {
    r.err.None? <==> r.user.Some?
  }

  /** The token Login issues for a user. */
  function TokenFor(u: User, cfg: JwtConfig, now: Jwt.Instants, sign: (Jwt.Claims, string) -> Result<string>): Result<string> {
    Jwt.GenerateToken(Jwt.UserDetails(u.id, u.email, u.role), cfg.secret, cfg.expiry, now, sign)
  }

  /** Login as written: after a wrong password it returns the error of the
      lookup, which succeeded, so the error is nil. `lookup` is what
      GetByEmail returned and `matches(hash, password)` the password check. */
  function LoginAsWritten(lookup: Result<User>, password: string, matches: (string, string) -> bool,
                          cfg: JwtConfig, now: Jwt.Instants, sign: (Jwt.Claims, string) -> Result<string>): (r: LoginResult)
    ensures lookup.Failure? ==> r == LoginResult(None, "", Some(lookup.error))
    ensures lookup.Success? && !matches(lookup.value.password, password) ==> r == LoginResult(None, "", None)
  {
    match lookup
    case Failure(e) => LoginResult(None, "", Some(e))
    case Success(u) =>
      if !matches(u.password, password) then LoginResult(None, "", None)
      else match TokenFor(u, cfg, now, sign)
        case Failure(e) => LoginResult(None, "", Some(e))
        case Success(token) => LoginResult(Some(u), token, None)
  }

  /** The wrong-password path of the code as written returns neither a user
      nor an error. */
  lemma WrongPasswordGivesNoError(lookup: Result<User>, password: string, matches: (string, string) -> bool,
                                  cfg: JwtConfig, now: Jwt.Instants, sign: (Jwt.Claims, string) -> Result<string>)
    requires lookup.Success? && !matches(lookup.value.password, password)
    ensures !WellFormed(LoginAsWritten(lookup, password, matches, cfg, now, sign))
  {
  }

  const ErrInvalidCredentials: Error := Plain("invalid credentials")

  /** Login: a failed lookup's error; a wrong password is an error of its
      own; otherwise the user with a token carrying the user's id, email
      and role. */
  function Login(lookup: Result<User>, password: string, matches: (string, string) -> bool,
                 cfg: JwtConfig, now: Jwt.Instants, sign: (Jwt.Claims, string) -> Result<string>): (r: LoginResult)
    ensures lookup.Failure? ==> r == LoginResult(None, "", Some(lookup.error))
    ensures lookup.Success? && !matches(lookup.value.password, password) ==>
              r == LoginResult(None, "", Some(ErrInvalidCredentials))
    ensures r.user.Some? ==>
              && lookup.Success? && r.user.value == lookup.value && matches(lookup.value.password, password)
              && sign(Jwt.NewClaims(Jwt.UserDetails(lookup.value.id, lookup.value.email, lookup.value.role),
                                    cfg.expiry, now), cfg.secret) == Success(r.token)
  {
    match lookup
    case Failure(e) => LoginResult(None, "", Some(e))
    case Success(u) =>
      if !matches(u.password, password) then LoginResult(None, "", Some(ErrInvalidCredentials))
      else match TokenFor(u, cfg, now, sign)
        case Failure(e) => LoginResult(None, "", Some(e))
        case Success(token) => LoginResult(Some(u), token, None)
  }

  /** Login always returns a user or an error, never both and never neither;
      it agrees with the code as written everywhere except the
      wrong-password path. */
  lemma LoginWellFormed(lookup: Result<User>, password: string, matches: (string, string) -> bool,
                        cfg: JwtConfig, now: Jwt.Instants, sign: (Jwt.Claims, string) -> Result<string>)
    ensures WellFormed(Login(lookup, password, matches, cfg, now, sign))
    ensures !(lookup.Success? && !matches(lookup.value.password, password)) ==>
              Login(lookup, password, matches, cfg, now, sign) == LoginAsWritten(lookup, password, matches, cfg, now, sign)
  {
  }
}
