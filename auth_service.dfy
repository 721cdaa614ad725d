/** The credential service (internal/adapters/auth.go): sign-up and sign-in
    validation and delegation, and the pass-through ownership checks. The
    user repository, bcrypt and the token handler are passed in as
    functions; each function result is what that call returns. */
module AuthService {
  import opened Base
  import opened Models
  import opened Schema
  import UserRepository

  /** bcrypt: `generate` is GenerateFromPassword at the default cost, and
      `compare(hashed, password)` is CompareHashAndPassword, `None` when the
      password matches the hash. */
  datatype Bcrypt = Bcrypt(generate: string -> Result<string>, compare: (string, string) -> Option<Error>)

  /** A hash that bcrypt produced for a password matches that password. */
  ghost predicate Consistent(bcrypt: Bcrypt) {
    forall p :: bcrypt.generate(p).Success? ==> bcrypt.compare(bcrypt.generate(p).value, p).None?
  }

  /** The checks SignUp and SignIn make first: the login, then the password. */
  function CheckCandidate(candidate: UserAuth): (err: Option<Error>)
    ensures err.None? <==> candidate.name != "" && candidate.password != ""
    ensures candidate.name == "" ==> err == Some(EmptyLogin)
    ensures candidate.name != "" && candidate.password == "" ==> err == Some(EmptyPassword(candidate.name))
  {
    if candidate.name == "" then Some(EmptyLogin)
    else if candidate.password == "" then Some(EmptyPassword(candidate.name))
    else None
  }

  /** The record SignUp hands to the repository: a copy of the candidate
      whose password is the bcrypt hash. A hashing failure is wrapped with
      a message that quotes the plaintext password. */
  function SignUpRecord(candidate: UserAuth, bcrypt: Bcrypt): (r: Result<UserAuth>)
    ensures CheckCandidate(candidate).Some? ==> r == Failure(CheckCandidate(candidate).value)
    ensures r.Success? <==> CheckCandidate(candidate).None? && bcrypt.generate(candidate.password).Success?
    ensures r.Success? ==> r.value == UserAuth(candidate.name, bcrypt.generate(candidate.password).value)
    ensures CheckCandidate(candidate).None? && bcrypt.generate(candidate.password).Failure? ==>
              r == Failure(Wrapped(HashingPassword(candidate.password), bcrypt.generate(candidate.password).error))
  {
    match CheckCandidate(candidate)
    case Some(e) => Failure(e)
    case None =>
      match bcrypt.generate(candidate.password)
      case Failure(e) => Failure(Wrapped(HashingPassword(candidate.password), e))
      case Success(hash) => Success(candidate.(password := hash))
  }

  /** SignUp: validation, hashing, then the repository's CreateUser, whose
      failure is wrapped with the login. */
  function SignUp(candidate: UserAuth, bcrypt: Bcrypt, createUser: UserAuth -> Option<Error>): (err: Option<Error>)
    ensures CheckCandidate(candidate).Some? ==> err == CheckCandidate(candidate)
    ensures err.None? <==> SignUpRecord(candidate, bcrypt).Success? && createUser(SignUpRecord(candidate, bcrypt).value).None?
    ensures SignUpRecord(candidate, bcrypt).Success? && createUser(SignUpRecord(candidate, bcrypt).value).Some? ==>
              err == Some(Wrapped(CreatingUserNamed(candidate.name), createUser(SignUpRecord(candidate, bcrypt).value).value))
  {
    match SignUpRecord(candidate, bcrypt)
    case Failure(e) => Some(e)
    case Success(record) =>
      match createUser(record)
      case Some(e) => Some(Wrapped(CreatingUserNamed(candidate.name), e))
      case None => None
  }

  /** A candidate without a login or a password never reaches the
      repository: SignUp answers the same whatever the repository would do. */
  lemma SignUpValidatesFirst(candidate: UserAuth, bcrypt: Bcrypt,
                             createUser: UserAuth -> Option<Error>, createUser': UserAuth -> Option<Error>)
    requires candidate.name == "" || candidate.password == ""
    ensures SignUp(candidate, bcrypt, createUser) == SignUp(candidate, bcrypt, createUser')
    ensures SignUp(candidate, bcrypt, createUser).Some?
  {
  }

  /** SignIn: validation, lookup by login, the password check against the
      stored hash, then a token for the stored user under the service's key. */
  function SignIn(candidate: UserAuth, key: string, bcrypt: Bcrypt,
                  getUserByName: string -> Result<User>,
                  generateToken: (User, string) -> Result<string>): (r: Result<string>)
    ensures CheckCandidate(candidate).Some? ==> r == Failure(CheckCandidate(candidate).value)
    ensures CheckCandidate(candidate).None? && getUserByName(candidate.name).Failure? ==>
              r == Failure(Wrapped(GettingUserNamed(candidate.name), getUserByName(candidate.name).error))
    ensures CheckCandidate(candidate).None? && getUserByName(candidate.name).Success? ==>
              var user := getUserByName(candidate.name).value;
              (bcrypt.compare(user.password, candidate.password).Some? ==>
                 r == Failure(Wrapped(InvalidPasswordFor(candidate.name), bcrypt.compare(user.password, candidate.password).value)))
              && (bcrypt.compare(user.password, candidate.password).None? ==>
                 (r.Success? <==> generateToken(user, key).Success?)
                 && (r.Success? ==> r.value == generateToken(user, key).value)
                 && (r.Failure? ==> r.error == Wrapped(GeneratingTokenFor(candidate.name), generateToken(user, key).error)))
  {
    match CheckCandidate(candidate)
    case Some(e) => Failure(e)
    case None =>
      match getUserByName(candidate.name)
      case Failure(e) => Failure(Wrapped(GettingUserNamed(candidate.name), e))
      case Success(user) =>
        match bcrypt.compare(user.password, candidate.password)
        case Some(e) => Failure(Wrapped(InvalidPasswordFor(candidate.name), e))
        case None =>
          match generateToken(user, key)
          case Failure(e) => Failure(Wrapped(GeneratingTokenFor(candidate.name), e))
          case Success(token) => Success(token)
  }

  /** A password mismatch never reaches the token handler. */
  lemma NoTokenOnMismatch(candidate: UserAuth, key: string, bcrypt: Bcrypt,
                          getUserByName: string -> Result<User>,
                          generateToken: (User, string) -> Result<string>,
                          generateToken': (User, string) -> Result<string>)
    requires getUserByName(candidate.name).Success?
    requires bcrypt.compare(getUserByName(candidate.name).value.password, candidate.password).Some?
    ensures SignIn(candidate, key, bcrypt, getUserByName, generateToken)
         == SignIn(candidate, key, bcrypt, getUserByName, generateToken')
    ensures SignIn(candidate, key, bcrypt, getUserByName, generateToken).Failure?
  {
  }

  /** A user signed up through SignUp and stored by the repository signs in
      with the same login and password, and receives the token the handler
      issues for the stored user. */
  lemma SignUpThenSignIn(users: Users, candidate: UserAuth, newId: Uuid, key: string, bcrypt: Bcrypt,
                         generateToken: (User, string) -> Result<string>)
    requires Consistent(bcrypt)
    requires SignUpRecord(candidate, bcrypt).Success?
    requires UniqueUserNames(users[newId := UserRepository.ToDaUser(SignUpRecord(candidate, bcrypt).value)])
    ensures var stored := users[newId := UserRepository.ToDaUser(SignUpRecord(candidate, bcrypt).value)];
            var user := User(newId, candidate.name, SignUpRecord(candidate, bcrypt).value.password);
            SignIn(candidate, key, bcrypt, name => UserRepository.GetUserByName(stored, name, None), generateToken)
              == match generateToken(user, key)
                 case Success(token) => Success(token)
                 case Failure(e) => Failure(Wrapped(GeneratingTokenFor(candidate.name), e))
  {
    var stored := users[newId := UserRepository.ToDaUser(SignUpRecord(candidate, bcrypt).value)];
    var found := UserRepository.GetUserByName(stored, candidate.name, None);
    assert stored[newId].name == candidate.name;
    assert found.value.id == newId;
    assert bcrypt.compare(bcrypt.generate(candidate.password).value, candidate.password).None?;
  }

  /** The same bcrypt with the two arguments of `compare` exchanged. */
  function Swapped(bcrypt: Bcrypt): (b: Bcrypt)
    ensures b.generate == bcrypt.generate
    ensures forall h, p :: b.compare(h, p) == bcrypt.compare(p, h)
  {
    bcrypt.(compare := (hashed, password) => bcrypt.compare(password, hashed))
  }

  /** SignIn as written: CompareHashAndPassword receives the candidate's
      plaintext as the hash and the stored hash as the password. */
  function SignInAsWritten(candidate: UserAuth, key: string, bcrypt: Bcrypt,
                           getUserByName: string -> Result<User>,
                           generateToken: (User, string) -> Result<string>): (r: Result<string>)
    ensures CheckCandidate(candidate).None? && getUserByName(candidate.name).Success? ==>
              var user := getUserByName(candidate.name).value;
              bcrypt.compare(candidate.password, user.password).Some? ==> r.Failure?
  {
    SignIn(candidate, key, Swapped(bcrypt), getUserByName, generateToken)
  }

  /** A stand-in for bcrypt in which the hash of p is "$2a$" followed by p. */
  function Prefixed(): (b: Bcrypt)
    ensures Consistent(b)
  {
    Bcrypt(p => Success("$2a$" + p),
           (hashed, password) => if hashed == "$2a$" + password then None else Some(Foreign("hashedPassword is not the hash of the given password")))
  }

  /** As written, a user who signed up with login "ann" and password "pw"
      cannot sign in with that password, even with a bcrypt whose hashes
      match their passwords. */
  lemma SwappedCompareRefusesOwnPassword(key: string, generateToken: (User, string) -> Result<string>)
    ensures var candidate := UserAuth("ann", "pw");
            var stored := map[0 := UserRepository.ToDaUser(SignUpRecord(candidate, Prefixed()).value)];
            SignInAsWritten(candidate, key, Prefixed(), name => UserRepository.GetUserByName(stored, name, None), generateToken).Failure?
  {
    var candidate := UserAuth("ann", "pw");
    var stored: Users := map[0 := UserRow("ann", "$2a$pw")];
    assert SignUpRecord(candidate, Prefixed()).value == UserAuth("ann", "$2a$pw");
    assert 0 in stored && stored[0].name == "ann";
    var found := UserRepository.GetUserByName(stored, "ann", None);
    assert found.value.id == 0;
    assert "pw" != "$2a$" + "$2a$pw";
  }

  /** CheckTaskOwnership: the repository's verdict unchanged, or its error
      wrapped (the Go method then also returns false). */
  function CheckTaskOwnership(userId: Uuid, taskId: Uuid, check: (Uuid, Uuid) -> Result<bool>): (r: Result<bool>)
    ensures r.Success? <==> check(userId, taskId).Success?
    ensures r.Success? ==> r == check(userId, taskId)
    ensures r.Failure? ==> r.error == Wrapped(CheckingOwnership, check(userId, taskId).error)
  {
    WrapResult(CheckingOwnership, check(userId, taskId))
  }

  /** CheckCategoriesOwnership: the same for a category list. It wraps with
      the same message as the task check. */
  function CheckCategoriesOwnership(userId: Uuid, ids: seq<Uuid>, check: (Uuid, seq<Uuid>) -> Result<bool>): (r: Result<bool>)
    ensures r.Success? <==> check(userId, ids).Success?
    ensures r.Success? ==> r == check(userId, ids)
    ensures r.Failure? ==> r.error == Wrapped(CheckingOwnership, check(userId, ids).error)
  {
    WrapResult(CheckingOwnership, check(userId, ids))
  }

  /** DeleteUser: the repository's error wrapped with the user id. */
  function DeleteUser(userId: Uuid, deleteUser: Uuid -> Option<Error>): (err: Option<Error>)
    ensures err.None? <==> deleteUser(userId).None?
    ensures err.Some? ==> err.value == Wrapped(DeletingUserWithId(userId), deleteUser(userId).value)
  {
    Wrap(DeletingUserWithId(userId), deleteUser(userId))
  }

  /** Wrapping in the adapter keeps the repository's error reachable:
      a missing user is still recognised as ErrUserNotFound. */
  lemma DeleteUserKeepsNotFound(userId: Uuid, deleteUser: Uuid -> Option<Error>)
    requires deleteUser(userId) == Some(UserNotFound)
    ensures Is(DeleteUser(userId, deleteUser).value, UserNotFound)
    ensures Cause(DeleteUser(userId, deleteUser).value) == UserNotFound
  {
  }
}
