/** Values shared by every layer: identifiers, bytes, results and the error
    values the service builds, including the wrapping done by `errors.Wrap`. */
module Base {

  /** A 128-bit UUID (`uuid.UUID`). */
  newtype Uuid = x: int | 0 <= x < 0x1_0000_0000_0000_0000_0000_0000_0000_0000

  /** One byte of a request body. */
  newtype byte = x: int | 0 <= x < 256

  datatype Option<T> = None | Some(value: T) {
    function GetOr(default: T): T {
      if Some? then value else default
    }
  }

  /** A Go `(value, error)` pair: exactly one of the two is meaningful. */
  datatype Result<T> = Success(value: T) | Failure(error: Error)

  /** The places where the service wraps an error with context, together
      with the argument each message is formatted with. */
  datatype Site =
    // internal/repository/user.go
    | GettingUserById
    | GettingUserByName
    | CreatingUser
    | VerifyingTaskOwnership
    | RawOwnershipCheck
    | DeletingUser
    // internal/pkg/authUtils/tokenCreator.go
    | CreatingToken
    | ParsingTokenFailed
    | ParsingUserId
    // internal/adapters/auth.go
    | HashingPassword(password: string)
    | CreatingUserNamed(login: string)
    | GettingUserNamed(login: string)
    | InvalidPasswordFor(login: string)
    | GeneratingTokenFor(login: string)
    | CheckingOwnership
    | DeletingUserWithId(id: Uuid)
    // internal/adapters/task.go
    | CreatingTask
    | UpdatingTask(id: Uuid)
    | GettingTask(id: Uuid)
    | GettingAllTasks
    | DeletingTask(id: Uuid)
    | TogglingTask(id: Uuid)
    // internal/adapters/category.go
    | CreatingCategory
    | DeletingCategory
    | GettingAllCategories

  datatype Error =
    | UserNotFound                    // models.ErrUserNotFound
    | CategoryNotFound                // models.ErrCategoryNotFound
    | RecordNotFound                  // gorm.ErrRecordNotFound
    | UniqueViolation                 // a primary-key or unique-name constraint refused a row
    | ParsingToken                    // auth_utils.ErrParsingToken
    | InvalidToken                    // auth_utils.ErrInvalidToken
    | EmptyLogin                      // "Failed to login with empty login"
    | EmptyPassword(login: string)    // "Empty password for user with login %s"
    | MissingClaim(claim: string)     // a claim absent from a parsed token
    | Foreign(reason: string)         // a failure reported by the database or a library
    | Wrapped(site: Site, cause: Error)

  /** The underlying error of a wrapping chain: the innermost error, the
      one that `errors.Is` reaches last. (The chain of `Wrapped` here stands
      for both `errors.Wrap` and `fmt.Errorf` with `%w`.) */
  function Cause(e: Error): (c: Error)
    ensures !c.Wrapped?
    ensures !e.Wrapped? ==> c == e
  {
    if e.Wrapped? then Cause(e.cause) else e
  }

  /** `errors.Is`: some error of the chain equals `target`. A target that
      wraps nothing can only be found at the bottom of the chain. */
  predicate Is(e: Error, target: Error): (b: bool)
    ensures e == target ==> b
    ensures !e.Wrapped? ==> (b <==> e == target)
    ensures b && !target.Wrapped? ==> Cause(e) == target
  {
    e == target || (e.Wrapped? && Is(e.cause, target))
  }

  /** `errors.Wrap(err, msg)` and `errors.Wrapf`: no error stays no error,
      and an error is wrapped with the message of `site`. */
  function Wrap(site: Site, err: Option<Error>): (r: Option<Error>)
    ensures r.None? <==> err.None?
    ensures r.Some? ==> r.value.Wrapped? && r.value.site == site && Cause(r.value) == Cause(err.value)
  {
    if err.Some? then Some(Wrapped(site, err.value)) else None
  }

  /** The same for a call returning a value: a value passes unchanged, an
      error is wrapped (and the Go method returns nil alongside it). */
  function WrapResult<T>(site: Site, r: Result<T>): (w: Result<T>)
    ensures w.Success? <==> r.Success?
    ensures w.Success? ==> w == r
    ensures w.Failure? ==> w.error.Wrapped? && w.error.site == site && Cause(w.error) == Cause(r.error)
  {
    if r.Failure? then Failure(Wrapped(site, r.error)) else r
  }

  /** Wrapping keeps the cause and the chain: the outer handler can still
      classify the error by what went wrong underneath. */
  lemma {:induction false} WrapKeepsCause(site: Site, e: Error, target: Error)
    ensures Cause(Wrapped(site, e)) == Cause(e)
    ensures Is(e, target) ==> Is(Wrapped(site, e), target)
    ensures Is(Wrapped(site, e), target) <==> (Wrapped(site, e) == target || Is(e, target))
  {
  }

  /** The chain of a wrapped error always ends in its cause. */
  lemma {:induction false} IsCause(e: Error)
    ensures Is(e, Cause(e))
  {
    if e.Wrapped? {
      IsCause(e.cause);
    }
  }
}
