/** The plain records that cross the layers (internal/models) and the JSON
    envelope every error response uses (internal/pkg/response). */
module Models {
  import opened Base

  datatype User = User(id: Uuid, name: string, password: string)

  /** Sign-up and sign-in input: a login and a password (plaintext). */
  datatype UserAuth = UserAuth(name: string, password: string)

  datatype TaskBody = TaskBody(title: string, description: string)

  /** `models.Category`: what a listing shows of a category. */
  datatype CategoryInfo = CategoryInfo(id: Uuid, name: string)

  datatype CategoryBody = CategoryBody(name: string)

  datatype TaskFullInfo = TaskFullInfo(
    id: Uuid, title: string, description: string, isDone: bool,
    categories: seq<CategoryInfo>)

  datatype TaskShortInfo = TaskShortInfo(id: Uuid, title: string, isDone: bool)

  /** A response message: literal text, or the text of an error (`err.Error()`). */
  datatype Message = Text(text: string) | ErrorText(error: Error)

  datatype Response = Response(status: string, message: Message)

  const StatusOK: string := "OK"
  const StatusError: string := "Error"

  /** `response.Error(msg)`. */
  function ErrorResponse(m: Message): Response {
    Response(StatusError, m)
  }

  /** What a middleware does with a request: answer it with an error status
      and a body, or call the next handler once, with `forwarded`. Exactly
      one of the two happens on every path. */
  datatype Decision<T> = Reject(status: int, body: Response) | Next(forwarded: T)

  const Ok: int := 200
  const BadRequest: int := 400
  const Unauthorized: int := 401
  const Forbidden: int := 403
  const InternalServerError: int := 500
}
