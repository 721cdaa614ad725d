/** The two ownership gates (internal/middleware/ownership.go). Each is a
    chain of early returns that ends in one error response or in one call of
    the next handler. The user id is the value the authentication gate put
    into the request context (`None` when it is absent); the ownership
    checks are the credential service's, passed in as functions. */
module OwnershipGate {
  import opened Base
  import opened Models

  /** The JSON request body of task create and update: a title, a
      description and a category-id list (`None` when the field is absent
      or null). */
  datatype TaskRequest = TaskRequest(body: TaskBody, categoryIds: Option<seq<Uuid>>)

  /** The request body stream. `fault` is the error reading it reports, if
      any; `unread` is what the next reader gets. */
  class RequestBody {
    var unread: seq<byte>
    var fault: Option<Error>

    constructor (bytes: seq<byte>, fault: Option<Error>)
      ensures unread == bytes && this.fault == fault
    {
      unread := bytes;
      this.fault := fault;
    }

    /** `io.ReadAll`: the whole body, or the read error. Either way the
        stream is drained. */
    method ReadAll() returns (r: Result<seq<byte>>)
      modifies this
      ensures old(fault).None? ==> r == Success(old(unread))
      ensures old(fault).Some? ==> r == Failure(old(fault).value)
      ensures unread == [] && fault == old(fault)
    {
      if fault.Some? {
        r := Failure(fault.value);
      } else {
        r := Success(unread);
      }
      unread := [];
    }

    /** `r.Body = io.NopCloser(bytes.NewBuffer(bodyBytes))`: a fresh stream
        over a buffered copy. */
    method Restore(bytes: seq<byte>)
      modifies this
      ensures unread == bytes && fault == None
    {
      unread := bytes;
      fault := None;
    }
  }

  /** The decision of CheckCategoriesMiddleware for the result of reading
      the body. The user id is looked at before the body is decoded; only an
      owned category list reaches the next handler, with the body as read. */
  function CategoriesDecision(read: Result<seq<byte>>, userId: Option<Uuid>,
                              decode: seq<byte> -> Result<TaskRequest>,
                              check: (Uuid, seq<Uuid>) -> Result<bool>): (d: Decision<seq<byte>>)
    ensures read.Failure? ==> d == Reject(BadRequest, ErrorResponse(Text("failed to read request body")))
    ensures read.Success? && userId.None? ==> d == Reject(Unauthorized, ErrorResponse(Text("Missing userID")))
    ensures read.Success? && userId.Some? && decode(read.value).Failure? ==>
              d == Reject(BadRequest, ErrorResponse(ErrorText(decode(read.value).error)))
    ensures d.Next? <==>
              read.Success? && userId.Some? && decode(read.value).Success?
              && check(userId.value, decode(read.value).value.categoryIds.GetOr([])) == Success(true)
    ensures d.Next? ==> d.forwarded == read.value
    ensures read.Success? && userId.Some? && decode(read.value).Success? ==>
              var c := check(userId.value, decode(read.value).value.categoryIds.GetOr([]));
              (c.Failure? ==> d == Reject(InternalServerError, ErrorResponse(ErrorText(c.error))))
              && (c == Success(false) ==> d == Reject(Forbidden, ErrorResponse(Text("Unauthorized access to categories"))))
  {
    if read.Failure? then Reject(BadRequest, ErrorResponse(Text("failed to read request body")))
    else if userId.None? then Reject(Unauthorized, ErrorResponse(Text("Missing userID")))
    else match decode(read.value)
      case Failure(e) => Reject(BadRequest, ErrorResponse(ErrorText(e)))
      case Success(req) =>
        match check(userId.value, req.categoryIds.GetOr([]))
        case Failure(e) => Reject(InternalServerError, ErrorResponse(ErrorText(e)))
        case Success(owned) =>
          if owned then Next(read.value)
          else Reject(Forbidden, ErrorResponse(Text("Unauthorized access to categories")))
  }

  /** CheckCategoriesMiddleware: reads the body, decides, and on a pass
      reinstalls the bytes it read, so the next handler reads the same body. */
  method CheckCategoriesMiddleware(body: RequestBody, userId: Option<Uuid>,
                                   decode: seq<byte> -> Result<TaskRequest>,
                                   check: (Uuid, seq<Uuid>) -> Result<bool>) returns (d: Decision<seq<byte>>)
    modifies body
    ensures d == CategoriesDecision(if old(body.fault).Some? then Failure(old(body.fault).value) else Success(old(body.unread)),
                                    userId, decode, check)
    ensures d.Next? ==> body.unread == old(body.unread) && body.fault == None
    ensures d.Reject? ==> body.unread == [] && body.fault == old(body.fault)
  {
    var read := body.ReadAll();
    d := CategoriesDecision(read, userId, decode, check);
    if d.Next? {
      body.Restore(read.value);
    }
  }

  /** A missing user id is reported before the body is decoded: the
      decoder and the check make no difference to that answer. */
  lemma MissingUserBeforeDecode(bytes: seq<byte>,
                                decode: seq<byte> -> Result<TaskRequest>, decode': seq<byte> -> Result<TaskRequest>,
                                check: (Uuid, seq<Uuid>) -> Result<bool>, check': (Uuid, seq<Uuid>) -> Result<bool>)
    ensures CategoriesDecision(Success(bytes), None, decode, check)
         == CategoriesDecision(Success(bytes), None, decode', check')
  {
  }

  /** Every rejection is an error response, with one of the four statuses
      of the gate. */
  lemma CategoriesRejections(read: Result<seq<byte>>, userId: Option<Uuid>,
                             decode: seq<byte> -> Result<TaskRequest>,
                             check: (Uuid, seq<Uuid>) -> Result<bool>)
    ensures var d := CategoriesDecision(read, userId, decode, check);
            d.Reject? ==> d.body.status == StatusError
                          && d.status in {BadRequest, Unauthorized, Forbidden, InternalServerError}
  {
  }

  /** The decision of CheckTaskMiddleware: the id path parameter is checked
      for presence, then parsed, then the user id is looked up, then the
      ownership check runs; only an owned task reaches the next handler. */
  function CheckTaskMiddleware(idParam: string, parseUuid: string -> Result<Uuid>, userId: Option<Uuid>,
                               check: (Uuid, Uuid) -> Result<bool>): (d: Decision<()>)
    ensures idParam == "" ==> d == Reject(BadRequest, ErrorResponse(Text("Task ID required")))
    ensures idParam != "" && parseUuid(idParam).Failure? ==> d == Reject(BadRequest, ErrorResponse(Text("invalid UUID")))
    ensures idParam != "" && parseUuid(idParam).Success? && userId.None? ==>
              d == Reject(Unauthorized, ErrorResponse(Text("Missing userID")))
    ensures d.Next? <==>
              idParam != "" && parseUuid(idParam).Success? && userId.Some?
              && check(userId.value, parseUuid(idParam).value) == Success(true)
    ensures idParam != "" && parseUuid(idParam).Success? && userId.Some? ==>
              var c := check(userId.value, parseUuid(idParam).value);
              (c.Failure? ==> d == Reject(InternalServerError, ErrorResponse(ErrorText(c.error))))
              && (c == Success(false) ==> d == Reject(Forbidden, ErrorResponse(Text("Unauthorized access to task"))))
  {
    if idParam == "" then Reject(BadRequest, ErrorResponse(Text("Task ID required")))
    else match parseUuid(idParam)
      case Failure(_) => Reject(BadRequest, ErrorResponse(Text("invalid UUID")))
      case Success(taskId) =>
        if userId.None? then Reject(Unauthorized, ErrorResponse(Text("Missing userID")))
        else match check(userId.value, taskId)
          case Failure(e) => Reject(InternalServerError, ErrorResponse(ErrorText(e)))
          case Success(owned) =>
            if owned then Next(())
            else Reject(Forbidden, ErrorResponse(Text("Unauthorized access to task")))
  }

  /** A malformed id is refused before the user id is looked at: even an
      unauthenticated request gets 400 for it. */
  lemma MalformedIdBeforeUser(idParam: string, parseUuid: string -> Result<Uuid>,
                              userId: Option<Uuid>, userId': Option<Uuid>,
                              check: (Uuid, Uuid) -> Result<bool>)
    requires idParam == "" || parseUuid(idParam).Failure?
    ensures CheckTaskMiddleware(idParam, parseUuid, userId, check)
         == CheckTaskMiddleware(idParam, parseUuid, userId', check)
    ensures CheckTaskMiddleware(idParam, parseUuid, userId, check).status == BadRequest
  {
  }
}
