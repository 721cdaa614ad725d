/** The task routes as internal/api/handlers/handlers.go wires them: the
    authentication gate, then (for a path with a task id) the task gate,
    then (for create and update) the category gate, then the task service
    over the store. The handlers themselves are empty in the repository;
    here a handler decodes the forwarded body with the gate's decoder and
    makes the one service call. `Reject` is the answer of a gate; `Next(err)`
    means the handler ran and the service returned `err`. Each ownership
    check is its own query, so each gate gets its own `fault`.

    The headline property: when every category records its owner, no
    request through these routes can link a task to a category of another
    user, so `LinksOwned` holds after every request. */
module Routes {
  import opened Base
  import opened Models
  import opened Schema
  import UserRepository
  import opened TaskRepository
  import opened Tokens
  import opened AuthGate
  import opened OwnershipGate
  import AuthService
  import TaskService
  import opened Store

  /** The category check the gate calls: the credential service over the
      repository query, on the given category table. */
  function CategoryCheck(categories: Categories, fault: Option<Error>): (Uuid, seq<Uuid>) -> Result<bool> {
    (u, ids) => AuthService.CheckCategoriesOwnership(u, ids,
                  (u', ids') => UserRepository.CheckCategoriesOwnership(categories, u', ids', fault))
  }

  /** The task check the gate calls, likewise. */
  function TaskCheck(tasks: Tasks, fault: Option<Error>): (Uuid, Uuid) -> Result<bool> {
    (u, t) => AuthService.CheckTaskOwnership(u, t,
                (u', t') => UserRepository.CheckTaskOwnership(tasks, u', t', fault))
  }

  /** A category list the gate let through is owned on a fault-free read:
      a store failure cannot make the gate pass a non-empty list. */
  lemma CategoryGateImpliesOwned(categories: Categories, userId: Uuid, ids: seq<Uuid>, fault: Option<Error>)
    requires CategoryCheck(categories, fault)(userId, ids) == Success(true)
    ensures UserRepository.CheckCategoriesOwnership(categories, userId, ids, None) == Success(true)
  {
  }

  /** A task the gate let through belongs to the requesting user. */
  lemma TaskGateImpliesOwner(tasks: Tasks, idParam: string, parseUuid: string -> Result<Uuid>, userId: Uuid, fault: Option<Error>)
    requires CheckTaskMiddleware(idParam, parseUuid, Some(userId), TaskCheck(tasks, fault)).Next?
    ensures parseUuid(idParam).Success?
    ensures parseUuid(idParam).value in tasks && tasks[parseUuid(idParam).value].userId == userId
  {
    var taskId := parseUuid(idParam).value;
    assert TaskCheck(tasks, fault)(userId, taskId)
        == AuthService.CheckTaskOwnership(userId, taskId,
             (u', t') => UserRepository.CheckTaskOwnership(tasks, u', t', fault));
  }

  /** Another user's task is refused with 403, and a store failure with
      500; neither reaches the handler. */
  lemma OtherUsersTaskForbidden(tasks: Tasks, idParam: string, parseUuid: string -> Result<Uuid>,
                                other: Uuid, fault: Option<Error>)
    requires idParam != "" && parseUuid(idParam).Success?
    requires parseUuid(idParam).value in tasks && tasks[parseUuid(idParam).value].userId != other
    ensures fault.None? ==> CheckTaskMiddleware(idParam, parseUuid, Some(other), TaskCheck(tasks, fault))
                            == Reject(Forbidden, ErrorResponse(Text("Unauthorized access to task")))
    ensures fault.Some? ==> CheckTaskMiddleware(idParam, parseUuid, Some(other), TaskCheck(tasks, fault)).status
                            == InternalServerError
  {
    var taskId := parseUuid(idParam).value;
    assert TaskCheck(tasks, fault)(other, taskId)
        == AuthService.CheckTaskOwnership(other, taskId,
             (u', t') => UserRepository.CheckTaskOwnership(tasks, u', t', fault));
  }

  /** POST /api/v1/task. */
  method CreateTaskRoute(store: Store, authorization: string, secret: string,
                         parseToken: (string, string) -> Result<Payload>,
                         body: RequestBody, decode: seq<byte> -> Result<TaskRequest>,
                         checkFault: Option<Error>, newId: Uuid, fault: Option<Error>)
    returns (answer: Decision<Option<Error>>)
    requires store.Valid() && LinksOwned(store.tasks, store.categories) && OwnersRecorded(store.categories)
    modifies store, body
    ensures store.Valid() && LinksOwned(store.tasks, store.categories)
    ensures store.users == old(store.users) && store.categories == old(store.categories)
    ensures answer.Reject? || answer.forwarded.Some? ==> store.tasks == old(store.tasks)
    ensures answer.Next? ==> JwtAuth(authorization, secret, parseToken).Next?
                             && old(body.fault).None? && decode(old(body.unread)).Success?
    ensures answer == Next(None) ==>
              store.tasks.Keys == old(store.tasks).Keys + {newId}
              && store.tasks[newId].userId == JwtAuth(authorization, secret, parseToken).forwarded
              && store.tasks[newId].title == decode(old(body.unread)).value.body.title
              && !store.tasks[newId].isDone
    ensures answer == Next(None) ==>
              var req := decode(old(body.unread)).value;
              store.tasks == old(store.tasks)[newId := NewTask(newId, JwtAuth(authorization, secret, parseToken).forwarded,
                                                               req.body, req.categoryIds.GetOr([]), old(store.categories))]
  {
    var auth := JwtAuth(authorization, secret, parseToken);
    if auth.Reject? {
      return Reject(auth.status, auth.body);
    }
    var userId := auth.forwarded;
    var gate := CheckCategoriesMiddleware(body, Some(userId), decode, CategoryCheck(store.categories, checkFault));
    if gate.Reject? {
      return Reject(gate.status, gate.body);
    }
    var req := decode(gate.forwarded).value;
    var ids := req.categoryIds.GetOr([]);
    CategoryGateImpliesOwned(store.categories, userId, ids, checkFault);
    var err := store.CreateTask(userId, req.body, ids, newId, fault);
    answer := Next(TaskService.CreateTask(userId, req.body, ids, (_, _, _) => err));
  }

  /** PATCH /api/v1/task/{id}. */
  method UpdateTaskRoute(store: Store, authorization: string, secret: string,
                         parseToken: (string, string) -> Result<Payload>,
                         idParam: string, parseUuid: string -> Result<Uuid>,
                         body: RequestBody, decode: seq<byte> -> Result<TaskRequest>,
                         taskCheckFault: Option<Error>, categoryCheckFault: Option<Error>, fault: Option<Error>)
    returns (answer: Decision<Option<Error>>)
    requires store.Valid() && LinksOwned(store.tasks, store.categories) && OwnersRecorded(store.categories)
    modifies store, body
    ensures store.Valid() && LinksOwned(store.tasks, store.categories)
    ensures store.users == old(store.users) && store.categories == old(store.categories)
    ensures answer.Reject? || answer.forwarded.Some? ==> store.tasks == old(store.tasks)
    ensures answer.Next? ==>
              JwtAuth(authorization, secret, parseToken).Next? && parseUuid(idParam).Success?
              && parseUuid(idParam).value in old(store.tasks)
              && old(store.tasks)[parseUuid(idParam).value].userId == JwtAuth(authorization, secret, parseToken).forwarded
              && old(body.fault).None? && decode(old(body.unread)).Success?
    ensures answer == Next(None) ==>
              store.tasks.Keys == old(store.tasks).Keys
              && (forall k :: k in store.tasks && k != parseUuid(idParam).value ==> store.tasks[k] == old(store.tasks)[k])
    ensures answer == Next(None) ==>
              var id := parseUuid(idParam).value;
              var req := decode(old(body.unread)).value;
              store.tasks == old(store.tasks)[id := Updated(old(store.tasks)[id], req.body, req.categoryIds, old(store.categories))]
  {
    var auth := JwtAuth(authorization, secret, parseToken);
    if auth.Reject? {
      return Reject(auth.status, auth.body);
    }
    var userId := auth.forwarded;
    var taskGate := CheckTaskMiddleware(idParam, parseUuid, Some(userId), TaskCheck(store.tasks, taskCheckFault));
    if taskGate.Reject? {
      return Reject(taskGate.status, taskGate.body);
    }
    TaskGateImpliesOwner(store.tasks, idParam, parseUuid, userId, taskCheckFault);
    var taskId := parseUuid(idParam).value;
    var gate := CheckCategoriesMiddleware(body, Some(userId), decode, CategoryCheck(store.categories, categoryCheckFault));
    if gate.Reject? {
      return Reject(gate.status, gate.body);
    }
    var req := decode(gate.forwarded).value;
    CategoryGateImpliesOwned(store.categories, userId, req.categoryIds.GetOr([]), categoryCheckFault);
    var err := store.Update(taskId, req.body, req.categoryIds, fault);
    answer := Next(TaskService.Update(taskId, req.body, req.categoryIds, (_, _, _) => err));
  }

  /** DELETE /api/v1/task/{id}: only the owner's request reaches the store. */
  method DeleteTaskRoute(store: Store, authorization: string, secret: string,
                         parseToken: (string, string) -> Result<Payload>,
                         idParam: string, parseUuid: string -> Result<Uuid>,
                         checkFault: Option<Error>, fault: Option<Error>)
    returns (answer: Decision<Option<Error>>)
    requires store.Valid() && LinksOwned(store.tasks, store.categories)
    modifies store
    ensures store.Valid() && LinksOwned(store.tasks, store.categories)
    ensures store.users == old(store.users) && store.categories == old(store.categories)
    ensures answer.Reject? || answer.forwarded.Some? ==> store.tasks == old(store.tasks)
    ensures answer.Next? ==>
              JwtAuth(authorization, secret, parseToken).Next? && parseUuid(idParam).Success?
              && parseUuid(idParam).value in old(store.tasks)
              && old(store.tasks)[parseUuid(idParam).value].userId == JwtAuth(authorization, secret, parseToken).forwarded
    ensures answer == Next(None) ==> store.tasks == old(store.tasks) - {parseUuid(idParam).value}
  {
    var auth := JwtAuth(authorization, secret, parseToken);
    if auth.Reject? {
      return Reject(auth.status, auth.body);
    }
    var userId := auth.forwarded;
    var taskGate := CheckTaskMiddleware(idParam, parseUuid, Some(userId), TaskCheck(store.tasks, checkFault));
    if taskGate.Reject? {
      return Reject(taskGate.status, taskGate.body);
    }
    TaskGateImpliesOwner(store.tasks, idParam, parseUuid, userId, checkFault);
    var taskId := parseUuid(idParam).value;
    var err := store.Delete(taskId, fault);
    answer := Next(TaskService.Delete(taskId, _ => err));
  }
}
