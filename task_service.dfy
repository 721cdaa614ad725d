/** The task service (internal/adapters/task.go): each method makes one call
    to the task repository and wraps a failure with its own message. The
    repository methods are passed in as functions, with the repository's
    signatures, which also carry the user id and the category ids. */
module TaskService {
  import opened Base
  import opened Models

  function CreateTask(userId: Uuid, body: TaskBody, categoryIds: seq<Uuid>,
                      create: (Uuid, TaskBody, seq<Uuid>) -> Option<Error>): (err: Option<Error>)
    ensures err.None? <==> create(userId, body, categoryIds).None?
    ensures err.Some? ==> err.value == Wrapped(CreatingTask, create(userId, body, categoryIds).value)
  {
    Wrap(CreatingTask, create(userId, body, categoryIds))
  }

  function Update(id: Uuid, body: TaskBody, categoryIds: Option<seq<Uuid>>,
                  update: (Uuid, TaskBody, Option<seq<Uuid>>) -> Option<Error>): (err: Option<Error>)
    ensures err.None? <==> update(id, body, categoryIds).None?
    ensures err.Some? ==> err.value == Wrapped(UpdatingTask(id), update(id, body, categoryIds).value)
  {
    Wrap(UpdatingTask(id), update(id, body, categoryIds))
  }

  /** GetByID: the repository's task unchanged, or no task and a wrapped
      error. */
  function GetByID(id: Uuid, get: Uuid -> Result<TaskFullInfo>): (r: Result<TaskFullInfo>)
    ensures r.Success? ==> r == get(id)
    ensures r.Failure? ==> get(id).Failure? && r.error == Wrapped(GettingTask(id), get(id).error)
  {
    WrapResult(GettingTask(id), get(id))
  }

  /** GetAll: the repository's page unchanged, or no list and a wrapped
      error. */
  function GetAll(userId: Uuid, pageIndex: int, recordsPerPage: int,
                  getAll: (Uuid, int, int) -> Result<seq<TaskShortInfo>>): (r: Result<seq<TaskShortInfo>>)
    ensures r.Success? ==> r == getAll(userId, pageIndex, recordsPerPage)
    ensures r.Failure? ==> getAll(userId, pageIndex, recordsPerPage).Failure?
                           && r.error == Wrapped(GettingAllTasks, getAll(userId, pageIndex, recordsPerPage).error)
  {
    WrapResult(GettingAllTasks, getAll(userId, pageIndex, recordsPerPage))
  }

  function Delete(id: Uuid, delete: Uuid -> Option<Error>): (err: Option<Error>)
    ensures err.None? <==> delete(id).None?
    ensures err.Some? ==> err.value == Wrapped(DeletingTask(id), delete(id).value)
  {
    Wrap(DeletingTask(id), delete(id))
  }

  function ToggleDone(id: Uuid, toggle: Uuid -> Option<Error>): (err: Option<Error>)
    ensures err.None? <==> toggle(id).None?
    ensures err.Some? ==> err.value == Wrapped(TogglingTask(id), toggle(id).value)
  {
    Wrap(TogglingTask(id), toggle(id))
  }

  /** The service adds one layer of context and nothing else: a caller can
      still tell a missing task (`gorm.ErrRecordNotFound`) from other
      failures of Update, ToggleDone and GetByID. */
  lemma MissingTaskStillRecognised(id: Uuid, body: TaskBody, categoryIds: Option<seq<Uuid>>,
                                   update: (Uuid, TaskBody, Option<seq<Uuid>>) -> Option<Error>,
                                   toggle: Uuid -> Option<Error>, get: Uuid -> Result<TaskFullInfo>)
    requires update(id, body, categoryIds) == Some(RecordNotFound)
    requires toggle(id) == Some(RecordNotFound)
    requires get(id) == Failure(RecordNotFound)
    ensures Is(Update(id, body, categoryIds, update).value, RecordNotFound)
    ensures Is(ToggleDone(id, toggle).value, RecordNotFound)
    ensures Is(GetByID(id, get).error, RecordNotFound)
  {
  }
}
