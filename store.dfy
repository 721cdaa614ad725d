/** The database the three repositories share, as one object holding the
    tables (internal/repository/user.go, task.go, category.go). Every
    operation is one call into the database and takes `fault`: the failure,
    if any, that the database reports for that call. A failed call changes
    nothing; a transaction that fails at any step is rolled back whole. Ids
    the database generates (`gen_random_uuid()`) arrive as `newId`; an id
    already in use is refused by the primary key. */
module Store {
  import opened Base
  import opened Models
  import opened Schema
  import opened UserRepository
  import opened TaskRepository

  /** No user has this login yet. */
  predicate UserNameFree(users: Users, name: string) {
    forall k :: k in users ==> users[k].name != name
  }

  /** No category has this name yet. */
  predicate CategoryNameFree(categories: Categories, name: string) {
    forall k :: k in categories ==> categories[k].name != name
  }

  /** The rows stored under the keys `ks`. */
  function RowsOf(tasks: Tasks, ks: set<Uuid>): set<Task>
    requires ks <= tasks.Keys
  {
    set k | k in ks :: tasks[k]
  }

  /** Taking one more key adds its row, which is new because rows carry
      their own keys. */
  lemma RowsOfAddOne(tasks: Tasks, ks: set<Uuid>, k: Uuid)
    requires KeyedById(tasks) && ks <= tasks.Keys && k in tasks && k !in ks
    ensures multiset(RowsOf(tasks, ks + {k})) == multiset(RowsOf(tasks, ks)) + multiset{tasks[k]}
  {
    assert RowsOf(tasks, ks + {k}) == RowsOf(tasks, ks) + {tasks[k]};
    assert tasks[k] !in RowsOf(tasks, ks);
  }

  /** The category check on a single existing id: owned unless another user
      is recorded as its owner. */
  lemma SingleCategoryCheck(categories: Categories, c: Uuid, userId: Uuid)
    requires c in categories
    ensures CheckCategoriesOwnership(categories, userId, [c], None) == Success(!OwnedByOther(categories[c], userId))
  {
    assert c in [c];
  }

  /** The rows of a query without ORDER BY, in whatever order the database
      returns them: each id of `s` exactly once. */
  method Scan(s: set<Uuid>) returns (e: seq<Uuid>)
    ensures forall x :: x in e <==> x in s
    ensures forall i, j :: 0 <= i < j < |e| ==> e[i] != e[j]
  {
    e := [];
    var rest := s;
    while rest != {}
      invariant rest <= s
      invariant forall x :: x in e <==> x in s - rest
      invariant forall i :: 0 <= i < |e| ==> e[i] !in rest
      invariant forall i, j :: 0 <= i < j < |e| ==> e[i] != e[j]
      decreases rest
    {
      var x :| x in rest;
      e := e + [x];
      rest := rest - {x};
    }
  }

  class Store {
    var users: Users
    var tasks: Tasks
    var categories: Categories

    /** What the schema's keys and constraints guarantee. */
    ghost predicate Valid()
      reads this
    {
      UniqueUserNames(users) && UniqueCategoryNames(categories)
      && KeyedById(tasks) && LinksExist(tasks, categories)
    }

    constructor ()
      ensures Valid()
      ensures users == map[] && tasks == map[] && categories == map[]
    {
      users, tasks, categories := map[], map[], map[];
    }

    // ----- internal/repository/user.go -----

    /** CreateUser: inserts the login and password verbatim under a new id;
        the unique login constraint refuses a login already taken. */
    method CreateUser(user: UserAuth, newId: Uuid, fault: Option<Error>) returns (err: Option<Error>)
      requires Valid()
      modifies this
      ensures Valid()
      ensures tasks == old(tasks) && categories == old(categories)
      ensures err.None? <==> fault.None? && newId !in old(users) && UserNameFree(old(users), user.name)
      ensures err.None? ==> users == old(users)[newId := ToDaUser(user)]
      ensures err.Some? ==> users == old(users) && err.value.Wrapped? && err.value.site == CreatingUser
    {
      if fault.Some? {
        return Some(Wrapped(CreatingUser, fault.value));
      }
      if newId in users || !UserNameFree(users, user.name) {
        return Some(Wrapped(CreatingUser, UniqueViolation));
      }
      users := users[newId := ToDaUser(user)];
      err := None;
    }

    /** DeleteUser: removes exactly the user with that id; nothing removed
        is ErrUserNotFound. */
    method DeleteUser(userId: Uuid, fault: Option<Error>) returns (err: Option<Error>)
      requires Valid()
      modifies this
      ensures Valid()
      ensures tasks == old(tasks) && categories == old(categories)
      ensures fault.Some? ==> err == Some(Wrapped(DeletingUser, fault.value)) && users == old(users)
      ensures fault.None? && userId !in old(users) ==> err == Some(UserNotFound) && users == old(users)
      ensures fault.None? && userId in old(users) ==> err.None? && users == old(users) - {userId}
    {
      if fault.Some? {
        return Some(Wrapped(DeletingUser, fault.value));
      }
      if userId !in users {
        return Some(UserNotFound);
      }
      users := users - {userId};
      err := None;
    }

    // ----- internal/repository/task.go -----

    /** CreateTask: one transaction inserting a not-done task of `userId`
        and linking the listed categories that exist. All or nothing. When
        the category gate passed for `userId`, the ownership invariant holds
        afterwards. */
    method CreateTask(userId: Uuid, body: TaskBody, categoryIds: seq<Uuid>, newId: Uuid, fault: Option<Error>)
      returns (err: Option<Error>)
      requires Valid()
      modifies this
      ensures Valid()
      ensures users == old(users) && categories == old(categories)
      ensures fault.Some? ==> err == fault
      ensures fault.None? && newId in old(tasks) ==> err == Some(UniqueViolation)
      ensures err.None? <==> fault.None? && newId !in old(tasks)
      ensures err.None? ==> tasks == old(tasks)[newId := NewTask(newId, userId, body, categoryIds, categories)]
      ensures err.Some? ==> tasks == old(tasks)
      ensures old(LinksOwned(tasks, categories)) && OwnersRecorded(categories)
              && CheckCategoriesOwnership(categories, userId, categoryIds, None) == Success(true)
              ==> LinksOwned(tasks, categories)
    {
      if fault.Some? {
        return fault;
      }
      if newId in tasks {
        return Some(UniqueViolation);
      }
      var task := NewTask(newId, userId, body, categoryIds, categories);
      if OwnersRecorded(categories) && CheckCategoriesOwnership(categories, userId, categoryIds, None) == Success(true) {
        NewTaskLinksOwned(newId, userId, body, categoryIds, categories, None);
      }
      tasks := tasks[newId := task];
      err := None;
    }

    /** Update: one transaction; a missing task is gorm's "record not
        found". Only title and description change, and, when the list is not
        nil, the category set. When both gates passed for the task's owner,
        the ownership invariant holds afterwards. */
    method Update(id: Uuid, body: TaskBody, categoryIds: Option<seq<Uuid>>, fault: Option<Error>)
      returns (err: Option<Error>)
      requires Valid()
      modifies this
      ensures Valid()
      ensures users == old(users) && categories == old(categories)
      ensures fault.Some? ==> err == fault && tasks == old(tasks)
      ensures fault.None? && id !in old(tasks) ==> err == Some(RecordNotFound) && tasks == old(tasks)
      ensures fault.None? && id in old(tasks) ==>
                err.None? && tasks == old(tasks)[id := Updated(old(tasks)[id], body, categoryIds, categories)]
      ensures old(LinksOwned(tasks, categories)) && OwnersRecorded(categories)
              && (id in old(tasks) ==>
                    CheckCategoriesOwnership(categories, old(tasks)[id].userId, categoryIds.GetOr([]), None) == Success(true))
              ==> LinksOwned(tasks, categories)
    {
      if fault.Some? {
        return fault;
      }
      if id !in tasks {
        return Some(RecordNotFound);
      }
      var task := tasks[id];
      if LinksOwned(tasks, categories) && OwnersRecorded(categories)
         && CheckCategoriesOwnership(categories, task.userId, categoryIds.GetOr([]), None) == Success(true) {
        UpdatedLinksOwned(task, task.userId, body, categoryIds, categories, None);
      }
      tasks := tasks[id := Updated(task, body, categoryIds, categories)];
      err := None;
    }

    /** Delete: removes the task with that id, if any, with its join rows;
        deleting a missing task is not an error. */
    method Delete(id: Uuid, fault: Option<Error>) returns (err: Option<Error>)
      requires Valid()
      modifies this
      ensures Valid()
      ensures users == old(users) && categories == old(categories)
      ensures err == fault
      ensures fault.Some? ==> tasks == old(tasks)
      ensures fault.None? ==> tasks == old(tasks) - {id}
      ensures old(LinksOwned(tasks, categories)) ==> LinksOwned(tasks, categories)
    {
      if fault.Some? {
        return fault;
      }
      tasks := tasks - {id};
      err := None;
    }

    /** ToggleDone: negates the done flag of an existing task and changes
        nothing else. */
    method ToggleDone(id: Uuid, fault: Option<Error>) returns (err: Option<Error>)
      requires Valid()
      modifies this
      ensures Valid()
      ensures users == old(users) && categories == old(categories)
      ensures fault.Some? ==> err == fault && tasks == old(tasks)
      ensures fault.None? && id !in old(tasks) ==> err == Some(RecordNotFound) && tasks == old(tasks)
      ensures fault.None? && id in old(tasks) ==> err.None? && tasks == old(tasks)[id := Toggled(old(tasks)[id])]
      ensures old(LinksOwned(tasks, categories)) ==> LinksOwned(tasks, categories)
    {
      if fault.Some? {
        return fault;
      }
      if id !in tasks {
        return Some(RecordNotFound);
      }
      tasks := tasks[id := Toggled(tasks[id])];
      err := None;
    }

    /** GetByID: the stored title, description and done flag, and each
        linked category once, with its name, in the order the database
        returns them. */
    method GetByID(id: Uuid, fault: Option<Error>) returns (r: Result<TaskFullInfo>)
      requires Valid()
      ensures fault.Some? ==> r == Failure(fault.value)
      ensures fault.None? && id !in tasks ==> r == Failure(RecordNotFound)
      ensures fault.None? && id in tasks ==>
                r.Success? && r.value.id == id && r.value.title == tasks[id].title
                && r.value.description == tasks[id].description && r.value.isDone == tasks[id].isDone
                && (forall c :: c in r.value.categories <==>
                      c.id in tasks[id].categories && c.id in categories && c.name == categories[c.id].name)
                && (forall i, j :: 0 <= i < j < |r.value.categories| ==>
                      r.value.categories[i].id != r.value.categories[j].id)
    {
      if fault.Some? {
        return Failure(fault.value);
      }
      if id !in tasks {
        return Failure(RecordNotFound);
      }
      var task := tasks[id];
      var linked := Scan(task.categories);
      var infos: seq<CategoryInfo> := [];
      var i := 0;
      while i < |linked|
        invariant 0 <= i <= |linked|
        invariant |infos| == i
        invariant forall j :: 0 <= j < i ==> linked[j] in categories && infos[j] == CategoryInfo(linked[j], categories[linked[j]].name)
      {
        infos := infos + [CategoryInfo(linked[i], categories[linked[i]].name)];
        i := i + 1;
      }
      r := Success(TaskFullInfo(task.id, task.title, task.description, task.isDone, infos));
    }

    /** `WHERE user_id = ? ORDER BY title ASC`, evaluated by the database:
        the user's rows taken in any order and each inserted by title. */
    method OrderByTitle(userId: Uuid) returns (sorted: seq<Task>)
      requires Valid()
      ensures IsTitleListing(sorted, tasks, userId)
    {
      var owned := set k | k in tasks && tasks[k].userId == userId;
      var rest := owned;
      sorted := [];
      while rest != {}
        invariant rest <= owned
        invariant SortedByTitle(sorted)
        invariant multiset(sorted) == multiset(RowsOf(tasks, owned - rest))
        decreases rest
      {
        var k :| k in rest;
        RowsOfAddOne(tasks, owned - rest, k);
        assert owned - (rest - {k}) == (owned - rest) + {k};
        sorted := InsertByTitle(sorted, tasks[k]);
        rest := rest - {k};
      }
      assert owned - rest == owned;
      assert RowsOf(tasks, owned) == OwnedRows(tasks, userId);
    }

    /** GetAll: `userId`'s tasks ordered by title, page `pageIndex` of
        `recordsPerPage` rows, each as id, title and done flag. `listing` is
        the ordered result before LIMIT and OFFSET. */
    method GetAll(userId: Uuid, pageIndex: int, recordsPerPage: int, fault: Option<Error>)
      returns (r: Result<seq<TaskShortInfo>>, ghost listing: seq<Task>)
      requires Valid()
      ensures IsTitleListing(listing, tasks, userId)
      ensures fault.Some? ==> r == Failure(fault.value)
      ensures fault.None? ==>
                r.Success? && |r.value| == |Page(listing, pageIndex, recordsPerPage)|
                && forall i :: 0 <= i < |r.value| ==>
                     var t := Page(listing, pageIndex, recordsPerPage)[i];
                     r.value[i] == TaskShortInfo(t.id, t.title, t.isDone)
    {
      var sorted := OrderByTitle(userId);
      listing := sorted;
      if fault.Some? {
        return Failure(fault.value), listing;
      }
      var page := Page(sorted, pageIndex, recordsPerPage);
      var result: seq<TaskShortInfo> := [];
      var i := 0;
      while i < |page|
        invariant 0 <= i <= |page|
        invariant |result| == i
        invariant forall j :: 0 <= j < i ==> result[j] == TaskShortInfo(page[j].id, page[j].title, page[j].isDone)
      {
        result := result + [TaskShortInfo(page[i].id, page[i].title, page[i].isDone)];
        i := i + 1;
      }
      r := Success(result);
    }

    // ----- internal/repository/category.go -----

    /** CreateCategory, recording the creating user as owner (the ownership
        check reads that column); the unique name constraint refuses a name
        already taken. */
    method CreateCategory(userId: Uuid, body: CategoryBody, newId: Uuid, fault: Option<Error>) returns (err: Option<Error>)
      requires Valid()
      modifies this
      ensures Valid()
      ensures users == old(users) && tasks == old(tasks)
      ensures fault.Some? ==> err == fault
      ensures err.None? <==> fault.None? && newId !in old(categories) && CategoryNameFree(old(categories), body.name)
      ensures err.None? ==> categories == old(categories)[newId := Category(body.name, Some(userId))]
      ensures err.Some? ==> categories == old(categories)
      ensures old(OwnersRecorded(categories)) ==> OwnersRecorded(categories)
      ensures old(LinksOwned(tasks, categories)) ==> LinksOwned(tasks, categories)
      ensures err.None? ==> forall u :: CheckCategoriesOwnership(categories, u, [newId], None) == Success(true) <==> u == userId
    {
      if fault.Some? {
        return fault;
      }
      if newId in categories || !CategoryNameFree(categories, body.name) {
        return Some(UniqueViolation);
      }
      categories := categories[newId := Category(body.name, Some(userId))];
      forall u | true
        ensures CheckCategoriesOwnership(categories, u, [newId], None) == Success(true) <==> u == userId
      {
        SingleCategoryCheck(categories, newId, u);
      }
      err := None;
    }

    /** CreateCategory as the repository writes it: the row carries the name
        only, so its owner column stays NULL, and the ownership check then
        lets every user link the new category. */
    method CreateCategoryAsWritten(body: CategoryBody, newId: Uuid, fault: Option<Error>) returns (err: Option<Error>)
      requires Valid()
      modifies this
      ensures Valid()
      ensures users == old(users) && tasks == old(tasks)
      ensures err.None? <==> fault.None? && newId !in old(categories) && CategoryNameFree(old(categories), body.name)
      ensures err.None? ==> categories == old(categories)[newId := Category(body.name, None)]
      ensures err.Some? ==> categories == old(categories)
      ensures err.None? ==> !OwnersRecorded(categories)
      ensures err.None? ==> forall u :: CheckCategoriesOwnership(categories, u, [newId], None) == Success(true)
    {
      if fault.Some? {
        return fault;
      }
      if newId in categories || !CategoryNameFree(categories, body.name) {
        return Some(UniqueViolation);
      }
      categories := categories[newId := Category(body.name, None)];
      assert categories[newId].owner.None?;
      forall u | true
        ensures CheckCategoriesOwnership(categories, u, [newId], None) == Success(true)
      {
        SingleCategoryCheck(categories, newId, u);
      }
      err := None;
    }

    /** Delete (category): removes the category with that id, with the join
        rows that name it; nothing removed is ErrCategoryNotFound. */
    method DeleteCategory(id: Uuid, fault: Option<Error>) returns (err: Option<Error>)
      requires Valid()
      modifies this
      ensures Valid()
      ensures users == old(users)
      ensures fault.Some? ==> err == fault && categories == old(categories) && tasks == old(tasks)
      ensures fault.None? && id !in old(categories) ==>
                err == Some(CategoryNotFound) && categories == old(categories) && tasks == old(tasks)
      ensures fault.None? && id in old(categories) ==>
                err.None? && categories == old(categories) - {id}
                && tasks.Keys == old(tasks).Keys
                && forall k :: k in tasks ==> tasks[k] == old(tasks)[k].(categories := old(tasks)[k].categories - {id})
      ensures old(OwnersRecorded(categories)) ==> OwnersRecorded(categories)
      ensures old(LinksOwned(tasks, categories)) ==> LinksOwned(tasks, categories)
    {
      if fault.Some? {
        return fault;
      }
      if id !in categories {
        return Some(CategoryNotFound);
      }
      categories := categories - {id};
      tasks := map k | k in tasks :: tasks[k].(categories := tasks[k].categories - {id});
      err := None;
    }

    /** GetAll (categories): page `pageIndex` of `recordsPerPage` rows of the
        whole category table, not filtered by user, each as id and name.
        `listing` is the database's row order before LIMIT and OFFSET. */
    method GetAllCategories(pageIndex: int, recordsPerPage: int, fault: Option<Error>)
      returns (r: Result<seq<CategoryInfo>>, ghost listing: seq<Uuid>)
      ensures forall c :: c in listing <==> c in categories
      ensures forall i, j :: 0 <= i < j < |listing| ==> listing[i] != listing[j]
      ensures fault.Some? ==> r == Failure(fault.value)
      ensures fault.None? ==>
                r.Success? && |r.value| == |Page(listing, pageIndex, recordsPerPage)|
                && forall i :: 0 <= i < |r.value| ==>
                     var c := Page(listing, pageIndex, recordsPerPage)[i];
                     c in categories && r.value[i] == CategoryInfo(c, categories[c].name)
    {
      var rows := Scan(categories.Keys);
      listing := rows;
      if fault.Some? {
        return Failure(fault.value), listing;
      }
      var page := Page(rows, pageIndex, recordsPerPage);
      var result: seq<CategoryInfo> := [];
      var i := 0;
      while i < |page|
        invariant 0 <= i <= |page|
        invariant |result| == i
        invariant forall j :: 0 <= j < i ==> page[j] in categories && result[j] == CategoryInfo(page[j], categories[page[j]].name)
      {
        result := result + [CategoryInfo(page[i], categories[page[i]].name)];
        i := i + 1;
      }
      r := Success(result);
    }
  }
}
