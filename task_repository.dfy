/** The row-level logic of the task repository (internal/repository/task.go):
    the row CreateTask inserts, the row Update and ToggleDone save, the
    category set a transaction links, and the ordering and pagination of
    GetAll. The Store methods apply these to the tables. */
module TaskRepository {
  import opened Base
  import opened Models
  import opened Schema
  import opened UserRepository

  /** The listed ids that name existing categories: what
      `WHERE id_category IN ?` finds. Unknown ids are dropped. */
  function ExistingCategories(categories: Categories, ids: seq<Uuid>): (found: set<Uuid>)
    ensures found <= categories.Keys
    ensures forall c :: c in found ==> c in ids
    ensures forall c :: c in ids && c in categories ==> c in found
  {
    set c | c in ids && c in categories
  }

  /** The row CreateTask inserts, with the join rows its `Replace` writes. */
  function NewTask(id: Uuid, userId: Uuid, body: TaskBody, ids: seq<Uuid>, categories: Categories): (t: Task)
    ensures t.id == id && t.userId == userId && !t.isDone
    ensures t.title == body.title && t.description == body.description
    ensures forall c :: c in t.categories <==> c in ids && c in categories
  {
    Task(id, userId, body.title, body.description, false,
         if |ids| > 0 then ExistingCategories(categories, ids) else {})
  }

  /** The row Update saves: the new title and description; with a list (not
      nil) the category set is replaced by the listed existing categories. */
  function Updated(task: Task, body: TaskBody, ids: Option<seq<Uuid>>, categories: Categories): (t: Task)
    ensures t.id == task.id && t.userId == task.userId && t.isDone == task.isDone
    ensures t.title == body.title && t.description == body.description
    ensures ids.None? ==> t.categories == task.categories
    ensures ids.Some? ==> forall c :: c in t.categories <==> c in ids.value && c in categories
  {
    task.(title := body.title, description := body.description,
          categories := if ids.Some? then ExistingCategories(categories, ids.value) else task.categories)
  }

  /** The row ToggleDone saves. */
  function Toggled(task: Task): (t: Task)
    ensures t.isDone == !task.isDone
    ensures t.(isDone := task.isDone) == task
  {
    task.(isDone := !task.isDone)
  }

  /** Toggling twice restores the row. */
  lemma ToggleTwice(task: Task)
    ensures Toggled(Toggled(task)) == task
  {
  }

  /** When the category gate let the list through for `userId` and every
      category records its owner, every category the new task links belongs
      to `userId`. Unknown ids pass the gate but are never linked. */
  lemma NewTaskLinksOwned(id: Uuid, userId: Uuid, body: TaskBody, ids: seq<Uuid>,
                          categories: Categories, fault: Option<Error>)
    requires OwnersRecorded(categories)
    requires CheckCategoriesOwnership(categories, userId, ids, fault) == Success(true)
    ensures forall c :: c in NewTask(id, userId, body, ids, categories).categories ==>
              c in categories && categories[c].owner == Some(userId)
  {
  }

  /** The same for Update, on a task the task gate found owned by `userId`:
      a nil list keeps links that were already owned, a new list links only
      categories of `userId`. */
  lemma UpdatedLinksOwned(task: Task, userId: Uuid, body: TaskBody, ids: Option<seq<Uuid>>,
                          categories: Categories, fault: Option<Error>)
    requires OwnersRecorded(categories)
    requires task.userId == userId
    requires forall c :: c in task.categories ==> c in categories && categories[c].owner == Some(userId)
    requires CheckCategoriesOwnership(categories, userId, ids.GetOr([]), fault) == Success(true)
    ensures forall c :: c in Updated(task, body, ids, categories).categories ==>
              c in categories && categories[c].owner == Some(userId)
  {
  }

  /** Lexicographic order on titles, character by character: the order of
      `ORDER BY title ASC`. */
  predicate TitleLe(a: string, b: string)
    decreases |a|
  {
    |a| == 0 || (|b| > 0 && (a[0] < b[0] || (a[0] == b[0] && TitleLe(a[1..], b[1..]))))
  }

  /** Any two titles are ordered one way or the other. */
  lemma {:induction false} TitleLeTotal(a: string, b: string)
    ensures TitleLe(a, b) || TitleLe(b, a)
    decreases |a|
  {
    if |a| > 0 && |b| > 0 && a[0] == b[0] {
      TitleLeTotal(a[1..], b[1..]);
    }
  }

  ghost predicate SortedByTitle(s: seq<Task>) {
    forall i :: 0 < i < |s| ==> TitleLe(s[i - 1].title, s[i].title)
  }

  /** Inserts a row into a listing sorted by title, keeping it sorted. */
  function InsertByTitle(s: seq<Task>, t: Task): (r: seq<Task>)
    requires SortedByTitle(s)
    ensures SortedByTitle(r)
    ensures multiset(r) == multiset(s) + multiset{t}
    ensures |s| == 0 ==> r == [t]
    ensures |s| > 0 ==> r[0] == s[0] || r[0] == t
    decreases |s|
  {
    if |s| == 0 then [t]
    else if TitleLe(t.title, s[0].title) then [t] + s
    else
      TitleLeTotal(t.title, s[0].title);
      assert s == [s[0]] + s[1..];
      [s[0]] + InsertByTitle(s[1..], t)
  }

  /** The rows of `userId`'s tasks. */
  function OwnedRows(tasks: Tasks, userId: Uuid): set<Task> {
    set k | k in tasks && tasks[k].userId == userId :: tasks[k]
  }

  /** `listing` is what `WHERE user_id = ? ORDER BY title ASC` returns: each
      of the user's tasks once, no other row, sorted by title. */
  ghost predicate IsTitleListing(listing: seq<Task>, tasks: Tasks, userId: Uuid) {
    SortedByTitle(listing) && multiset(listing) == multiset(OwnedRows(tasks, userId))
  }

  /** The row offset of a page: `(pageIndex-1)*recordsPerPage`. */
  function Offset(pageIndex: int, recordsPerPage: int): int {
    (pageIndex - 1) * recordsPerPage
  }

  /** `LIMIT recordsPerPage OFFSET offset` as GORM emits it: the offset only
      when it is positive, the limit only when it is not negative. */
  function Page<T>(rows: seq<T>, pageIndex: int, recordsPerPage: int): (page: seq<T>)
    ensures recordsPerPage >= 0 ==> |page| <= recordsPerPage
    ensures Offset(pageIndex, recordsPerPage) >= |rows| ==> page == []
    ensures var start := if Offset(pageIndex, recordsPerPage) > 0 then Offset(pageIndex, recordsPerPage) else 0;
            forall i :: 0 <= i < |page| ==> start + i < |rows| && page[i] == rows[start + i]
    ensures var start := if Offset(pageIndex, recordsPerPage) > 0 then Offset(pageIndex, recordsPerPage) else 0;
            0 <= recordsPerPage && start + recordsPerPage <= |rows| ==> |page| == recordsPerPage
  {
    var offset := Offset(pageIndex, recordsPerPage);
    var start := if offset <= 0 then 0 else if offset < |rows| then offset else |rows|;
    var end := if 0 <= recordsPerPage && start + recordsPerPage <= |rows| then start + recordsPerPage else |rows|;
    rows[start..end]
  }

  /** Pages 1 to k of `recordsPerPage` rows each, laid end to end. */
  function Pages<T>(rows: seq<T>, recordsPerPage: nat, k: nat): seq<T> {
    if k == 0 then [] else Pages(rows, recordsPerPage, k - 1) + Page(rows, k, recordsPerPage)
  }

  /** Paging neither skips nor repeats a row: the first k pages are exactly
      the first k*recordsPerPage rows. */
  lemma {:induction false} PagesArePrefix<T>(rows: seq<T>, recordsPerPage: nat, k: nat)
    ensures Pages(rows, recordsPerPage, k)
         == rows[..if k * recordsPerPage < |rows| then k * recordsPerPage else |rows|]
  {
    if k > 0 {
      PagesArePrefix(rows, recordsPerPage, k - 1);
      var before := (k - 1) * recordsPerPage;
      assert k * recordsPerPage == before + recordsPerPage;
      assert Offset(k, recordsPerPage) == before;
      var prefix := if before < |rows| then before else |rows|;
      var upTo := if k * recordsPerPage < |rows| then k * recordsPerPage else |rows|;
      assert rows[..upTo] == rows[..prefix] + rows[prefix..upTo];
    }
  }

  /** Page 2 of 5 rows skips 5 rows and returns the next 5. */
  lemma SecondPageOfFive<T>(rows: seq<T>)
    requires |rows| >= 10
    ensures Page(rows, 2, 5) == rows[5..10]
  {
  }
}
