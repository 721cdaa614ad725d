/** The rows of the four tables the repositories share: users, tasks,
    categories, and the task-category join table, kept here as the set of
    category ids on each task row. Each table is a map from primary key to row. */
module Schema {
  import opened Base

  /** `repository.User` without its key: the login and the stored hash. */
  datatype UserRow = UserRow(name: string, password: string)

  /** `repository.Task`; `categories` holds the join rows of this task. */
  datatype Task = Task(
    id: Uuid, userId: Uuid, title: string, description: string, isDone: bool,
    categories: set<Uuid>)

  /** A category row. `owner` is the `user_id` column the ownership query
      reads; it is `None` (SQL NULL) when the insert did not write it. */
  datatype Category = Category(name: string, owner: Option<Uuid>)

  type Users = map<Uuid, UserRow>
  type Tasks = map<Uuid, Task>
  type Categories = map<Uuid, Category>

  /** The `unique` constraint on `user_name`. */
  ghost predicate UniqueUserNames(users: Users) {
    forall a, b :: a in users && b in users && users[a].name == users[b].name ==> a == b
  }

  /** The `unique` constraint on a category's `name`. */
  ghost predicate UniqueCategoryNames(categories: Categories) {
    forall a, b :: a in categories && b in categories && categories[a].name == categories[b].name ==> a == b
  }

  /** Every task row is stored under its own id. */
  ghost predicate KeyedById(tasks: Tasks) {
    forall k :: k in tasks ==> tasks[k].id == k
  }

  /** Referential integrity of the join table: a task links only categories
      that exist. */
  ghost predicate LinksExist(tasks: Tasks, categories: Categories) {
    forall k :: k in tasks ==> tasks[k].categories <= categories.Keys
  }

  /** The central ownership invariant: every category linked to a task
      exists and belongs to the task's owner. */
  ghost predicate LinksOwned(tasks: Tasks, categories: Categories) {
    forall k, c :: k in tasks && c in tasks[k].categories ==>
      c in categories && categories[c].owner == Some(tasks[k].userId)
  }

  /** Every category row records who owns it. */
  ghost predicate OwnersRecorded(categories: Categories) {
    forall c :: c in categories ==> categories[c].owner.Some?
  }
}
