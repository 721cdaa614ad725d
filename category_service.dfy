/** The category service (internal/adapters/category.go): one call to the
    category repository per method, a failure wrapped with its own
    message. The repository methods are passed in as functions. */
module CategoryService {
  import opened Base
  import opened Models

  function CreateCategory(body: CategoryBody, create: CategoryBody -> Option<Error>): (err: Option<Error>)
    ensures err.None? <==> create(body).None?
    ensures err.Some? ==> err.value == Wrapped(CreatingCategory, create(body).value)
  {
    Wrap(CreatingCategory, create(body))
  }

  function Delete(id: Uuid, delete: Uuid -> Option<Error>): (err: Option<Error>)
    ensures err.None? <==> delete(id).None?
    ensures err.Some? ==> err.value == Wrapped(DeletingCategory, delete(id).value)
  {
    Wrap(DeletingCategory, delete(id))
  }

  /** GetAll: the repository's list unchanged, or no list and a wrapped
      error. */
  function GetAll(pageIndex: int, recordsPerPage: int,
                  getAll: (int, int) -> Result<seq<CategoryInfo>>): (r: Result<seq<CategoryInfo>>)
    ensures r.Success? ==> r == getAll(pageIndex, recordsPerPage)
    ensures r.Failure? ==> getAll(pageIndex, recordsPerPage).Failure?
                           && r.error == Wrapped(GettingAllCategories, getAll(pageIndex, recordsPerPage).error)
  {
    WrapResult(GettingAllCategories, getAll(pageIndex, recordsPerPage))
  }

  /** Deleting an unknown category is still reported as
      ErrCategoryNotFound underneath the service's message. */
  lemma DeleteKeepsNotFound(id: Uuid, delete: Uuid -> Option<Error>)
    requires delete(id) == Some(CategoryNotFound)
    ensures Is(Delete(id, delete).value, CategoryNotFound)
    ensures Cause(Delete(id, delete).value) == CategoryNotFound
  {
  }
}
