/**
 * CategoryService: read-only reference data. The list is copied from the
 * fixture once and never changed, so the service is a value.
 */
module CategoryApi {
  import opened Wrappers
  import opened Entities
  import Keys

  datatype CategoryService = CategoryService(categories: seq<Category>) {

    /** All categories in stored order, unsorted. */
    function GetAll(): (r: seq<Category>)
      ensures r == categories
    {
      categories
    }

    /** The first category with this Id, or "Category not found". */
    function GetById(id: int): (r: Result<Category>)
      ensures r.Err? <==> id !in CategoryIds(categories)
      ensures r.Err? ==> r.message == "Category not found"
      ensures r.Ok? ==> r.value.Id == id && r.value == categories[Keys.IndexOf(CategoryIds(categories), id)]
    {
      var index := Keys.IndexOf(CategoryIds(categories), id);
      if index == -1 then Err("Category not found") else Ok(categories[index])
    }
  }

  /** The service is built from a copy of the fixture. */
  function NewCategoryService(fixture: seq<Category>): (s: CategoryService)
    ensures s.GetAll() == fixture
  {
    CategoryService(fixture)
  }

  /** Looking up any stored category's Id finds a category with that Id that comes no later. */
  lemma {:induction false} FindsEarliest(s: CategoryService, k: nat)
    requires k < |s.categories|
    ensures s.GetById(s.categories[k].Id).Ok?
    ensures s.GetById(s.categories[k].Id).value == s.categories[Keys.IndexOf(CategoryIds(s.categories), s.categories[k].Id)]
    ensures Keys.IndexOf(CategoryIds(s.categories), s.categories[k].Id) <= k
  {
    var ids := CategoryIds(s.categories);
    var id := s.categories[k].Id;
    assert ids[k] == id;
  }
}
