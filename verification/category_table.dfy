/**
 * The categories table: a name and a status in the create form, `/categories` on the backend.
 */
module CategoryTable {
  import opened Patterns
  import opened Validation
  import opened Requests
  import opened Controller

  const Categories: Resource := Resource("/categories", "cat_name", "checkedCats", "category already exists", WithStatus)

  /** The add button of the new-category form. Only the name is checked: the status goes into
      the body as it stands, still the empty string when nothing was chosen. */
  function AddCategory(st: TableState, delivered: bool): (es: seq<Effect>)
    ensures var name := st.draft.name; var after := Apply(st, es);
      && after.priceField == st.priceField
      && (Sent(es) != [] <==> NameAcceptable(name, st.records))
      && (IsMissing(name) ==> after.nameField == FieldState(true, "Required field"))
      && (!IsMissing(name) && !NameCharsOnly(name.value) ==>
            after.nameField == FieldState(true, "Special characters are not allowed"))
      && (!IsMissing(name) && NameCharsOnly(name.value) && NameTaken(st.records, name.value) ==>
            after.nameField == FieldState(true, "category already exists"))
      && (NameAcceptable(name, st.records) ==>
            && after.nameField == Clear
            && |Sent(es)| == (if delivered then 2 else 1)
            && Sent(es)[0] == Request(Post, "/categories", Fields([("cat_name", name.value), ("status", st.draft.status)]))
            && (delivered ==> Sent(es)[1] == Request(Get, "/categories", NoBody) && !after.newModalOpen))
  {
    Submit(Categories, st, delivered)
  }

  /** Typing in the search box of the categories table. */
  function SearchCategories(st: TableState, query: string): (es: seq<Effect>)
    ensures Apply(st, es).searchValue == query
    ensures Sent(es) == [Request(Get, if query == "" then "/categories" else "/categories/?cat_name=" + query, NoBody)]
  {
    assert "/categories" + "/?" + "cat_name" + "=" + query == "/categories/?cat_name=" + query;
    Lookup(Categories, st, query)
  }

  /** Confirming the delete of the checked categories. */
  function DeleteCategories(st: TableState, delivered: bool): (es: seq<Effect>)
    ensures |es| > 2
    ensures Apply(st, es[..2]).selection == [] && !Apply(st, es[..2]).deleteModalOpen
    ensures es[2] == Send(Request(Delete, "/categories", IdList("checkedCats", st.selection)))
    ensures Apply(st, es) == Apply(st, es[..2])
    ensures delivered ==> |Sent(es)| == 2 && Sent(es)[1..] == [Request(Get, "/categories", NoBody)]
  {
    ConfirmDelete(Categories, st, delivered)
  }
}
