/**
 * The brands table: a name and a status in the create form, `/brands` on the backend.
 */
module BrandTable {
  import opened Patterns
  import opened Validation
  import opened Requests
  import opened Controller

  const Brands: Resource := Resource("/brands", "brand_name", "checkedBrands", "brand already exists", WithStatus)

  /** The add button of the new-brand form. Only the name is checked: the status goes into
      the body as it stands, still the empty string when nothing was chosen. */
  function AddBrand(st: TableState, delivered: bool): (es: seq<Effect>)
    ensures var name := st.draft.name; var after := Apply(st, es);
      && after.priceField == st.priceField
      && (Sent(es) != [] <==> NameAcceptable(name, st.records))
      && (IsMissing(name) ==> after.nameField == FieldState(true, "Required field"))
      && (!IsMissing(name) && !NameCharsOnly(name.value) ==>
            after.nameField == FieldState(true, "Special characters are not allowed"))
      && (!IsMissing(name) && NameCharsOnly(name.value) && NameTaken(st.records, name.value) ==>
            after.nameField == FieldState(true, "brand already exists"))
      && (NameAcceptable(name, st.records) ==>
            && after.nameField == Clear
            && |Sent(es)| == (if delivered then 2 else 1)
            && Sent(es)[0] == Request(Post, "/brands", Fields([("brand_name", name.value), ("status", st.draft.status)]))
            && (delivered ==> Sent(es)[1] == Request(Get, "/brands", NoBody) && !after.newModalOpen))
  {
    Submit(Brands, st, delivered)
  }

  /** Typing in the search box of the brands table. */
  function SearchBrands(st: TableState, query: string): (es: seq<Effect>)
    ensures Apply(st, es).searchValue == query
    ensures Sent(es) == [Request(Get, if query == "" then "/brands" else "/brands/?brand_name=" + query, NoBody)]
  {
    assert "/brands" + "/?" + "brand_name" + "=" + query == "/brands/?brand_name=" + query;
    Lookup(Brands, st, query)
  }

  /** Confirming the delete of the checked brands. */
  function DeleteBrands(st: TableState, delivered: bool): (es: seq<Effect>)
    ensures |es| > 2
    ensures Apply(st, es[..2]).selection == [] && !Apply(st, es[..2]).deleteModalOpen
    ensures es[2] == Send(Request(Delete, "/brands", IdList("checkedBrands", st.selection)))
    ensures Apply(st, es) == Apply(st, es[..2])
    ensures delivered ==> |Sent(es)| == 2 && Sent(es)[1..] == [Request(Get, "/brands", NoBody)]
  {
    ConfirmDelete(Brands, st, delivered)
  }
}
