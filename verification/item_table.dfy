/**
 * The items table: a name and a price in the create form, `/items` on the backend.
 */
module ItemTable {
  import opened Wrappers
  import opened JsText
  import opened Patterns
  import opened Validation
  import opened Requests
  import opened Controller

  const Items: Resource := Resource("/items", "item_name", "checkedItems", "Item already exists", WithPrice)

  /** The add button of the new-item form: name chain, then price chain, then the POST. */
  function AddItem(st: TableState, delivered: bool): (es: seq<Effect>)
    ensures var name := st.draft.name; var price := st.draft.price; var after := Apply(st, es);
      && (IsMissing(name) ==>
            after.nameField == FieldState(true, "Required field") && after.priceField == st.priceField && Sent(es) == [])
      && (!IsMissing(name) && !NameCharsOnly(name.value) ==>
            after.nameField == FieldState(true, "Special characters are not allowed")
            && after.priceField == st.priceField && Sent(es) == [])
      && (!IsMissing(name) && NameCharsOnly(name.value) && NameTaken(st.records, name.value) ==>
            after.nameField == FieldState(true, "Item already exists")
            && after.priceField == st.priceField && Sent(es) == [])
      && (NameAcceptable(name, st.records) && IsMissing(price) ==>
            after.nameField == Clear && after.priceField == FieldState(true, "Required field") && Sent(es) == [])
      && (NameAcceptable(name, st.records) && !IsMissing(price) && !IsPriceLiteral(price.value) ==>
            after.nameField == Clear && after.priceField == FieldState(true, "Not a valid price format")
            && Sent(es) == [])
      && (NameAcceptable(name, st.records) && PriceAcceptable(price) ==>
            && after.nameField == Clear && after.priceField == Clear
            && |Sent(es)| == (if delivered then 2 else 1)
            && Sent(es)[0] == Request(Post, "/items", Fields([("item_name", name.value), ("price", price.value)]))
            && (delivered ==> Sent(es)[1] == Request(Get, "/items", NoBody) && !after.newModalOpen))
  {
    Submit(Items, st, delivered)
  }

  /** Typing in the search box of the items table. */
  function SearchItems(st: TableState, query: string): (es: seq<Effect>)
    ensures Apply(st, es).searchValue == query
    ensures Sent(es) == [Request(Get, if query == "" then "/items" else "/items/?item_name=" + query, NoBody)]
  {
    assert "/items" + "/?" + "item_name" + "=" + query == "/items/?item_name=" + query;
    Lookup(Items, st, query)
  }

  /** Confirming the delete of the checked items. */
  function DeleteItems(st: TableState, delivered: bool): (es: seq<Effect>)
    ensures |es| > 2
    ensures Apply(st, es[..2]).selection == [] && !Apply(st, es[..2]).deleteModalOpen
    ensures es[2] == Send(Request(Delete, "/items", IdList("checkedItems", st.selection)))
    ensures Apply(st, es) == Apply(st, es[..2])
    ensures delivered ==> |Sent(es)| == 2 && Sent(es)[1..] == [Request(Get, "/items", NoBody)]
  {
    ConfirmDelete(Items, st, delivered)
  }

  /** A name field holding only whitespace is emptied by trimming, so the form reports
      "Required field" and sends nothing. */
  lemma BlankNameIsRequired(st: TableState, raw: string, delivered: bool)
    requires AllWhitespace(raw)
    ensures var typed := Apply(st, EnterName(st, raw));
      && Apply(typed, AddItem(typed, delivered)).nameField == FieldState(true, "Required field")
      && Sent(AddItem(typed, delivered)) == []
  {
    TrimEmptyIffAllWhitespace(raw);
  }

  /** An existing name is reported as a duplicate and the price is never looked at. */
  lemma WidgetIsDuplicate(st: TableState)
    requires st.records == [Record("1", "Widget")] && st.draft.name == Some("Widget")
    ensures Apply(st, AddItem(st, true)).nameField == FieldState(true, "Item already exists")
    ensures Apply(st, AddItem(st, true)).priceField == st.priceField
    ensures Sent(AddItem(st, true)) == []
  {
    assert NameCharsOnly("Widget");
    assert NameTaken(st.records, "Widget") by { assert st.records[0].name == "Widget"; }
  }

  /** Three decimals fail the price pattern after the name has passed. */
  lemma ThreeDecimalsRejected(st: TableState)
    requires st.records == [] && st.draft.name == Some("Gadget 2") && st.draft.price == Some("12.345")
    ensures Apply(st, AddItem(st, true)).nameField == Clear
    ensures Apply(st, AddItem(st, true)).priceField == FieldState(true, "Not a valid price format")
    ensures Sent(AddItem(st, true)) == []
  {
    assert NameAcceptable(st.draft.name, st.records) by {
      assert MatchesNamePattern("Gadget 2");
    }
    assert !PriceAcceptable(st.draft.price) && !IsMissing(st.draft.price) by {
      PriceExamples();
    }
  }

  /** A sixty-character alphanumeric name gets through: the length rule never fires. */
  lemma SixtyCharacterNameAccepted(st: TableState)
    requires st.records == [] && st.draft.price == Some("5")
    requires st.draft.name == Some(seq(60, _ => 'a'))
    ensures Apply(st, AddItem(st, true)).nameField == Clear
    ensures Sent(AddItem(st, true))[0]
            == Request(Post, "/items", Fields([("item_name", seq(60, _ => 'a')), ("price", "5")]))
  {
    var name := seq(60, _ => 'a');
    assert NameCharsOnly(name);
    PriceExamples();
  }
}
