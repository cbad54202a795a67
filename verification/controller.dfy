/**
 * The list controller shared by the item, brand and category tables. Every event handler
 * is a function from the current state to the ordered list of effects it performs: state
 * updates, requests sent, and errors logged. `Apply` folds the updates into a new state and
 * `Sent` lists the requests, in order.
 */
module Controller {
  import opened Wrappers
  import opened JsText
  import opened Validation
  import opened Selection
  import opened Requests

  /** The second field of the create form: a price (items) or a status (brands, categories). */
  datatype FormKind = WithPrice | WithStatus

  /** What tells the tables apart: collection path, name field (also the search parameter and
      the create-body key), the key of the delete body, and the duplicate-name message. */
  datatype Resource = Resource(
    path: string,
    nameKey: string,
    checkedKey: string,
    duplicateText: string,
    form: FormKind)

  /** The create form's inputs; `undefined` until the user first types into the field. */
  datatype Draft = Draft(name: Option<string>, price: Option<string>, status: string)

  /** The component's state cells. A table keeps the cells it has no use for (the price
      field of a brand, the status of an item) at their initial values. */
  datatype TableState = TableState(
    records: seq<Record>,
    selection: seq<Id>,
    searchValue: string,
    draft: Draft,
    nameField: FieldState,
    priceField: FieldState,
    newModalOpen: bool,
    deleteModalOpen: bool,
    deleteAlertOpen: bool)

  const Initial: TableState :=
    TableState([], [], "", Draft(None, None, ""), Clear, Clear, false, false, false)

  datatype Effect =
    | SetRecords(records: seq<Record>)
    | SetSelection(ids: seq<Id>)
    | SetSearch(text: string)
    | SetDraft(draft: Draft)
    | SetNameField(field: FieldState)
    | SetPriceField(field: FieldState)
    | SetNewModal(open: bool)
    | SetDeleteModal(open: bool)
    | SetDeleteAlert(open: bool)
    | Send(request: Request)
    | LogError

  function Step(st: TableState, e: Effect): TableState {
    match e
    case SetRecords(rs) => st.(records := rs)
    case SetSelection(ids) => st.(selection := ids)
    case SetSearch(text) => st.(searchValue := text)
    case SetDraft(d) => st.(draft := d)
    case SetNameField(f) => st.(nameField := f)
    case SetPriceField(f) => st.(priceField := f)
    case SetNewModal(open) => st.(newModalOpen := open)
    case SetDeleteModal(open) => st.(deleteModalOpen := open)
    case SetDeleteAlert(open) => st.(deleteAlertOpen := open)
    case Send(_) => st
    case LogError => st
  }

  /** The state after the effects, in order. */
  function Apply(st: TableState, es: seq<Effect>): TableState
    decreases |es|
  {
    if |es| == 0 then st else Apply(Step(st, es[0]), es[1..])
  }

  /** The requests among the effects, in order. */
  function Sent(es: seq<Effect>): seq<Request>
    decreases |es|
  {
    if |es| == 0 then [] else (if es[0].Send? then [es[0].request] else []) + Sent(es[1..])
  }

  lemma {:induction false} ApplyConcat(st: TableState, a: seq<Effect>, b: seq<Effect>)
    ensures Apply(st, a + b) == Apply(Apply(st, a), b)
    decreases |a|
  {
    if |a| > 0 {
      assert (a + b)[0] == a[0];
      assert (a + b)[1..] == a[1..] + b;
      ApplyConcat(Step(st, a[0]), a[1..], b);
    } else {
      assert a + b == b;
    }
  }

  lemma ApplyTwo(st: TableState, e1: Effect, e2: Effect)
    ensures Apply(st, [e1, e2]) == Step(Step(st, e1), e2)
    ensures Sent([e1, e2]) == Sent([e1]) + Sent([e2])
  {
    assert [e1, e2][1..] == [e2];
    assert [e2][1..] == [];
    assert Apply(Step(st, e1), [e2]) == Apply(Step(Step(st, e1), e2), []);
  }

  lemma ApplyThree(st: TableState, e1: Effect, e2: Effect, e3: Effect)
    ensures Apply(st, [e1, e2, e3]) == Step(Step(Step(st, e1), e2), e3)
    ensures Sent([e1, e2, e3]) == Sent([e1]) + Sent([e2]) + Sent([e3])
  {
    assert [e1, e2, e3][1..] == [e2, e3];
    ApplyTwo(Step(st, e1), e2, e3);
  }

  lemma {:induction false} SentConcat(a: seq<Effect>, b: seq<Effect>)
    ensures Sent(a + b) == Sent(a) + Sent(b)
    decreases |a|
  {
    if |a| > 0 {
      assert (a + b)[1..] == a[1..] + b;
      SentConcat(a[1..], b);
    } else {
      assert a + b == b;
    }
  }

  /** The GET that (re)loads the table, filtered by `filter` when it is a non-empty string. */
  function ListRequestOf(res: Resource, filter: Option<string>): Request {
    ListRequest(res.path, res.nameKey, filter)
  }

  /** Mounting the component: the initial state, and one unfiltered load. */
  function Mount(res: Resource): (es: seq<Effect>)
    ensures Apply(Initial, es) == Initial
    ensures Sent(es) == [ListRequestOf(res, None)] && Sent(es)[0].url == res.path
  {
    [Send(ListRequestOf(res, None))]
  }

  /** The end of a load: a parsed response replaces the records wholesale; a failed
      request or parse is logged and the previous records stay on screen. */
  function Receive(response: Option<seq<Record>>): (es: seq<Effect>)
    ensures forall st :: Apply(st, es) == (if response.Some? then st.(records := response.value) else st)
    ensures Sent(es) == []
  {
    match response
    case Some(rs) => [SetRecords(rs)]
    case None => [LogError]
  }

  /** Typing into the search box: the box shows the text and the table is reloaded, filtered
      by the text unless it is empty. */
  function Lookup(res: Resource, st: TableState, query: string): (es: seq<Effect>)
    ensures Apply(st, es) == st.(searchValue := query)
    ensures Sent(es) == [ListRequestOf(res, Some(query))]
    ensures Sent(es)[0].url == res.path <==> query == ""
    ensures QueryOf(res.path, res.nameKey, Sent(es)[0].url) == Some(query)
  {
    var req := if query != "" then ListRequestOf(res, Some(query)) else ListRequestOf(res, None);
    ApplyTwo(st, SetSearch(query), Send(req));
    [SetSearch(query), Send(req)]
  }


  /** A checkbox click: the row id is checked if it was not, unchecked if it was. */
  function ClickCheckbox(st: TableState, id: Id): (es: seq<Effect>)
    ensures var after := Apply(st, es);
      && after == st.(selection := after.selection)
      && (id !in st.selection ==> after.selection == st.selection + [id])
      && (NoDuplicates(st.selection) ==> NoDuplicates(after.selection))
      && (NoDuplicates(st.selection) ==> forall y :: y in after.selection <==> (y in st.selection <==> y != id))
    ensures Sent(es) == []
  {
    [SetSelection(Toggle(st.selection, id))]
  }

  /** The delete button: with rows checked it hides the warning and opens the confirmation;
      with none checked it only shows the warning. */
  function ClickDelete(st: TableState): (es: seq<Effect>)
    ensures var after := Apply(st, es);
      && after.selection == st.selection
      && (|st.selection| > 0 ==> after == st.(deleteAlertOpen := false, deleteModalOpen := true))
      && (|st.selection| == 0 ==> after == st.(deleteAlertOpen := true))
      && (after.deleteModalOpen && !st.deleteModalOpen ==> |st.selection| > 0)
    ensures Sent(es) == []
  {
    if |st.selection| > 0 then [SetDeleteAlert(false), SetDeleteModal(true)] else [SetDeleteAlert(true)]
  }

  /** Dismissing the confirmation without deleting. */
  function CancelDelete(): seq<Effect> {
    [SetDeleteModal(false)]
  }

  /** Dismissing the "select at least one" warning. */
  function CloseDeleteAlert(): seq<Effect> {
    [SetDeleteAlert(false)]
  }

  /** The body of a bulk delete: the checked ids under the table's key. */
  function DeleteRequest(res: Resource, ids: seq<Id>): Request {
    Request(Delete, res.path, IdList(res.checkedKey, ids))
  }

  /** Confirming the delete. The checked ids go into the body, then the selection is emptied
      and the confirmation closed, and only then is the DELETE sent. When the request is
      delivered the table is reloaded unfiltered; otherwise the failure is only logged. */
  function ConfirmDelete(res: Resource, st: TableState, delivered: bool): (es: seq<Effect>)
    ensures |es| > 2 && es[2] == Send(DeleteRequest(res, st.selection))
    ensures !es[0].Send? && !es[1].Send?
    ensures Apply(st, es[..2]) == Apply(st, es)
    ensures Apply(st, es) == st.(selection := [], deleteModalOpen := false)
    ensures Sent(es) == [DeleteRequest(res, st.selection)] + (if delivered then [ListRequestOf(res, None)] else [])
  {
    var sent := [SetSelection([]), SetDeleteModal(false), Send(DeleteRequest(res, st.selection))];
    var rest := if delivered then [Send(ListRequestOf(res, None))] else [LogError];
    ApplyConcat(st, sent, rest);
    SentConcat(sent, rest);
    ApplyThree(st, sent[0], sent[1], sent[2]);
    ApplyTwo(st, sent[0], sent[1]);
    assert (sent + rest)[..2] == [sent[0], sent[1]];
    assert (sent + rest)[..2] == sent[..2];
    sent + rest
  }

  /** A click toggles the id's membership whatever the (uncontrolled) tick shows. After a
      delete, the selection is empty while the rows still on screen stay ticked, so the
      next click on a ticked row adds its id instead of removing it. */
  lemma ClickAfterDeleteReselects(res: Resource, st: TableState, delivered: bool, id: Id)
    requires id in st.selection
    ensures var cleared := Apply(st, ConfirmDelete(res, st, delivered));
      Apply(cleared, ClickCheckbox(cleared, id)).selection == [id]
  {
  }

  /** Typing a name: the form keeps the text with surrounding whitespace trimmed. */
  function EnterName(st: TableState, raw: string): (es: seq<Effect>)
    ensures var after := Apply(st, es);
      && after == st.(draft := after.draft)
      && after.draft == st.draft.(name := Some(Trim(raw)))
    ensures Sent(es) == []
  {
    [SetDraft(st.draft.(name := Some(Trim(raw))))]
  }

  /** Typing a price: kept verbatim, not trimmed. */
  function EnterPrice(st: TableState, raw: string): seq<Effect> {
    [SetDraft(st.draft.(price := Some(raw)))]
  }

  /** Choosing a status in the select ("Active" or "Stopped"). */
  function ChooseStatus(st: TableState, status: string): seq<Effect> {
    [SetDraft(st.draft.(status := status))]
  }

  function OpenNewForm(): seq<Effect> {
    [SetNewModal(true)]
  }

  function CloseNewForm(): seq<Effect> {
    [SetNewModal(false)]
  }

  /** The create body: the name under the table's key, then the price or the status. */
  function CreateRequest(res: Resource, draft: Draft): Request {
    var second := match res.form
      case WithPrice => ("price", draft.price.GetOr(""))
      case WithStatus => ("status", draft.status);
    Request(Post, res.path, Fields([(res.nameKey, draft.name.GetOr("")), second]))
  }

  /** Every create check the form runs passes. */
  ghost predicate ReadyToCreate(res: Resource, st: TableState) {
    && NameAcceptable(st.draft.name, st.records)
    && (res.form == WithPrice ==> PriceAcceptable(st.draft.price))
  }

  /** The create request and what follows it: on delivery the form closes and the table is
      reloaded unfiltered, otherwise the failure is logged. */
  function Create(res: Resource, draft: Draft, delivered: bool): seq<Effect> {
    [Send(CreateRequest(res, draft))]
      + if delivered then [SetNewModal(false), Send(ListRequestOf(res, None))] else [LogError]
  }

  lemma CreateEffects(res: Resource, st: TableState, delivered: bool)
    ensures Apply(st, Create(res, st.draft, delivered)) == if delivered then st.(newModalOpen := false) else st
    ensures Sent(Create(res, st.draft, delivered))
            == [CreateRequest(res, st.draft)] + if delivered then [ListRequestOf(res, None)] else []
  {
    var head := [Send(CreateRequest(res, st.draft))];
    var tail := if delivered then [SetNewModal(false), Send(ListRequestOf(res, None))] else [LogError];
    ApplyConcat(st, head, tail);
    SentConcat(head, tail);
    if delivered {
      ApplyTwo(Apply(st, head), tail[0], tail[1]);
    }
  }

  /** The effects of the price step, which runs only once the name has passed. */
  function PriceStep(res: Resource, st: TableState, delivered: bool): seq<Effect> {
    var c := CheckPrice(st.draft.price);
    if c.Fail? then [SetPriceField(Display(c, res.duplicateText))]
    else [SetPriceField(Clear)] + Create(res, st.draft, delivered)
  }

  /** Pressing the form's add button. The name chain runs first and stops the submission at
      the first failed rule; the item form then runs the price chain. A create request is
      sent exactly when every check passes. */
  function Submit(res: Resource, st: TableState, delivered: bool): (es: seq<Effect>)
    ensures var after := Apply(st, es);
      && (Sent(es) != [] <==> ReadyToCreate(res, st))
      && after.nameField == Display(CheckName(st.draft.name, st.records), res.duplicateText)
      && (!NameAcceptable(st.draft.name, st.records) ==> after.priceField == st.priceField)
      && (res.form == WithStatus ==> after.priceField == st.priceField)
      && (res.form == WithPrice && NameAcceptable(st.draft.name, st.records) ==>
            after.priceField == Display(CheckPrice(st.draft.price), res.duplicateText))
      && (ReadyToCreate(res, st) ==>
            Sent(es) == [CreateRequest(res, st.draft)] + if delivered then [ListRequestOf(res, None)] else [])
      && after.newModalOpen == (st.newModalOpen && !(ReadyToCreate(res, st) && delivered))
      && after == st.(nameField := after.nameField, priceField := after.priceField, newModalOpen := after.newModalOpen)
  {
    var c := CheckName(st.draft.name, st.records);
    if c.Fail? then
      [SetNameField(Display(c, res.duplicateText))]
    else
      var head := [SetNameField(Clear)];
      var st1 := Step(st, SetNameField(Clear));
      var tail := match res.form
        case WithPrice => PriceStep(res, st1, delivered)
        case WithStatus => Create(res, st1.draft, delivered);
      ApplyConcat(st, head, tail);
      SentConcat(head, tail);
      PriceStepEffects(res, st1, delivered);
      CreateEffects(res, st1, delivered);
      head + tail
  }

  lemma PriceStepEffects(res: Resource, st: TableState, delivered: bool)
    ensures var after := Apply(st, PriceStep(res, st, delivered));
      && (Sent(PriceStep(res, st, delivered)) != [] <==> PriceAcceptable(st.draft.price))
      && after.priceField == Display(CheckPrice(st.draft.price), res.duplicateText)
      && (PriceAcceptable(st.draft.price) ==>
            Sent(PriceStep(res, st, delivered))
            == [CreateRequest(res, st.draft)] + if delivered then [ListRequestOf(res, None)] else [])
      && after.newModalOpen == (st.newModalOpen && !(PriceAcceptable(st.draft.price) && delivered))
      && after == st.(priceField := after.priceField, newModalOpen := after.newModalOpen)
  {
    var c := CheckPrice(st.draft.price);
    if c.Pass? {
      var head := [SetPriceField(Clear)];
      var st1 := Step(st, SetPriceField(Clear));
      ApplyConcat(st, head, Create(res, st.draft, delivered));
      SentConcat(head, Create(res, st.draft, delivered));
      CreateEffects(res, st1, delivered);
    }
  }
}
