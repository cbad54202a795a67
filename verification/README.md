# Inventory list tables — a Dafny model

This project models the client-side logic of the three list screens of an inventory
application: the items, brands and categories tables. Each screen loads a collection from
a REST backend, lets the user search it by name, check rows and bulk-delete them, and
create a new record through a form whose fields are validated in a fixed order.

The three React components are near-copies of each other. The model has one generic list
controller (`Controller`) that takes a `Resource` configuration, and three thin modules
(`ItemTable`, `BrandTable`, `CategoryTable`) that fix the constants of each screen and
restate the generic contracts with the screen's own paths, keys and messages.

Every event handler is a pure function from the component's state (`TableState`) to the
ordered list of effects it performs: state updates, requests sent and errors logged.
`Apply` folds the updates into the next state and `Sent` lists the requests. This makes
ordering claims exact. For example, confirming a delete empties the selection and closes
the confirmation before the DELETE is sent.

Modules:

- `Wrappers`: `Option`, for a state cell that is still `undefined`.
- `JsText`: ECMAScript's `\s` whitespace set, the ASCII letter and digit classes, and
  `String.prototype.trim`.
- `Patterns`: the name whitelist `/^[a-zA-Z\s\d]*$/` and the price pattern
  `/^(\d+(\.\d{1,2})?)$/`. Each is written as a recogniser and paired with a declarative
  definition of the language it accepts.
- `Validation`: the name chain (required, length, character whitelist, duplicate), the
  price chain (required, format), and the field states they leave behind.
- `Selection`: the array of checked ids and its toggle.
- `Requests`: the requests as values, and the list and search URL with a parser that
  reads the query back.
- `Controller`: the state, the effects, and every handler.
- `ItemTable`, `BrandTable`, `CategoryTable`: the three screens.

Behaviour of the components that the model keeps on purpose:

- The length test `!(len > 0) && !(len <= 50)` can never be true. The model keeps the
  branch as written and proves that it never fires. Names longer than 50 characters are
  therefore accepted.
- The duplicate check compares against the records currently loaded. After a search this
  is the filtered list, not the whole collection.
- The selection is an array, not a set. A click toggles the id's membership: an absent
  id is appended, a present one has its first occurrence spliced out. The tick on screen
  is not tied to it, because the checkbox is uncontrolled (ItemTable.js:332-335 passes no
  `checked` value). After a delete the selection is empty while rows still on screen stay
  ticked, so unticking one adds its id (`Controller.ClickAfterDeleteReselects`); a row
  hidden by a search and shown again comes back unticked while its id stays selected.
- The create form closes, and the table reloads, only when the POST's `fetch` resolves.
  After a delete, the selection is already empty and the confirmation already closed
  whatever happens to the request.
- A brand or category is created with whatever status is selected. That includes the
  initial empty string.
- The form's inputs are not reset after a successful create.

Consequences of the code that its own text does not announce:

- The message "Must be 1-50 characters long" names a bound that the test at
  ItemTable.js:54 never enforces.
- The status select starts at the empty string, and no check stops that value from being
  posted.
- The create form closes only when the POST's `fetch` resolves; a rejected request leaves
  it open with no message.
- The name, price and status cells keep their values after a create; reopening the form
  shows empty text fields while the cells still hold the previous input.

## Model

| member | source | states |
|---|---|---|
| JsText.Trim | client/src/components/ItemTable.js:240 | The typed name loses its whitespace at both ends. The result is the infix left after dropping an all-whitespace prefix and suffix, and it neither starts nor ends with whitespace. |
| JsText.TrimEmptyIffAllWhitespace | client/src/components/ItemTable.js:240 | A typed name trims to the empty string exactly when it consists only of whitespace. |
| JsText.TrimIdempotent | client/src/components/BrandTable.js:204 | Trimming an already trimmed name changes nothing. |
| Patterns.MatchesNamePattern | client/src/components/ItemTable.js:58 | The whitelist test accepts a string exactly when every character is an ASCII letter, an ASCII digit or an ECMAScript whitespace character. |
| Patterns.MatchesPricePatternIff | client/src/components/ItemTable.js:82 | The price test accepts exactly the strings made of one or more digits, optionally followed by a point and one or two digits. |
| Patterns.PriceExamples | client/src/components/ItemTable.js:82 | "5", "12.34" and "0.5" are valid prices. "12.345", "5.", ".5", "-1" and "" are not. |
| Validation.FindName | client/src/components/ItemTable.js:63-69 | The scan over the loaded records reports a match exactly when some record's name equals the typed name, case-sensitively. |
| Validation.CheckName | client/src/components/ItemTable.js:49-70 | A missing or empty name fails "required". Otherwise, a name with a character outside the whitelist fails "special characters". Otherwise, a loaded name fails "duplicate". The length rule never fires. The check passes exactly for present, whitelisted, not-yet-loaded names. |
| Validation.CheckPrice | client/src/components/ItemTable.js:76-86 | A missing or empty price fails "required". A present price fails "format" exactly when it is outside the price language. The check passes exactly for prices in that language. |
| Validation.LongNamesAccepted | client/src/components/BrandTable.js:49-52 | A whitelisted, unused name longer than 50 characters passes the name chain. |
| Selection.IndexOf | client/src/components/ItemTable.js:127 | The position returned holds the id, and no earlier position does. |
| Selection.Toggle | client/src/components/ItemTable.js:124-137 | An unchecked id is appended at the end. For a checked id, the first occurrence is removed, the others keep their order, and the multiset loses exactly that id. Duplicate-freedom is preserved, and the id's membership flips while every other id's stays. |
| Selection.ToggleTwiceRestores | client/src/components/BrandTable.js:102-115 | Checking an unchecked id and then unchecking it gives back exactly the original selection. |
| Selection.ToggleTwiceMovesToEnd | client/src/components/CategoryTable.js:102-115 | On a duplicate-free selection, unchecking a checked id and checking it again keeps the same ids, with that id moved to the end. |
| Requests.SearchUrl | client/src/components/ItemTable.js:97-100 | The list URL starts with the collection path. It equals the bare path exactly when the query is empty. Parsing it gives back exactly the query. |
| Requests.SearchUrlInjective | client/src/components/BrandTable.js:75-78 | Two queries that produce the same URL are equal. |
| Requests.ListRequest | client/src/components/ItemTable.js:94-101 | A load is a GET with no body. It targets the bare path exactly when the filter is absent or empty, and otherwise carries the filter as its query. |
| Controller.Mount | client/src/components/ItemTable.js:166-168 | Mounting leaves the initial state untouched and sends one unfiltered load. |
| Controller.Receive | client/src/components/ItemTable.js:102-106 | A parsed response replaces the records wholesale. A failed load changes nothing and sends nothing. |
| Controller.Lookup | client/src/components/ItemTable.js:157-164 | Only the search text changes. One load is sent. It is unfiltered exactly when the text is empty, and its URL carries the text back. |
| Controller.ClickCheckbox | client/src/components/ItemTable.js:334 | Only the selection changes. An unchecked id is appended, duplicate-freedom is preserved, and the clicked id's membership flips. |
| Controller.ClickDelete | client/src/components/ItemTable.js:223 | With rows checked, the warning is hidden and the confirmation opened. With none, only the warning is shown. The confirmation never opens on an empty selection, and nothing is sent. |
| Controller.ConfirmDelete | client/src/components/ItemTable.js:139-155 | The DELETE body holds the selection as it was. Before it is sent, the selection is emptied and the confirmation closed, and nothing changes afterwards. A reload follows only when the request was delivered. |
| Controller.ClickAfterDeleteReselects | client/src/components/ItemTable.js:139-145 | After a confirmed delete, whether or not it was delivered, clicking a row that was checked before leaves exactly that id selected, although its tick is still shown. |
| Controller.EnterName | client/src/components/ItemTable.js:240 | Only the draft name changes. It becomes the trimmed input. |
| Controller.CreateEffects | client/src/components/ItemTable.js:109-122 | A create sends the POST. When the POST is delivered, it closes the form and reloads unfiltered. Otherwise it changes nothing more. |
| Controller.PriceStepEffects | client/src/components/ItemTable.js:76-91 | The price step shows the price check's outcome. It creates the record exactly when the price is valid and changes no other state cell. |
| Controller.Submit | client/src/components/ItemTable.js:49-91 | A create is sent exactly when every check passes. The name field shows the first failed name rule, or is cleared. The price field is untouched when the name fails or the form has no price. The form closes only after a delivered create. Nothing else changes. |
| ItemTable.AddItem | client/src/components/ItemTable.js:49-122 | These are the item form's exact messages in chain order, and a failing name leaves the price field untouched. On success both fields are cleared and `{item_name, price}` is POSTed to /items. On delivery the table reloads from /items and the form closes. |
| ItemTable.SearchItems | client/src/components/ItemTable.js:157-164 | Searching loads /items for an empty query and /items/?item_name=<query> otherwise. |
| ItemTable.DeleteItems | client/src/components/ItemTable.js:139-155 | The selection is emptied and the confirmation closed, and then the DELETE to /items with `{checkedItems}` is sent. |
| ItemTable.BlankNameIsRequired | client/src/components/ItemTable.js:49-53 | A name typed as whitespace only is reported as "Required field", and nothing is sent. |
| ItemTable.WidgetIsDuplicate | client/src/components/ItemTable.js:63-68 | With "Widget" loaded, the name "Widget" is reported as "Item already exists", the price field is untouched, and nothing is sent. |
| ItemTable.ThreeDecimalsRejected | client/src/components/ItemTable.js:82-86 | The name "Gadget 2" passes, and the price "12.345" is reported as "Not a valid price format". |
| ItemTable.SixtyCharacterNameAccepted | client/src/components/ItemTable.js:54-57 | A 60-letter name with a valid price is accepted and POSTed. |
| BrandTable.AddBrand | client/src/components/BrandTable.js:44-100 | A POST is sent exactly when the name passes. The brand form's messages come in chain order. On success `{brand_name, status}` goes to /brands with the status unchecked, even when it is the initial empty string. |
| BrandTable.SearchBrands | client/src/components/BrandTable.js:135-142 | Searching loads /brands for an empty query and /brands/?brand_name=<query> otherwise. |
| BrandTable.DeleteBrands | client/src/components/BrandTable.js:117-133 | The selection is emptied and the confirmation closed, and then the DELETE to /brands with `{checkedBrands}` is sent. |
| CategoryTable.AddCategory | client/src/components/CategoryTable.js:44-100 | A POST is sent exactly when the name passes. The category form's messages end with "category already exists". On success `{cat_name, status}` goes to /categories. |
| CategoryTable.SearchCategories | client/src/components/CategoryTable.js:135-142 | Searching loads /categories for an empty query and /categories/?cat_name=<query> otherwise. |
| CategoryTable.DeleteCategories | client/src/components/CategoryTable.js:117-133 | The selection is emptied and the confirmation closed, and then the DELETE to /categories with `{checkedCats}` is sent. |

## Left out

- Network I/O (`fetch`, `response.json()`, JSON encoding, `console.log`). A request is a
  value in the effect list. Whether a write's `fetch` resolved is the `delivered`
  parameter. A load's outcome is the `Option` given to `Controller.Receive`. HTTP status
  codes are ignored by the components, and so by the model.
- React hooks, rendering, Material-UI widgets and the window-width layout switch. State
  cells become fields of `TableState`.
- The items table's New Order button, its alert and its link object
  (ItemTable.js:172-176, 205-217). This is navigation to another screen.
- Overlapping searches whose responses arrive out of order. The model applies responses
  in the order they are given.
- User events between a request and its `await` resuming. `Controller.Create` and
  `Controller.ConfirmDelete` run the effects after `await fetch` (ItemTable.js:117-118,
  151) in one list with those before it, so a click in between (reopening the form before
  a delivered POST closes it, say) cannot be expressed.
- URL encoding and decoding between `fetch` and the server. The query is inserted
  unescaped, so a `#`, `&` or `+` in it can reach the server as a different value; the
  model promises only distinct request URLs for distinct queries.
- Route wiring in App.js, which has no logic.
- The commented-out brand and category selects in ItemTable.js:251-290, which are dead
  code.
- Record fields shown only in the table (price, quantities, status). A `Record` keeps its
  id and name.
- Strings are sequences of Unicode scalar values, while JavaScript counts UTF-16 code
  units. This only affects `.length`, which feeds the dead length test, and lone
  surrogates, which no pattern here accepts.
- `\s` and `trim` use ECMAScript's WhiteSpace and LineTerminator sets with the space
  separators of current Unicode. An engine built on an older Unicode table may differ.
- `Controller.CancelDelete`, `Controller.CloseDeleteAlert`, `Controller.OpenNewForm`, `Controller.CloseNewForm`,
  `Controller.EnterPrice` and `Controller.ChooseStatus` each set one state cell. They
  carry no contract of their own.
