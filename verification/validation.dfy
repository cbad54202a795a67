/**
 * The create-form checks shared by the item, brand and category tables: an ordered chain
 * of rules on the name, and the price rules of the item form.
 */
module Validation {
  import opened Wrappers
  import opened Patterns

  /** One loaded row of a table: its id (the checkbox value) and its name field. */
  datatype Record = Record(id: string, name: string)

  /** The rule a field failed, in the order the chain tries them. */
  datatype Rule = Required | Length | SpecialCharacters | Duplicate | PriceFormat

  datatype Check = Pass | Fail(rule: Rule)

  /** What a text field shows: its error flag and its helper text. */
  datatype FieldState = FieldState(error: bool, helperText: string)

  const Clear: FieldState := FieldState(false, "")

  const RequiredText: string := "Required field"
  const LengthText: string := "Must be 1-50 characters long"
  const SpecialCharactersText: string := "Special characters are not allowed"
  const PriceFormatText: string := "Not a valid price format"

  /** Helper text for a failed rule; the duplicate text differs per table. */
  function Message(rule: Rule, duplicateText: string): string {
    match rule
    case Required => RequiredText
    case Length => LengthText
    case SpecialCharacters => SpecialCharactersText
    case Duplicate => duplicateText
    case PriceFormat => PriceFormatText
  }

  /** The field state a check leaves behind: flagged with its message, or cleared. */
  function Display(c: Check, duplicateText: string): FieldState {
    match c
    case Pass => Clear
    case Fail(rule) => FieldState(true, Message(rule, duplicateText))
  }

  /** JavaScript's `!v` for a value that is a string or `undefined`. */
  predicate IsMissing(v: Option<string>) {
    v.None? || v.value == ""
  }

  /** The length test exactly as the component writes it: `!(n > 0) && !(n <= 50)`. */
  predicate FailsLengthTest(n: nat) {
    !(n > 0) && !(n <= 50)
  }

  ghost predicate NameTaken(records: seq<Record>, name: string) {
    exists i :: 0 <= i < |records| && records[i].name == name
  }

  /** The names the chain lets through: present, whitelisted characters only, not loaded yet. */
  ghost predicate NameAcceptable(name: Option<string>, records: seq<Record>) {
    !IsMissing(name) && NameCharsOnly(name.value) && !NameTaken(records, name.value)
  }

  ghost predicate PriceAcceptable(price: Option<string>) {
    price.Some? && IsPriceLiteral(price.value)
  }

  /** The scan over the loaded records that stops at the first case-sensitive match. */
  function FindName(records: seq<Record>, name: string): (found: bool)
    ensures found <==> NameTaken(records, name)
  {
    if |records| == 0 then false
    else if records[0].name == name then true
    else
      var found := FindName(records[1..], name);
      assert NameTaken(records[1..], name) ==> NameTaken(records, name) by {
        if NameTaken(records[1..], name) {
          var i :| 0 <= i < |records[1..]| && records[1..][i].name == name;
          assert records[i + 1].name == name;
        }
      }
      found
  }

  /** The name chain: required, length, character whitelist, duplicate; the first rule
      that fails is the one reported. The length rule can never fire. */
  function CheckName(name: Option<string>, records: seq<Record>): (c: Check)
    ensures IsMissing(name) ==> c == Fail(Required)
    ensures c != Fail(Length)
    ensures !IsMissing(name) ==> (c == Fail(SpecialCharacters) <==> !NameCharsOnly(name.value))
    ensures !IsMissing(name) && NameCharsOnly(name.value) ==>
              (c == Fail(Duplicate) <==> NameTaken(records, name.value))
    ensures c == Pass <==> NameAcceptable(name, records)
  {
    if IsMissing(name) then Fail(Required)
    else if FailsLengthTest(|name.value|) then Fail(Length)
    else if !MatchesNamePattern(name.value) then Fail(SpecialCharacters)
    else if FindName(records, name.value) then Fail(Duplicate)
    else Pass
  }

  /** The price chain: required, then the price pattern. */
  function CheckPrice(price: Option<string>): (c: Check)
    ensures IsMissing(price) ==> c == Fail(Required)
    ensures !IsMissing(price) ==> (c == Fail(PriceFormat) <==> !IsPriceLiteral(price.value))
    ensures c == Pass <==> PriceAcceptable(price)
  {
    if IsMissing(price) then Fail(Required)
    else
      MatchesPricePatternIff(price.value);
      if !MatchesPricePattern(price.value) then Fail(PriceFormat) else Pass
  }

  /** Names longer than 50 characters are not rejected for their length. */
  lemma LongNamesAccepted(name: string, records: seq<Record>)
    requires |name| > 50 && NameCharsOnly(name) && !NameTaken(records, name)
    ensures CheckName(Some(name), records) == Pass
  {
  }
}
