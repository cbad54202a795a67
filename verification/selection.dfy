/**
 * The checkbox selection: the ids of the checked rows, in the order they were checked.
 */
module Selection {

  /** A checkbox value: the row id as the browser reports it, a string. */
  type Id = string

  ghost predicate NoDuplicates(s: seq<Id>) {
    forall i, j :: 0 <= i < j < |s| ==> s[i] != s[j]
  }

  /** `Array.prototype.indexOf` for an element that is present: its first position. */
  function IndexOf(s: seq<Id>, x: Id): (i: nat)
    requires x in s
    ensures i < |s| && s[i] == x
    ensures forall j :: 0 <= j < i ==> s[j] != x
  {
    if s[0] == x then 0 else 1 + IndexOf(s[1..], x)
  }

  /** A checkbox click: an unchecked id is appended, a checked id has its first
      occurrence spliced out and every other id keeps its place. */
  function Toggle(s: seq<Id>, x: Id): (r: seq<Id>)
    ensures x !in s ==> r == s + [x]
    ensures x in s ==> exists i :: 0 <= i < |s| && s[i] == x && x !in s[..i] && r == s[..i] + s[i + 1..]
    ensures x in s ==> multiset(r) == multiset(s) - multiset{x}
    ensures NoDuplicates(s) ==> NoDuplicates(r)
    ensures NoDuplicates(s) ==> forall y :: y in r <==> (y in s <==> y != x)
  {
    if x in s then
      var i := IndexOf(s, x);
      var r := s[..i] + s[i + 1..];
      assert s == s[..i] + [x] + s[i + 1..];
      assert multiset(s) == multiset(s[..i]) + multiset{x} + multiset(s[i + 1..]);
      RemovePreservesNoDuplicates(s, i);
      r
    else
      s + [x]
  }

  lemma RemovePreservesNoDuplicates(s: seq<Id>, i: nat)
    requires i < |s|
    ensures NoDuplicates(s) ==> NoDuplicates(s[..i] + s[i + 1..])
    ensures NoDuplicates(s) ==> forall y :: y in s[..i] + s[i + 1..] <==> (y in s && y != s[i])
  {
    var r := s[..i] + s[i + 1..];
    if NoDuplicates(s) {
      assert forall k :: 0 <= k < |r| ==> r[k] == if k < i then s[k] else s[k + 1];
      forall y ensures y in r <==> (y in s && y != s[i]) {
        if y in s && y != s[i] {
          var k :| 0 <= k < |s| && s[k] == y;
          if k < i { assert r[k] == y; } else { assert r[k - 1] == y; }
        }
      }
    }
  }

  /** Checking an unchecked id and then unchecking it restores the selection exactly. */
  lemma ToggleTwiceRestores(s: seq<Id>, x: Id)
    requires x !in s
    ensures Toggle(Toggle(s, x), x) == s
  {
    var t := s + [x];
    assert t[..|s|] == s;
    assert IndexOf(t, x) == |s|;
  }

  /** Unchecking a checked id and then checking it again keeps the same set of ids,
      with that id moved to the end. */
  lemma ToggleTwiceMovesToEnd(s: seq<Id>, x: Id)
    requires NoDuplicates(s) && x in s
    ensures var i := IndexOf(s, x); Toggle(Toggle(s, x), x) == s[..i] + s[i + 1..] + [x]
    ensures multiset(Toggle(Toggle(s, x), x)) == multiset(s)
  {
    var i := IndexOf(s, x);
    var r := Toggle(s, x);
    UncheckRemovesId(s, x);
    assert Toggle(r, x) == r + [x];
    AppendRestoresMultiset(s, r, x);
  }

  lemma UncheckRemovesId(s: seq<Id>, x: Id)
    requires NoDuplicates(s) && x in s
    ensures Toggle(s, x) == s[..IndexOf(s, x)] + s[IndexOf(s, x) + 1..]
    ensures x !in Toggle(s, x)
  {
  }

  lemma AppendRestoresMultiset(s: seq<Id>, r: seq<Id>, x: Id)
    requires x in s && multiset(r) == multiset(s) - multiset{x}
    ensures multiset(r + [x]) == multiset(s)
  {
    assert multiset(r + [x]) == multiset(r) + multiset{x};
  }
}
