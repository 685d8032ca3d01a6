/**
  The document aggregate `StampDesign`: a name, a canvas size and an ordered
  list of elements, plus the list operations the editor applies to it.
*/
module Designs {
  import opened Elements

  datatype Design = Design(name: string, canvasWidth: real, canvasHeight: real, elements: seq<Element>)

  /** `new StampDesign()`. */
  function NewDesign(): (d: Design)
    ensures d.name == "Untitled Stamp"
    ensures d.canvasWidth == 400.0 && d.canvasHeight == 300.0
    ensures d.elements == []
  {
    Design("Untitled Stamp", 400.0, 300.0, [])
  }

  /** The ids of a list of elements. */
  function Ids(es: seq<Element>): set<Id> {
    set i | 0 <= i < |es| :: es[i].id
  }

  /** No two elements of the list share an id. */
  predicate UniqueIds(es: seq<Element>) {
    forall i, j :: 0 <= i < j < |es| ==> es[i].id != es[j].id
  }

  /**
    `List.Remove`: drops the first element equal to `x` and keeps the rest in
    order; a list without `x` is returned as it is. Elements are reference
    objects there and are compared by reference; here they are compared by
    value. The two agree on a list whose ids are unique (`RemoveFirstUnique`).
  */
  function RemoveFirst(es: seq<Element>, x: Element): (r: seq<Element>)
    ensures x !in es ==> r == es
    ensures x in es ==> |r| == |es| - 1
    ensures multiset(r) == multiset(es) - multiset{x}
  {
    if es == [] then []
    else
      assert es == [es[0]] + es[1..];
      if es[0] == x then es[1..]
      else [es[0]] + RemoveFirst(es[1..], x)
  }

  /** Removing an element the list does not start with keeps the head. */
  lemma RemoveFirstCons(es: seq<Element>, x: Element)
    requires |es| > 0 && es[0] != x
    ensures RemoveFirst(es, x) == [es[0]] + RemoveFirst(es[1..], x)
  {
  }

  /** Putting the head back in front of the tail with index `i - 1` cut out cuts index `i` out of the list. */
  lemma SpliceCons(es: seq<Element>, i: nat)
    requires 0 < i < |es|
    ensures [es[0]] + (es[1..][..i - 1] + es[1..][i..]) == es[..i] + es[i + 1..]
  {
    assert es[1..][..i - 1] == es[1..i];
    assert es[1..][i..] == es[i + 1..];
    assert [es[0]] + es[1..i] == es[..i];
  }

  /** When nothing before index `i` equals `es[i]`, `Remove(es[i])` removes exactly index `i`. */
  lemma {:induction false} RemoveFirstAt(es: seq<Element>, i: nat)
    requires i < |es|
    requires forall j :: 0 <= j < i ==> es[j] != es[i]
    ensures RemoveFirst(es, es[i]) == es[..i] + es[i + 1..]
  {
    if i == 0 {
      assert es[..0] + es[1..] == es[1..];
    } else {
      var tail := es[1..];
      assert tail[i - 1] == es[i];
      forall j | 0 <= j < i - 1
        ensures tail[j] != tail[i - 1]
      {
        assert tail[j] == es[j + 1];
      }
      RemoveFirstAt(tail, i - 1);
      RemoveFirstCons(es, es[i]);
      SpliceCons(es, i);
    }
  }

  /** In a list with unique ids, removing an element deletes exactly its own index. */
  lemma RemoveFirstUnique(es: seq<Element>, i: nat)
    requires i < |es| && UniqueIds(es)
    ensures RemoveFirst(es, es[i]) == es[..i] + es[i + 1..]
  {
    RemoveFirstAt(es, i);
  }
}
