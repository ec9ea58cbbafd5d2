/** Commons/collections.h: the linked elements that the queue and the list are made of. */
module Links {
  import opened Options

  class Element<T> {
    var data: T
    var next: Element?<T>

    constructor (data: T)
      ensures this.data == data && next == null
    {
      this.data, next := data, null;
    }
  }

  /** `spine` is a null-terminated chain of distinct elements that hold `contents`. */
  ghost predicate Linked<T>(spine: seq<Element<T>>, contents: seq<T>)
    reads spine
  {
    && |spine| == |contents|
    && (forall i, j :: 0 <= i < j < |spine| ==> spine[i] != spine[j])
    && (forall i :: 0 <= i < |spine| ==> spine[i].data == contents[i])
    && (forall i, j :: 0 <= i < |spine| && j == i + 1 && j < |spine| ==> spine[i].next == spine[j])
    && (spine != [] ==> spine[|spine| - 1].next == null)
  }

  ghost function First<T>(spine: seq<Element<T>>): Element?<T> {
    if spine == [] then null else spine[0]
  }

  ghost function Last<T>(spine: seq<Element<T>>): Element?<T> {
    if spine == [] then null else spine[|spine| - 1]
  }

  /** Unlinking element `i` leaves a chain of the others. */
  lemma Unlinked<T>(spine: seq<Element<T>>, contents: seq<T>, i: nat)
    requires |spine| == |contents| && i < |spine|
    requires forall a, b :: 0 <= a < b < |spine| ==> spine[a] != spine[b]
    requires forall a :: 0 <= a < |spine| ==> spine[a].data == contents[a]
    requires forall a, b :: 0 <= a < |spine| && b == a + 1 && b < |spine| && b != i ==> spine[a].next == spine[b]
    requires i > 0 ==> spine[i - 1].next == if i + 1 < |spine| then spine[i + 1] else null
    requires i + 1 < |spine| ==> spine[|spine| - 1].next == null
    ensures Linked(Without(spine, i), Without(contents, i))
  {
    var rest := Without(spine, i);
    assert forall a :: 0 <= a < |rest| ==> rest[a] == spine[if a < i then a else a + 1];
  }

  /** Linking a new last element. */
  lemma Appended<T>(spine: seq<Element<T>>, contents: seq<T>, element: Element<T>)
    requires |spine| == |contents|
    requires forall a, b :: 0 <= a < b < |spine| ==> spine[a] != spine[b]
    requires forall a :: 0 <= a < |spine| ==> spine[a].data == contents[a] && spine[a] != element
    requires forall a, b :: 0 <= a < |spine| && b == a + 1 && b < |spine| ==> spine[a].next == spine[b]
    requires spine != [] ==> spine[|spine| - 1].next == element
    requires element.next == null
    ensures Linked(spine + [element], contents + [element.data])
  {
  }
}
