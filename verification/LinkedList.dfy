/** Commons/list.c: a list of linked elements with a head and a count. */
module LinkedList {
  import opened Links
  import opened Options

  class List<T> {
    var head: Element?<T>
    var elementsCount: int
    ghost var contents: seq<T>
    ghost var spine: seq<Element<T>>
    ghost var Repr: set<object>

    /** The chain is sound, whatever the count says. */
    ghost predicate Chained()
      reads this, Repr
      ensures Chained() ==> this in Repr
    {
      && this in Repr
      && (forall i :: 0 <= i < |spine| ==> spine[i] in Repr)
      && Linked(spine, contents)
      && head == First(spine)
    }

    ghost predicate Valid()
      reads this, Repr
      ensures Valid() ==> this in Repr
    {
      Chained() && elementsCount == |contents|
    }

    constructor ()
      ensures Valid() && fresh(Repr) && contents == []
    {
      head, elementsCount := null, 0;
      contents, spine, Repr := [], [], {this};
    }

    /** Appends, and returns the position. */
    method Add(data: T) returns (position: int)
      requires Valid()
      modifies Repr
      ensures Valid() && fresh(Repr - old(Repr))
      ensures contents == old(contents) + [data] && position == |old(contents)|
    {
      var newElement := new Element(data);
      if head == null {
        head := newElement;
      } else {
        var element := head;
        ghost var i := 0;
        while element.next != null
          invariant 0 <= i < |spine| && element == spine[i]
          invariant element.next == if i + 1 < |spine| then spine[i + 1] else null
          decreases |spine| - i
        {
          element := element.next;
          i := i + 1;
        }
        element.next := newElement;
      }
      elementsCount := elementsCount + 1;
      Appended(spine, contents, newElement);
      contents, spine, Repr := contents + [data], spine + [newElement], Repr + {newElement};
      position := elementsCount - 1;
    }

    method Get(num: int) returns (data: Option<T>)
      requires Valid()
      ensures data == if 0 <= num < |contents| then Some(contents[num]) else None
    {
      data := None;
      if elementsCount > num && num >= 0 {
        var element := head;
        var cont := 0;
        while cont < num
          invariant 0 <= cont <= num && element == spine[cont]
        {
          element := element.next;
          cont := cont + 1;
        }
        data := Some(element.data);
      }
    }

    method Find(closure: T -> bool) returns (data: Option<T>)
      requires Valid()
      ensures data == FirstThat(contents, closure)
    {
      var element := head;
      ghost var i := 0;
      while element != null
        invariant 0 <= i <= |spine| && element == if i < |spine| then spine[i] else null
        invariant forall j :: 0 <= j < i ==> !closure(contents[j])
        decreases |spine| - i
      {
        if closure(element.data) {
          FirstIndexIs(contents, closure, i);
          return Some(element.data);
        }
        element := element.next;
        i := i + 1;
      }
      FirstIndexIs(contents, closure, i);
      return None;
    }

    /** The count goes down even when the position does not exist, and is then wrong: the list
        stays valid exactly when `num` is one of its positions. */
    method Remove(num: int) returns (data: Option<T>)
      requires Valid() && contents != []
      modifies Repr
      ensures Chained() && Repr == old(Repr) && elementsCount == old(elementsCount) - 1
      ensures Valid() <==> 0 <= num < |old(contents)|
      ensures 0 <= num < |old(contents)| ==>
                data == Some(old(contents)[num]) && contents == Without(old(contents), num)
      ensures !(0 <= num < |old(contents)|) ==> data == None && contents == old(contents)
    {
      data := None;
      if num == 0 {
        data := Some(head.data);
        head := head.next;
        Unlinked(spine, contents, 0);
        spine, contents := Without(spine, 0), Without(contents, 0);
      } else if elementsCount > num && num > 0 {
        var element := head;
        var cont := 0;
        while cont < num - 1
          invariant 0 <= cont <= num - 1 && element == spine[cont]
        {
          element := element.next;
          cont := cont + 1;
        }
        assert element.next == spine[num];
        data := Some(element.next.data);
        element.next := element.next.next;
        Unlinked(spine, contents, num);
        spine, contents := Without(spine, num), Without(contents, num);
      }
      elementsCount := elementsCount - 1;
    }

    method Unlink(previous: Element?<T>, element: Element<T>, ghost i: nat)
      requires Valid() && i < |spine| && element == spine[i]
      requires previous == if i > 0 then spine[i - 1] else null
      modifies Repr
      ensures Valid() && Repr == old(Repr) && contents == Without(old(contents), i)
    {
      assert i + 1 < |spine| ==> element.next == spine[i + 1];
      assert |spine| > 1 ==> head.next == spine[1];
      if head.next == null || previous == null {
        head := head.next;
      } else {
        previous.next := element.next;
      }
      elementsCount := elementsCount - 1;
      Unlinked(spine, contents, i);
      spine, contents := Without(spine, i), Without(contents, i);
    }

    /** Takes out the first datum that satisfies the closure, if there is one. */
    method RemoveByClosure(closure: T -> bool) returns (data: Option<T>)
      requires Valid()
      modifies Repr
      ensures Valid() && Repr == old(Repr)
      ensures data == FirstThat(old(contents), closure)
      ensures var i := FirstIndex(old(contents), closure);
              contents == if i < |old(contents)| then Without(old(contents), i) else old(contents)
    {
      data := None;
      var previous: Element?<T> := null;
      var element := head;
      ghost var i := 0;
      while element != null
        invariant 0 <= i <= |spine| && element == if i < |spine| then spine[i] else null
        invariant previous == if i > 0 then spine[i - 1] else null
        invariant forall j :: 0 <= j < i ==> !closure(contents[j])
        decreases |spine| - i
      {
        if closure(element.data) {
          FirstIndexIs(contents, closure, i);
          data := Some(element.data);
          Unlink(previous, element, i);
          return;
        }
        previous := element;
        element := element.next;
        i := i + 1;
      }
      FirstIndexIs(contents, closure, i);
    }
  }
}
