/** Commons/queue.c: a queue of linked elements with a head, a tail and a count.  The ghost
    `spine` lists the elements; every operation is specified on `contents`. */
module LinkedQueue {
  import opened Links
  import opened Options

  function Reversed<T>(s: seq<T>): (r: seq<T>) {
    if s == [] then [] else Reversed(s[1..]) + [s[0]]
  }

  lemma {:induction false} ReversedConcat<T>(a: seq<T>, b: seq<T>)
    ensures Reversed(a + b) == Reversed(b) + Reversed(a)
  {
    if a == [] {
      assert a + b == b;
    } else {
      assert (a + b)[1..] == a[1..] + b;
      ReversedConcat(a[1..], b);
    }
  }

  lemma {:induction false} ReversedTwice<T>(s: seq<T>)
    ensures Reversed(Reversed(s)) == s
  {
    if s != [] {
      ReversedConcat(Reversed(s[1..]), [s[0]]);
      ReversedTwice(s[1..]);
    }
  }

  class Queue<T> {
    var head: Element?<T>
    var tail: Element?<T>
    var elementsCount: nat
    ghost var contents: seq<T>
    ghost var spine: seq<Element<T>>

    ghost var Repr: set<object>

    ghost predicate Valid()
      reads this, Repr
      ensures Valid() ==> this in Repr
    {
      && this in Repr
      && (forall i :: 0 <= i < |spine| ==> spine[i] in Repr)
      && Linked(spine, contents)
      && elementsCount == |spine| && head == First(spine) && tail == Last(spine)
    }

    constructor ()
      ensures Valid() && fresh(Repr) && contents == []
    {
      head, tail, elementsCount := null, null, 0;
      contents, spine, Repr := [], [], {this};
    }

    method Push(data: T)
      requires Valid()
      modifies Repr
      ensures Valid() && fresh(Repr - old(Repr))
      ensures contents == old(contents) + [data]
    {
      var element := new Element(data);
      if tail != null {
        tail.next := element;
        tail := tail.next;
      } else {
        head := element;
        tail := element;
      }
      elementsCount := elementsCount + 1;
      contents, spine, Repr := contents + [data], spine + [element], Repr + {element};
    }

    method PushHead(data: T)
      requires Valid()
      modifies this
      ensures Valid() && fresh(Repr - old(Repr))
      ensures contents == [data] + old(contents)
    {
      var element := new Element(data);
      if head != null {
        element.next := head;
        head := element;
      } else {
        head := element;
        tail := element;
      }
      elementsCount := elementsCount + 1;
      contents, spine, Repr := [data] + contents, [element] + spine, Repr + {element};
      assert forall i :: 1 <= i < |spine| ==> spine[i] == old(spine)[i - 1];
    }

    /** On an empty queue nothing happens (the source would block on its semaphore first). */
    method Pop() returns (data: Option<T>)
      requires Valid()
      modifies this
      ensures Valid() && Repr == old(Repr)
      ensures old(contents) == [] ==> data == None && contents == []
      ensures old(contents) != [] ==> data == Some(old(contents)[0]) && contents == old(contents)[1..]
    {
      data := None;
      if head != null {
        var element := head;
        head := head.next;
        if head == null {
          tail := null;
        }
        data := Some(element.data);
        elementsCount := elementsCount - 1;
        contents, spine := contents[1..], spine[1..];
        assert forall i :: 0 <= i < |spine| ==> spine[i] == old(spine)[i + 1];
      }
    }

    /** Through a second queue: popped to its head, then popped from it to the tail. */
    method Invert()
      requires Valid()
      modifies Repr
      ensures Valid() && fresh(Repr - old(Repr))
      ensures contents == Reversed(old(contents))
    {
      var aux := new Queue<T>();
      PopToHeadOf(aux);
      aux.PopToTailOf(this);
    }

    method PopToHeadOf(aux: Queue<T>)
      requires Valid() && aux.Valid() && Repr !! aux.Repr
      modifies this, aux
      ensures Valid() && Repr == old(Repr) && contents == []
      ensures aux.Valid() && fresh(aux.Repr - old(aux.Repr))
      ensures aux.contents == Reversed(old(contents)) + old(aux.contents)
    {
      while elementsCount > 0
        invariant Valid() && Repr == old(Repr)
        invariant aux.Valid() && fresh(aux.Repr - old(aux.Repr))
        invariant Reversed(contents) + aux.contents == Reversed(old(contents)) + old(aux.contents)
        decreases |contents|
      {
        var data := Pop();
        aux.PushHead(data.value);
      }
    }

    method PopToTailOf(other: Queue<T>)
      requires Valid() && other.Valid() && Repr !! other.Repr
      modifies this, other.Repr
      ensures Valid() && Repr == old(Repr) && contents == []
      ensures other.Valid() && fresh(other.Repr - old(other.Repr))
      ensures other.contents == old(other.contents) + old(contents)
    {
      while elementsCount > 0
        invariant Valid() && Repr == old(Repr)
        invariant other.Valid() && fresh(other.Repr - old(other.Repr))
        invariant other.contents + contents == old(other.contents) + old(contents)
        decreases |contents|
      {
        var data := Pop();
        other.Push(data.value);
      }
    }

    /** The first datum that satisfies the closure. */
    method Find(closure: T -> bool) returns (data: Option<T>)
      requires Valid()
      ensures data == FirstThat(contents, closure)
    {
      var element := head;
      ghost var i := 0;
      while element != null
        invariant 0 <= i <= |spine| && element == if i < |spine| then spine[i] else null
        invariant forall j :: 0 <= j < i ==> !closure(contents[j])
        decreases |spine| - i
      {
        if closure(element.data) {
          FirstIndexIs(contents, closure, i);
          return Some(element.data);
        }
        element := element.next;
        i := i + 1;
      }
      FirstIndexIs(contents, closure, i);
      return None;
    }
  }
}
