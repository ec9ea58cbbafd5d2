/** PPD/algoritmos.c and the queue of PPD/PPD.c: the waiting requests as a linked list with a
    head and a tail, from whose middle the schedulers take out a node. */
module SeekQueue {
  import opened Links
  import opened Options
  import opened Seek

  class Waiting {
    var head: Element?<Request>
    var tail: Element?<Request>
    /** Left in the current epoch. */
    var steps: nat
    const maxSteps: nat
    ghost var contents: seq<Request>
    ghost var spine: seq<Element<Request>>
    ghost var Repr: set<object>

    ghost predicate Valid()
      reads this, Repr
      ensures Valid() ==> this in Repr
    {
      && this in Repr
      && (forall i :: 0 <= i < |spine| ==> spine[i] in Repr)
      && Linked(spine, contents)
      && head == First(spine) && (spine != [] ==> tail == Last(spine))
      && 0 < steps
    }

    /** The `i`-th node and the one before it. */
    ghost predicate IsAt(node: Element<Request>, before: Element?<Request>, i: nat)
      reads this
    {
      i < |spine| && node == spine[i] && before == if i > 0 then spine[i - 1] else null
    }

    constructor (maxSteps: nat)
      requires maxSteps > 0
      ensures Valid() && fresh(Repr) && contents == [] && this.maxSteps == steps == maxSteps
    {
      head, tail, this.maxSteps, steps := null, null, maxSteps, maxSteps;
      contents, spine, Repr := [], [], {this};
    }

    /** PPD_queue_push. */
    method Push(info: Request)
      requires Valid()
      modifies Repr
      ensures Valid() && fresh(Repr - old(Repr)) && steps == old(steps)
      ensures contents == old(contents) + [info]
    {
      var p := new Element(info);
      if head == null {
        head := p;
        tail := head;
      } else {
        tail.next := p;
        tail := p;
      }
      Appended(spine, contents, p);
      contents, spine, Repr := contents + [info], spine + [p], Repr + {p};
    }

    /** The request at the shortest distance, or nothing. */
    method Sstf(at: nat) returns (info: Option<Request>)
      requires Valid()
      modifies Repr
      ensures Valid() && Repr == old(Repr) && steps == old(steps)
      ensures old(contents) == [] ==> info == None && contents == []
      ensures old(contents) != [] ==>
                var i := Pick(Policy.Sstf, old(contents), old(steps), at);
                info == Some(old(contents)[i]) && contents == Without(old(contents), i)
    {
      info := None;
      if head != null {
        var chosen, before := Walk(at);
        info := Some(chosen.data);
        Unlink(before, chosen, Nearest(contents, at));
      }
    }

    /** The same among the first `steps` requests, of which there is then one less to serve. */
    method SstfNSteps(at: nat) returns (info: Option<Request>)
      requires Valid() && steps <= maxSteps
      modifies Repr
      ensures Valid() && Repr == old(Repr)
      ensures old(contents) == [] ==> info == None && contents == [] && steps == old(steps)
      ensures old(contents) != [] ==>
                var i := Pick(NSteps(maxSteps), old(contents), old(steps), at);
                && info == Some(old(contents)[i]) && contents == Without(old(contents), i)
                && steps == StepsAfter(NSteps(maxSteps), old(steps))
    {
      info := None;
      if head != null {
        var chosen, before := WalkSteps(at);
        info := Some(chosen.data);
        Unlink(before, chosen, Pick(NSteps(maxSteps), contents, steps, at));
        steps := steps - 1;
        if steps == 0 {
          steps := maxSteps;
        }
      }
    }

    /** The node of the nearest request, the first of several, with the node before it. */
    method Walk(at: nat) returns (chosen: Element<Request>, before: Element?<Request>)
      requires Valid() && head != null
      ensures contents != []
      ensures IsAt(chosen, before, Nearest(contents, at))
    {
      chosen, before := head, null;
      ghost var i := 0;
      var shortest := Distance(chosen.data, at);
      var previous := head;
      var node := head.next;
      ghost var n := 1;
      while node != null
        invariant 1 <= n <= |spine|
        invariant node == (if n < |spine| then spine[n] else null) && previous == spine[n - 1]
        invariant i < n && IsAt(chosen, before, i)
        invariant shortest == Distance(contents[i], at) && IsNearest(contents[..n], at, i)
        decreases |spine| - n
      {
        NearestGrows(contents, at, i, n);
        var distance := Distance(node.data, at);
        if distance < shortest {
          shortest := distance;
          before := previous;
          chosen := node;
          i := n;
        }
        previous := node;
        node := node.next;
        n := n + 1;
      }
      assert contents[..|contents|] == contents;
      NearestIs(contents, at, i);
    }

    /** The same among as many as the eight-bit counter allows. */
    method WalkSteps(at: nat) returns (chosen: Element<Request>, before: Element?<Request>)
      requires Valid() && head != null
      ensures contents != []
      ensures IsAt(chosen, before, Pick(NSteps(maxSteps), contents, steps, at))
    {
      var counter := steps % 256;
      chosen, before := head, null;
      ghost var i := 0;
      var shortest := Distance(chosen.data, at);
      var previous := head;
      var node := head.next;
      counter := (counter + 255) % 256;
      ghost var n := 1;
      while node != null && counter > 0
        invariant 1 <= n <= |spine| && 0 <= counter == Window(steps) - n
        invariant node == (if n < |spine| then spine[n] else null) && previous == spine[n - 1]
        invariant i < n && IsAt(chosen, before, i)
        invariant shortest == Distance(contents[i], at) && IsNearest(contents[..n], at, i)
        decreases |spine| - n
      {
        NearestGrows(contents, at, i, n);
        var distance := Distance(node.data, at);
        if distance < shortest {
          shortest := distance;
          before := previous;
          chosen := node;
          i := n;
        }
        previous := node;
        node := node.next;
        counter := counter - 1;
        n := n + 1;
      }
      if n == |contents| { assert contents[..n] == contents; }
      assert contents[..n] == Candidates(NSteps(maxSteps), contents, steps);
      NearestIs(contents[..n], at, i);
    }

    method Unlink(before: Element?<Request>, chosen: Element<Request>, ghost i: nat)
      requires Valid() && IsAt(chosen, before, i)
      modifies Repr
      ensures Valid() && Repr == old(Repr) && steps == old(steps) && contents == Without(old(contents), i)
    {
      assert i + 1 < |spine| ==> chosen.next == spine[i + 1];
      if before == null {
        head := chosen.next;
        if tail == chosen {
          tail := head;
        }
      } else if chosen == tail {
        before.next := null;
        tail := before;
      } else {
        before.next := chosen.next;
      }
      Unlinked(spine, contents, i);
      spine, contents := Without(spine, i), Without(contents, i);
    }
  }

  predicate IsNearest(q: seq<Request>, at: nat, i: nat) {
    && i < |q|
    && (forall j :: 0 <= j < |q| ==> Distance(q[i], at) <= Distance(q[j], at))
    && (forall j :: 0 <= j < i ==> Distance(q[i], at) < Distance(q[j], at))
  }

  lemma NearestGrows(q: seq<Request>, at: nat, i: nat, n: nat)
    requires i < n < |q| && IsNearest(q[..n], at, i)
    ensures IsNearest(q[..n + 1], at, if Distance(q[n], at) < Distance(q[i], at) then n else i)
  {
    assert q[..n + 1] == q[..n] + [q[n]];
  }

  lemma NearestIs(q: seq<Request>, at: nat, i: nat)
    requires IsNearest(q, at, i)
    ensures Nearest(q, at) == i
  {
  }
}
