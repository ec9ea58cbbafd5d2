/** Absent values, and the first element of a sequence that satisfies a condition. */
module Options {

  datatype Option<+T> = None | Some(value: T)

  /** Its position, |s| when there is none. */
  function FirstIndex<T>(s: seq<T>, closure: T -> bool): (i: nat)
    ensures i <= |s|
    ensures i < |s| ==> closure(s[i])
    ensures forall j :: 0 <= j < i ==> !closure(s[j])
  {
    if s == [] || closure(s[0]) then 0 else 1 + FirstIndex(s[1..], closure)
  }

  function FirstThat<T>(s: seq<T>, closure: T -> bool): Option<T> {
    var i := FirstIndex(s, closure);
    if i < |s| then Some(s[i]) else None
  }

  lemma FirstIndexIs<T>(s: seq<T>, closure: T -> bool, i: nat)
    requires i <= |s| && forall j :: 0 <= j < i ==> !closure(s[j])
    requires i < |s| ==> closure(s[i])
    ensures FirstIndex(s, closure) == i
  {
  }

  function Without<T>(s: seq<T>, i: nat): (r: seq<T>)
    requires i < |s|
  {
    s[..i] + s[i + 1..]
  }
}
