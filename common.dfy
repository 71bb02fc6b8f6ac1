/** Small value types and sequence helpers shared by the whole model. */
module Common {

  /** A value that may be absent (a JavaScript `undefined`/`null` field). */
  datatype Option<+T> = None | Some(value: T)

  /** The outcome of a schema cast: the record, or what failed. */
  datatype Result<+R, +E> = Success(value: R) | Failure(error: E)

  /** A point in time (a JavaScript Date), in milliseconds since the epoch. */
  type Timestamp = nat

  /** A mongoose `required` String path: present and non-empty. */
  predicate IsPresent(s: Option<string>)
  {
    s.Some? && s.value != ""
  }

  /** `s` occurs in `t` in the same order, possibly with gaps. */
  predicate IsSubsequence<T(==)>(s: seq<T>, t: seq<T>)
    decreases |t|
  {
    if s == [] then true
    else if t == [] then false
    else if s[0] == t[0] then IsSubsequence(s[1..], t[1..])
    else IsSubsequence(s, t[1..])
  }

  /** Array.prototype.filter: the elements of `s` satisfying `p`, in order. */
  function Filter<T(!new)>(s: seq<T>, p: T -> bool): (r: seq<T>)
    ensures forall x :: x in r <==> x in s && p(x)
    ensures forall x :: multiset(r)[x] == if p(x) then multiset(s)[x] else 0
    ensures IsSubsequence(r, s)
  {
    if s == [] then []
    else
      var rest := Filter(s[1..], p);
      assert s == [s[0]] + s[1..];
      if p(s[0]) then [s[0]] + rest else rest
  }

  /** Index of the first element of `s` satisfying `p` (Array.prototype.find). */
  function FirstWhere<T>(s: seq<T>, p: T -> bool): (r: Option<nat>)
    ensures r.Some? ==> r.value < |s| && p(s[r.value])
    ensures r.Some? ==> forall j :: 0 <= j < r.value ==> !p(s[j])
    ensures r.None? ==> forall j :: 0 <= j < |s| ==> !p(s[j])
  {
    if s == [] then None
    else if p(s[0]) then Some(0)
    else match FirstWhere(s[1..], p)
      case None => None
      case Some(i) => Some(i + 1)
  }
}
