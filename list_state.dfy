/** How the front-end components keep their cached arrays up to date: `findIndex` followed by an
    index assignment on update, `push` on add, `filter` on delete; and what a submit sends. */
module ListState {

  /** What submitting a form sends: an update of the entity with the given id, or an addition. */
  datatype Request<T> = UpdateRequest(id: int, payload: T) | AddRequest(payload: T)

  /** `findIndex`: the index of the first element satisfying `p`, or -1 when there is none. */
  function FindIndex<T>(s: seq<T>, p: T -> bool): (i: int)
    ensures -1 <= i < |s|
    ensures i == -1 <==> forall k :: 0 <= k < |s| ==> !p(s[k])
    ensures i >= 0 ==> p(s[i]) && forall k :: 0 <= k < i ==> !p(s[k])
    decreases |s|
  {
    if s == [] then -1
    else if p(s[0]) then 0
    else
      var i := FindIndex(s[1..], p);
      assert forall k :: 1 <= k < |s| ==> s[k] == s[1..][k - 1];
      if i == -1 then -1 else i + 1
  }

  /** The update callback's effect on the array: the first element satisfying `p` becomes `x`;
      when no element does, the array is left as it is. */
  function ReplaceFirst<T>(s: seq<T>, p: T -> bool, x: T): (r: seq<T>)
    ensures |r| == |s|
    ensures (forall k :: 0 <= k < |s| ==> !p(s[k])) ==> r == s
    ensures forall k :: 0 <= k < |s| && p(s[k]) ==>
      exists i :: 0 <= i <= k && p(s[i]) && r[i] == x && r[..i] == s[..i] && r[i + 1..] == s[i + 1..]
  {
    var i := FindIndex(s, p);
    if i == -1 then s
    else
      var r := s[i := x];
      assert r[..i] == s[..i] && r[i + 1..] == s[i + 1..];
      r
  }

  /** `filter(e => !p(e))`: the elements that do not satisfy `p`, in their order. */
  function Remove<T>(s: seq<T>, p: T -> bool): (r: seq<T>)
    ensures |r| <= |s|
    ensures forall k :: 0 <= k < |r| ==> !p(r[k])
    ensures forall k :: 0 <= k < |r| ==> r[k] in s
    ensures forall k :: 0 <= k < |s| && !p(s[k]) ==> s[k] in r
    decreases |s|
  {
    if s == [] then []
    else
      var rest := Remove(s[1..], p);
      assert forall k :: 1 <= k < |s| ==> s[k] == s[1..][k - 1];
      if p(s[0]) then rest else [s[0]] + rest
  }

  /** Filtering a concatenation filters each part: the kept elements stay in their order. */
  lemma {:induction false} RemoveAppend<T>(a: seq<T>, b: seq<T>, p: T -> bool)
    ensures Remove(a + b, p) == Remove(a, p) + Remove(b, p)
    decreases |a|
  {
    if a == [] {
      assert a + b == b;
    } else {
      assert (a + b)[1..] == a[1..] + b;
      RemoveAppend(a[1..], b, p);
    }
  }

  /** A sequence with nothing to remove is kept whole. */
  lemma {:induction false} RemoveNothing<T>(s: seq<T>, p: T -> bool)
    requires forall k :: 0 <= k < |s| ==> !p(s[k])
    ensures Remove(s, p) == s
    decreases |s|
  {
    if s != [] {
      RemoveNothing(s[1..], p);
    }
  }

  /** Deleting twice is deleting once. */
  lemma {:induction false} RemoveIdempotent<T>(s: seq<T>, p: T -> bool)
    ensures Remove(Remove(s, p), p) == Remove(s, p)
  {
    RemoveNothing(Remove(s, p), p);
  }

  /** Deleting an entity just added gives back the array without that id: the push is undone. */
  lemma {:induction false} RemoveAfterPush<T>(s: seq<T>, x: T, p: T -> bool)
    requires p(x)
    ensures Remove(s + [x], p) == Remove(s, p)
  {
    RemoveAppend(s, [x], p);
    assert Remove([x], p) == [];
  }
}
