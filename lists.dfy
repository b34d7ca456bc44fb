/** Replacing a record in a client-side list by its `_id`:
    `list.map(x => x._id === updated._id ? updated : x)`. */
module Lists {

  /** Every element whose id is `x`'s id becomes `x`; the others stay as they are. */
  function ReplaceById<T>(s: seq<T>, x: T, id: T -> string): (r: seq<T>)
    ensures |r| == |s|
    ensures forall i :: 0 <= i < |s| ==> r[i] == (if id(s[i]) == id(x) then x else s[i])
  {
    seq(|s|, i requires 0 <= i < |s| => if id(s[i]) == id(x) then x else s[i])
  }

  /** Replacement keeps every position's id, so the list keeps its order of records. */
  lemma ReplaceKeepsIds<T>(s: seq<T>, x: T, id: T -> string)
    ensures forall i :: 0 <= i < |s| ==> id(ReplaceById(s, x, id)[i]) == id(s[i])
  {
  }

  /** Replacing twice with the same record is replacing once. */
  lemma ReplaceIdempotent<T>(s: seq<T>, x: T, id: T -> string)
    ensures ReplaceById(ReplaceById(s, x, id), x, id) == ReplaceById(s, x, id)
  {
    var r := ReplaceById(s, x, id);
    var rr := ReplaceById(r, x, id);
    assert forall i :: 0 <= i < |s| ==> rr[i] == r[i];
  }

  /** A record whose id is not in the list changes nothing. */
  lemma ReplaceAbsent<T>(s: seq<T>, x: T, id: T -> string)
    requires forall i :: 0 <= i < |s| ==> id(s[i]) != id(x)
    ensures ReplaceById(s, x, id) == s
  {
  }

  /** After the replacement, every element carrying `x`'s id is `x`. */
  lemma ReplaceInstalls<T>(s: seq<T>, x: T, id: T -> string)
    ensures forall y :: y in ReplaceById(s, x, id) && id(y) == id(x) ==> y == x
  {
  }
}
