/** The stock Option type, used for "found at index k" or "not found". */
module Wrappers {
  datatype Option<+T> = None | Some(value: T)
}

/** Sequence facts behind the registry's list operations: the first-match
    search by identifier, removal at one position, and how often one entry
    occurs in the list. */
module Registry {
  import opened Wrappers

  /** The position of the first `id` in `ids`, or None when it is absent. */
  function FirstIndexOf(ids: seq<string>, id: string): (r: Option<nat>)
    ensures r.None? <==> id !in ids
    ensures r.Some? ==> r.value < |ids| && ids[r.value] == id
    ensures r.Some? ==> forall k :: 0 <= k < r.value ==> ids[k] != id
  {
    if ids == [] then None
    else if ids[0] == id then Some(0)
    else
      match FirstIndexOf(ids[1..], id)
      case None => None
      case Some(k) => Some(k + 1)
  }

  /** `s` without its entry at position `k`; the others keep their order. */
  function RemoveAt<T>(s: seq<T>, k: nat): (r: seq<T>)
    requires k < |s|
    ensures |r| == |s| - 1
    ensures forall m :: 0 <= m < k ==> r[m] == s[m]
    ensures forall m :: k <= m < |r| ==> r[m] == s[m + 1]
    ensures multiset(r) + multiset{s[k]} == multiset(s)
  {
    assert s == s[..k] + [s[k]] + s[k + 1..];
    s[..k] + s[k + 1..]
  }

  /** Extending a prefix by one entry adds one occurrence of that entry and
      none of any other. */
  lemma CountStep<T>(s: seq<T>, i: nat, c: T)
    requires i < |s|
    ensures multiset(s[..i + 1])[c] == multiset(s[..i])[c] + (if c == s[i] then 1 else 0)
  {
    assert s[..i + 1] == s[..i] + [s[i]];
  }

  /** No entry occurs twice. */
  ghost predicate Distinct<T>(s: seq<T>)
  {
    forall a, b :: 0 <= a < b < |s| ==> s[a] != s[b]
  }

  /** In a list without repeats every entry occurs exactly once. */
  lemma {:induction false} OccursOnce<T>(s: seq<T>, k: nat)
    requires Distinct(s) && k < |s|
    ensures multiset(s)[s[k]] == 1
  {
    if k == |s| - 1 {
      var front := s[..k];
      assert s == front + [s[k]];
      assert s[k] !in front;
      assert multiset(front)[s[k]] == 0;
    } else {
      var init := s[..|s| - 1];
      assert s == init + [s[|s| - 1]];
      assert init[k] == s[k];
      OccursOnce(init, k);
      assert s[|s| - 1] != s[k];
    }
  }
}
