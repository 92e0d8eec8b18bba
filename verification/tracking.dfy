/**
 * Bookkeeping of `trackedRequestorsForBundle`: for each bundle symbolic
 * name, the requestors that asked to be re-injected, in the order they
 * asked. A bundle whose list becomes empty loses its entry.
 */
module Tracking {
  import opened Values

  /** Scope (bundle symbolic name) to its tracked requestors. */
  type TrackedMap = map<string, seq<Requestor>>

  /** The requestors tracked for `scope`; empty when the scope has no entry. */
  function RequestorsFor(tracked: TrackedMap, scope: string): seq<Requestor> {
    if scope in tracked then tracked[scope] else []
  }

  /** No scope is kept with an empty list. */
  ghost predicate NoEmptyLists(tracked: TrackedMap) {
    forall s :: s in tracked ==> tracked[s] != []
  }

  /** `List.remove(Object)`: `list` without the first occurrence of `r`, if any. */
  function RemoveFirst(list: seq<Requestor>, r: Requestor): (result: seq<Requestor>)
    ensures r !in list ==> result == list
    ensures r in list ==> |result| == |list| - 1
    ensures multiset(result) == multiset(list) - multiset{r}
  {
    if list == [] then []
    else if list[0] == r then
      assert list == [r] + list[1..];
      list[1..]
    else
      assert list == [list[0]] + list[1..];
      [list[0]] + RemoveFirst(list[1..], r)
  }

  /** Removing `r` cuts the list exactly at the first position that holds `r`. */
  lemma {:induction false} RemoveFirstAt(list: seq<Requestor>, r: Requestor, k: nat)
    requires k < |list| && list[k] == r && r !in list[..k]
    ensures RemoveFirst(list, r) == list[..k] + list[k + 1..]
  {
    if k > 0 {
      assert list[0] == list[..k][0];
      assert list[1..][..k - 1] == list[1..k];
      assert list[..k] == [list[0]] + list[1..k];
      RemoveFirstAt(list[1..], r, k - 1);
      assert list[1..][k..] == list[k + 1..];
    }
  }

  /** Removing a requestor that was just appended, and not there before, restores the list. */
  lemma {:induction false} RemoveFirstOfAppended(list: seq<Requestor>, r: Requestor)
    requires r !in list
    ensures RemoveFirst(list + [r], r) == list
  {
    if list != [] {
      assert (list + [r])[1..] == list[1..] + [r];
      RemoveFirstOfAppended(list[1..], r);
    }
  }

  /** `setUpTracking(scope, r, true)`: append `r` to the scope's list, creating the list if absent. */
  function Track(tracked: TrackedMap, scope: string, r: Requestor): (result: TrackedMap)
    ensures result.Keys == tracked.Keys + {scope}
    ensures RequestorsFor(result, scope) == RequestorsFor(tracked, scope) + [r]
    ensures scope !in tracked ==> result[scope] == [r]
    ensures forall s :: s != scope ==> RequestorsFor(result, s) == RequestorsFor(tracked, s)
    ensures NoEmptyLists(tracked) ==> NoEmptyLists(result)
  {
    tracked[scope := RequestorsFor(tracked, scope) + [r]]
  }

  /**
   * `setUpTracking(scope, r, false)`: remove the first occurrence of `r`
   * from the scope's list and drop the scope once its list is empty.
   */
  function Untrack(tracked: TrackedMap, scope: string, r: Requestor): (result: TrackedMap)
    ensures scope !in tracked ==> result == tracked
    ensures RequestorsFor(result, scope) == RemoveFirst(RequestorsFor(tracked, scope), r)
    ensures scope in result <==> RemoveFirst(RequestorsFor(tracked, scope), r) != []
    ensures forall s :: s != scope ==> (s in result <==> s in tracked)
    ensures forall s :: s != scope ==> RequestorsFor(result, s) == RequestorsFor(tracked, s)
    ensures NoEmptyLists(tracked) ==> NoEmptyLists(result)
  {
    if scope !in tracked then tracked
    else
      var rest := RemoveFirst(tracked[scope], r);
      if rest == [] then tracked - {scope} else tracked[scope := rest]
  }

  /** Tracking a requestor and untracking it again leaves the tracked map as it was. */
  lemma TrackThenUntrack(tracked: TrackedMap, scope: string, r: Requestor)
    requires NoEmptyLists(tracked)
    requires r !in RequestorsFor(tracked, scope)
    ensures Untrack(Track(tracked, scope, r), scope, r) == tracked
  {
    var list := RequestorsFor(tracked, scope);
    RemoveFirstOfAppended(list, r);
    UntrackAppended(tracked, scope, list, r);
  }

  /** Untracking `r` from a scope whose list had `r` appended, where removal gives back `list`, restores the map. */
  lemma UntrackAppended(tracked: TrackedMap, scope: string, list: seq<Requestor>, r: Requestor)
    requires list == RequestorsFor(tracked, scope)
    requires scope in tracked ==> list != []
    requires RemoveFirst(list + [r], r) == list
    ensures Untrack(tracked[scope := list + [r]], scope, r) == tracked
  {
  }

  /** A requestor tracked once for a scope is no longer tracked there after untracking it. */
  lemma UntrackLastOccurrence(tracked: TrackedMap, scope: string, r: Requestor)
    requires multiset(RequestorsFor(tracked, scope))[r] == 1
    ensures r !in RequestorsFor(Untrack(tracked, scope, r), scope)
  {
  }
}
