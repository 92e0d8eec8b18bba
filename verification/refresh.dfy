/**
 * The replay a Refreshed event triggers: every tracked requestor that is
 * still valid gets `resolveArguments(false)` and then `execute()`,
 * in list order; invalid requestors are skipped. The loop catches
 * nothing: the first call that throws ends the replay.
 */
module Refresh {
  import opened Values

  /** The calls made on one requestor during a replay. */
  function Step(r: Requestor, isValid: Requestor -> bool): seq<Effect> {
    if isValid(r) then [ResolveArguments(r, false), Execute(r)] else []
  }

  /** How many requestors of `rs` are valid. */
  function CountValid(rs: seq<Requestor>, isValid: Requestor -> bool): nat {
    if rs == [] then 0
    else CountValid(rs[..|rs| - 1], isValid) + (if isValid(rs[|rs| - 1]) then 1 else 0)
  }

  /** The calls a replay over `rs` makes, in order. */
  function Replay(rs: seq<Requestor>, isValid: Requestor -> bool): (calls: seq<Effect>)
    ensures |calls| == 2 * CountValid(rs, isValid)
  {
    if rs == [] then []
    else Replay(rs[..|rs| - 1], isValid) + Step(rs[|rs| - 1], isValid)
  }

  /** A replay calls only `resolveArguments` and `execute`, and only on tracked requestors that are valid. */
  lemma {:induction false} ReplayCallsAreValid(rs: seq<Requestor>, isValid: Requestor -> bool)
    ensures forall e :: e in Replay(rs, isValid) ==> (e.ResolveArguments? || e.Execute?) && e.requestor in rs && isValid(e.requestor)
  {
    if rs != [] {
      var init := rs[..|rs| - 1];
      ReplayCallsAreValid(init, isValid);
      assert forall r :: r in init ==> r in rs;
    }
  }

  /**
   * The k-th requestor, when valid, gets `resolveArguments(false)` and
   * right after it `execute()`, after the calls for every valid requestor
   * before it.
   */
  lemma {:induction false} ReplayAt(rs: seq<Requestor>, isValid: Requestor -> bool, k: nat)
    requires k < |rs| && isValid(rs[k])
    ensures 2 * CountValid(rs[..k], isValid) + 1 < |Replay(rs, isValid)|
    ensures Replay(rs, isValid)[2 * CountValid(rs[..k], isValid)] == ResolveArguments(rs[k], false)
    ensures Replay(rs, isValid)[2 * CountValid(rs[..k], isValid) + 1] == Execute(rs[k])
  {
    var init := rs[..|rs| - 1];
    if k < |rs| - 1 {
      assert init[..k] == rs[..k];
      ReplayAt(init, isValid, k);
    } else {
      assert init == rs[..k];
    }
  }

  /** A requestor that is invalid at replay time, or not tracked, takes part in no call. */
  lemma ReplaySkips(rs: seq<Requestor>, isValid: Requestor -> bool, r: Requestor)
    requires !isValid(r) || r !in rs
    ensures forall e :: e in Replay(rs, isValid) ==> (e.ResolveArguments? || e.Execute?) && e.requestor != r
  {
    ReplayCallsAreValid(rs, isValid);
  }

  /** The replay over a prefix of the list is a prefix of the replay over the whole list. */
  lemma {:induction false} ReplayPrefix(rs: seq<Requestor>, isValid: Requestor -> bool, i: nat)
    requires i <= |rs|
    ensures Replay(rs[..i], isValid) <= Replay(rs, isValid)
  {
    if i < |rs| {
      var init := rs[..|rs| - 1];
      assert init[..i] == rs[..i];
      ReplayPrefix(init, isValid, i);
    } else {
      assert rs[..i] == rs;
    }
  }

  /** The position of the first call in `calls` that throws; `|calls|` when none does. */
  function FirstThrowing(calls: seq<Effect>, throws: Effect -> bool): (k: nat)
    ensures k <= |calls|
    ensures forall j :: 0 <= j < k ==> !throws(calls[j])
    ensures k < |calls| ==> throws(calls[k])
  {
    if calls == [] then 0
    else if throws(calls[0]) then 0
    else
      var k := 1 + FirstThrowing(calls[1..], throws);
      assert forall j :: 1 <= j < k ==> calls[j] == calls[1..][j - 1];
      k
  }

  /** Some call of the replay over `rs` throws, so the replay ends early and the exception propagates. */
  predicate Aborts(rs: seq<Requestor>, isValid: Requestor -> bool, throws: Effect -> bool) {
    FirstThrowing(Replay(rs, isValid), throws) < |Replay(rs, isValid)|
  }

  /** The calls the replay over `rs` actually makes: all of them, or up to and including the first that throws. */
  function Attempted(rs: seq<Requestor>, isValid: Requestor -> bool, throws: Effect -> bool): (calls: seq<Effect>)
    ensures calls <= Replay(rs, isValid)
    ensures forall j :: 0 <= j < |calls| - 1 ==> !throws(calls[j])
    ensures Aborts(rs, isValid, throws) ==> calls != [] && throws(calls[|calls| - 1])
    ensures !Aborts(rs, isValid, throws) ==> calls == Replay(rs, isValid) && forall e :: e in calls ==> !throws(e)
  {
    var all := Replay(rs, isValid);
    var k := FirstThrowing(all, throws);
    if k < |all| then all[..k + 1] else all
  }

  /** Extending the list by one requestor extends the replay by that requestor's calls. */
  lemma ReplayExtend(rs: seq<Requestor>, isValid: Requestor -> bool, i: nat)
    requires i < |rs|
    ensures Replay(rs[..i + 1], isValid) == Replay(rs[..i], isValid) + Step(rs[i], isValid)
  {
    assert rs[..i + 1][..i] == rs[..i];
  }

  /** A replay none of whose calls throws runs to the end. */
  lemma CompletesWithoutThrow(rs: seq<Requestor>, isValid: Requestor -> bool, throws: Effect -> bool)
    requires FirstThrowing(Replay(rs, isValid), throws) == |Replay(rs, isValid)|
    ensures !Aborts(rs, isValid, throws)
    ensures Attempted(rs, isValid, throws) == Replay(rs, isValid)
  {
  }

  /** Calls appended after a run of calls that do not throw are searched from where that run ends. */
  lemma {:induction false} FirstThrowingAppend(a: seq<Effect>, b: seq<Effect>, throws: Effect -> bool)
    requires FirstThrowing(a, throws) == |a|
    ensures FirstThrowing(a + b, throws) == |a| + FirstThrowing(b, throws)
  {
    if a != [] {
      assert !throws(a[0]) && (a + b)[0] == a[0];
      assert (a + b)[1..] == a[1..] + b;
      FirstThrowingAppend(a[1..], b, throws);
    } else {
      assert a + b == b;
    }
  }

  /** A replay that has not thrown so far, extended by a requestor none of whose calls throws, still has not thrown. */
  lemma NoThrowExtend(rs: seq<Requestor>, isValid: Requestor -> bool, throws: Effect -> bool, i: nat)
    requires i < |rs|
    requires FirstThrowing(Replay(rs[..i], isValid), throws) == |Replay(rs[..i], isValid)|
    requires isValid(rs[i]) ==> !throws(ResolveArguments(rs[i], false)) && !throws(Execute(rs[i]))
    ensures FirstThrowing(Replay(rs[..i + 1], isValid), throws) == |Replay(rs[..i + 1], isValid)|
  {
    ReplayExtend(rs, isValid, i);
    var step := Step(rs[i], isValid);
    FirstThrowingAppend(Replay(rs[..i], isValid), step, throws);
    if isValid(rs[i]) {
      assert step[1..][1..] == [];
    }
  }

  /**
   * If `all` starts with calls that do not throw, followed by a call that
   * throws, that call is the first throwing one.
   */
  lemma FirstThrowingAfter(all: seq<Effect>, done: seq<Effect>, step: seq<Effect>, throws: Effect -> bool, n: nat)
    requires done + step <= all && 1 <= n <= |step|
    requires FirstThrowing(done, throws) == |done|
    requires forall j :: 0 <= j < n - 1 ==> !throws(step[j])
    requires throws(step[n - 1])
    ensures FirstThrowing(all, throws) == |done| + n - 1
    ensures all[..|done| + n] == done + step[..n]
  {
    var k := |done| + n - 1;
    forall j | 0 <= j < k ensures !throws(all[j]) {
      if j < |done| {
        assert all[j] == done[j];
      } else {
        assert all[j] == step[j - |done|];
      }
    }
    assert all[k] == step[n - 1];
    var f := FirstThrowing(all, throws);
    assert f == k;
    assert all[..k + 1] == done + step[..n];
  }

  /**
   * When the replay has made every call for the requestors before `i`
   * without an exception, and the `n`-th call on requestor `i` throws,
   * the replay aborts right after that call.
   */
  lemma StopsAt(rs: seq<Requestor>, isValid: Requestor -> bool, throws: Effect -> bool, i: nat, n: nat)
    requires i < |rs| && isValid(rs[i]) && 1 <= n <= 2
    requires FirstThrowing(Replay(rs[..i], isValid), throws) == |Replay(rs[..i], isValid)|
    requires forall j :: 0 <= j < n - 1 ==> !throws(Step(rs[i], isValid)[j])
    requires throws(Step(rs[i], isValid)[n - 1])
    ensures Aborts(rs, isValid, throws)
    ensures Attempted(rs, isValid, throws) == Replay(rs[..i], isValid) + Step(rs[i], isValid)[..n]
  {
    ReplayPrefix(rs, isValid, i + 1);
    assert rs[..i + 1][..i] == rs[..i];
    assert Replay(rs[..i + 1], isValid) == Replay(rs[..i], isValid) + Step(rs[i], isValid);
    FirstThrowingAfter(Replay(rs, isValid), Replay(rs[..i], isValid), Step(rs[i], isValid), throws, n);
  }
}
