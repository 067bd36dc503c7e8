/**
 * The OP_CHECKMULTISIG rule: signatures consume keys in script order, one distinct
 * key each. The scan is greedy; the specification is the existence of any strictly
 * increasing assignment of signatures to keys. `valid` is any relation whatsoever.
 */
module Multisig {
  import opened Wrappers

  /** `chosen[i]` is the key position that signature `i` consumes. */
  ghost predicate Increasing(chosen: seq<nat>) {
    forall i, j :: 0 <= i < j < |chosen| ==> chosen[i] < chosen[j]
  }

  ghost predicate IsAssignment<K, S>(keys: seq<K>, from: nat, sigs: seq<S>, valid: (K, S) -> bool, chosen: seq<nat>) {
    && |chosen| == |sigs|
    && Increasing(chosen)
    && forall i :: 0 <= i < |chosen| ==> from <= chosen[i] < |keys| && valid(keys[chosen[i]], sigs[i])
  }

  /** `remaining.find(..)`: the first key at or after `from` that accepts the signature. */
  function FindFrom<K, S>(keys: seq<K>, from: nat, sig: S, valid: (K, S) -> bool): (r: Option<nat>)
    ensures r.Some? ==>
      && from <= r.value < |keys|
      && valid(keys[r.value], sig)
      && forall i :: from <= i < r.value ==> !valid(keys[i], sig)
    ensures r.None? ==> forall i :: from <= i < |keys| ==> !valid(keys[i], sig)
    decreases |keys| - from
  {
    if from >= |keys| then None
    else if valid(keys[from], sig) then Some(from)
    else FindFrom(keys, from + 1, sig, valid)
  }

  /** The greedy choice for every signature, scanning only keys not yet consumed. */
  function Greedy<K, S>(keys: seq<K>, from: nat, sigs: seq<S>, valid: (K, S) -> bool): (r: Option<seq<nat>>)
    ensures r.Some? ==> IsAssignment(keys, from, sigs, valid, r.value)
    decreases |sigs|
  {
    if sigs == [] then Some([])
    else
      match FindFrom(keys, from, sigs[0], valid)
      case None => None
      case Some(first) =>
        match Greedy(keys, first + 1, sigs[1..], valid)
        case None => None
        case Some(rest) => Some([first] + rest)
  }

  /** Exchange argument: the greedy scan is never behind another assignment. */
  lemma {:induction false} GreedyComplete<K, S>(
      keys: seq<K>, from: nat, sigs: seq<S>, valid: (K, S) -> bool, other: seq<nat>)
    requires IsAssignment(keys, from, sigs, valid, other)
    ensures Greedy(keys, from, sigs, valid).Some?
    ensures forall i :: 0 <= i < |sigs| ==> Greedy(keys, from, sigs, valid).value[i] <= other[i]
    decreases |sigs|
  {
    if sigs != [] {
      var first := FindFrom(keys, from, sigs[0], valid);
      assert valid(keys[other[0]], sigs[0]);
      TailIsAssignment(keys, from, sigs, valid, other, first.value);
      hide IsAssignment;
      GreedyComplete(keys, first.value + 1, sigs[1..], valid, other[1..]);
    }
  }

  lemma TailIsAssignment<K, S>(
      keys: seq<K>, from: nat, sigs: seq<S>, valid: (K, S) -> bool, chosen: seq<nat>, first: nat)
    requires IsAssignment(keys, from, sigs, valid, chosen) && sigs != [] && first <= chosen[0]
    ensures IsAssignment(keys, first + 1, sigs[1..], valid, chosen[1..])
  {
    var tail := chosen[1..];
    forall i | 0 <= i < |tail|
      ensures first + 1 <= tail[i] < |keys| && valid(keys[tail[i]], sigs[1..][i])
    {
      assert chosen[0] < chosen[i + 1];
    }
  }

  /** Some strictly increasing assignment of the signatures to the keys is valid. */
  ghost predicate Matchable<K, S>(keys: seq<K>, sigs: seq<S>, valid: (K, S) -> bool) {
    exists chosen :: IsAssignment(keys, 0, sigs, valid, chosen)
  }

  /** A k-signature witness passes the scan exactly when some increasing assignment is valid. */
  lemma GreedyIsExact<K, S>(keys: seq<K>, sigs: seq<S>, valid: (K, S) -> bool)
    ensures Greedy(keys, 0, sigs, valid).Some? <==> Matchable(keys, sigs, valid)
  {
    forall chosen | IsAssignment(keys, 0, sigs, valid, chosen)
      ensures Greedy(keys, 0, sigs, valid).Some?
    {
      GreedyComplete(keys, 0, sigs, valid, chosen);
    }
  }

  /** The first `n` signatures, each recorded under the key that its choice consumed. */
  function Recorded<K(==), S>(keys: seq<K>, sigs: seq<S>, chosen: seq<nat>, n: nat): (m: map<K, S>)
    requires n <= |chosen| == |sigs|
    requires forall i :: 0 <= i < |chosen| ==> chosen[i] < |keys|
  {
    if n == 0 then map[]
    else Recorded(keys, sigs, chosen, n - 1)[keys[chosen[n - 1]] := sigs[n - 1]]
  }

  ghost predicate Distinct<K>(keys: seq<K>) {
    forall i, j :: 0 <= i < j < |keys| ==> keys[i] != keys[j]
  }

  /** With distinct keys every signature is recorded under a key of its own, and nothing else is. */
  lemma {:induction false} RecordedExact<K, S>(keys: seq<K>, sigs: seq<S>, valid: (K, S) -> bool, chosen: seq<nat>, n: nat)
    requires Distinct(keys)
    requires IsAssignment(keys, 0, sigs, valid, chosen)
    requires n <= |sigs|
    ensures |Recorded(keys, sigs, chosen, n)| == n
    ensures forall i :: 0 <= i < n ==> keys[chosen[i]] in Recorded(keys, sigs, chosen, n)
    ensures forall i :: 0 <= i < n ==> Recorded(keys, sigs, chosen, n)[keys[chosen[i]]] == sigs[i]
    ensures forall key :: key in Recorded(keys, sigs, chosen, n) ==>
      exists i :: 0 <= i < n && keys[chosen[i]] == key
  {
    if n > 0 {
      RecordedExact(keys, sigs, valid, chosen, n - 1);
      forall i | 0 <= i < n - 1
        ensures keys[chosen[i]] != keys[chosen[n - 1]]
      {
        assert chosen[i] < chosen[n - 1];
      }
    }
  }

  /**
   * The loop of the witness check: `next` only advances, and every signature is
   * recorded under the key that accepted it.
   */
  method MatchWitness<K(==), S(==)>(keys: seq<K>, sigs: seq<S>, valid: (K, S) -> bool)
    returns (r: Option<map<K, S>>)
    ensures r.Some? <==> Matchable(keys, sigs, valid)
    ensures r.Some? <==> Greedy(keys, 0, sigs, valid).Some?
    ensures r.Some? ==> r.value == Recorded(keys, sigs, Greedy(keys, 0, sigs, valid).value, |sigs|)
  {
    GreedyIsExact(keys, sigs, valid);
    ghost var whole := Greedy(keys, 0, sigs, valid);
    assert whole.Some? ==> |whole.value| == |sigs| && forall i :: 0 <= i < |sigs| ==> whole.value[i] < |keys|;
    hide IsAssignment, Greedy, Recorded, Follows, Matchable;
    assert Follows(keys, sigs, valid, whole, 0, 0) by { FollowsFirst(keys, sigs, valid, whole); }
    var next: nat, signatures := 0, map[];
    RecordedNone(keys, sigs, whole);
    for i := 0 to |sigs|
      invariant Follows(keys, sigs, valid, whole, i, next)
      invariant whole.Some? ==> signatures == Recorded(keys, sigs, whole.value, i)
    {
      var found := FindFrom(keys, next, sigs[i], valid);
      FollowsNext(keys, sigs, valid, whole, i, next);
      if found.None? {
        return None;
      }
      if whole.Some? {
        RecordedNext(keys, sigs, whole.value, i);
      }
      signatures := signatures[keys[found.value] := sigs[i]];
      next := found.value + 1;
    }
    FollowsAll(keys, sigs, valid, whole, next);
    r := Some(signatures);
  }

  /** The scan from `next` over the remaining signatures agrees with the scan over all of them. */
  ghost predicate Follows<K, S>(keys: seq<K>, sigs: seq<S>, valid: (K, S) -> bool, whole: Option<seq<nat>>, i: nat, next: nat) {
    && i <= |sigs|
    && (whole.Some? <==> Greedy(keys, next, sigs[i..], valid).Some?)
    && (whole.Some? ==> |whole.value| == |sigs| && whole.value[i..] == Greedy(keys, next, sigs[i..], valid).value)
  }

  lemma FollowsFirst<K, S>(keys: seq<K>, sigs: seq<S>, valid: (K, S) -> bool, whole: Option<seq<nat>>)
    requires whole == Greedy(keys, 0, sigs, valid)
    ensures Follows(keys, sigs, valid, whole, 0, 0)
  {
    hide Greedy;
    assert sigs[0..] == sigs;
    assert whole.Some? ==> whole.value[0..] == whole.value;
  }

  lemma FollowsNext<K, S>(keys: seq<K>, sigs: seq<S>, valid: (K, S) -> bool, whole: Option<seq<nat>>, i: nat, next: nat)
    requires i < |sigs| && Follows(keys, sigs, valid, whole, i, next)
    ensures var found := FindFrom(keys, next, sigs[i], valid);
      if found.None? then whole.None?
      else
        && Follows(keys, sigs, valid, whole, i + 1, found.value + 1)
        && (whole.Some? ==> whole.value[i] == found.value)
  {
    hide IsAssignment, Greedy;
    GreedyStep(keys, next, sigs[i..], valid);
    assert sigs[i..][1..] == sigs[i + 1..];
    assert whole.Some? ==> whole.value[i..][1..] == whole.value[i + 1..];
  }

  lemma FollowsAll<K, S>(keys: seq<K>, sigs: seq<S>, valid: (K, S) -> bool, whole: Option<seq<nat>>, next: nat)
    requires Follows(keys, sigs, valid, whole, |sigs|, next)
    ensures whole.Some?
  {
    assert sigs[|sigs|..] == [];
  }

  lemma RecordedNone<K, S>(keys: seq<K>, sigs: seq<S>, whole: Option<seq<nat>>)
    requires whole.Some? ==> |whole.value| == |sigs| && forall i :: 0 <= i < |sigs| ==> whole.value[i] < |keys|
    ensures whole.Some? ==> Recorded(keys, sigs, whole.value, 0) == map[]
  {
  }

  lemma RecordedNext<K, S>(keys: seq<K>, sigs: seq<S>, chosen: seq<nat>, n: nat)
    requires n < |chosen| == |sigs| && forall i :: 0 <= i < |chosen| ==> chosen[i] < |keys|
    ensures Recorded(keys, sigs, chosen, n + 1) == Recorded(keys, sigs, chosen, n)[keys[chosen[n]] := sigs[n]]
  {
  }

  lemma GreedyStep<K, S>(keys: seq<K>, from: nat, sigs: seq<S>, valid: (K, S) -> bool)
    requires sigs != []
    ensures match FindFrom(keys, from, sigs[0], valid)
      case None => Greedy(keys, from, sigs, valid).None?
      case Some(first) =>
        match Greedy(keys, first + 1, sigs[1..], valid)
        case None => Greedy(keys, from, sigs, valid).None?
        case Some(rest) => Greedy(keys, from, sigs, valid) == Some([first] + rest)
  {
    hide IsAssignment;
  }
}
