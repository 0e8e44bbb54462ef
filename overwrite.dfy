/**
 * Maps filled by a loop of assignments `m[ks[i]] = vs[i]` (a `std::map`
 * `operator[]` store, or libMesh's `nodeset_name(id) = name` and
 * `subdomain_name(id) = name`): a later assignment to the same key replaces
 * an earlier one.
 */
module Overwrite {

  function Elements<T>(s: seq<T>): set<T> { set x | x in s }

  /** `m` after `m[ks[0]] = vs[0]; ...; m[ks[n-1]] = vs[n-1]`. */
  function Assign<K, V>(m: map<K, V>, ks: seq<K>, vs: seq<V>): map<K, V>
    requires |ks| == |vs|
  {
    if ks == [] then m
    else Assign(m, ks[..|ks| - 1], vs[..|vs| - 1])[ks[|ks| - 1] := vs[|vs| - 1]]
  }

  /** One more assignment, `m[k] = vs[|ks|]`, after the first `|ks|` ones. */
  lemma AssignStep<K, V>(m: map<K, V>, ks: seq<K>, vs: seq<V>, k: K)
    requires |ks| < |vs|
    ensures Assign(m, ks + [k], vs[..|ks| + 1]) == Assign(m, ks, vs[..|ks|])[k := vs[|ks|]]
  {
    assert (ks + [k])[..|ks|] == ks && vs[..|ks| + 1][..|ks|] == vs[..|ks|];
  }

  /** `j` is the position of the last occurrence of `ks[j]` in `ks`. */
  ghost predicate IsLast<K>(ks: seq<K>, j: nat)
  {
    j < |ks| && forall k :: j < k < |ks| ==> ks[k] != ks[j]
  }

  ghost predicate Distinct<K>(ks: seq<K>)
  {
    forall i, j :: 0 <= i < j < |ks| ==> ks[i] != ks[j]
  }

  /** The keys are the old keys and every assigned key. */
  lemma {:induction false} AssignKeys<K, V>(m: map<K, V>, ks: seq<K>, vs: seq<V>)
    requires |ks| == |vs|
    ensures Assign(m, ks, vs).Keys == m.Keys + Elements(ks)
  {
    if ks != [] {
      var n := |ks| - 1;
      AssignKeys(m, ks[..n], vs[..n]);
      assert ks == ks[..n] + [ks[n]];
      assert Elements(ks) == Elements(ks[..n]) + {ks[n]};
    }
  }

  /** A key that is never assigned keeps its old value. */
  lemma {:induction false} AssignUntouched<K, V>(m: map<K, V>, ks: seq<K>, vs: seq<V>, x: K)
    requires |ks| == |vs| && x in m && x !in ks
    ensures x in Assign(m, ks, vs) && Assign(m, ks, vs)[x] == m[x]
  {
    if ks != [] {
      var n := |ks| - 1;
      assert ks == ks[..n] + [ks[n]];
      AssignUntouched(m, ks[..n], vs[..n], x);
    }
  }

  /** Every assigned key holds the value of its last assignment. */
  lemma {:induction false} AssignLastWins<K, V>(m: map<K, V>, ks: seq<K>, vs: seq<V>, j: nat)
    requires |ks| == |vs| && IsLast(ks, j)
    ensures ks[j] in Assign(m, ks, vs) && Assign(m, ks, vs)[ks[j]] == vs[j]
  {
    var n := |ks| - 1;
    if j < n {
      assert ks[..n][j] == ks[j];
      assert IsLast(ks[..n], j);
      AssignLastWins(m, ks[..n], vs[..n], j);
    }
  }

  /** With distinct keys every assignment survives. */
  lemma AssignDistinct<K, V>(m: map<K, V>, ks: seq<K>, vs: seq<V>, j: nat)
    requires |ks| == |vs| && Distinct(ks) && j < |ks|
    ensures ks[j] in Assign(m, ks, vs) && Assign(m, ks, vs)[ks[j]] == vs[j]
  {
    AssignLastWins(m, ks, vs, j);
  }

  /** The position of the last occurrence of any element exists. */
  lemma {:induction false} LastOccurrence<K>(ks: seq<K>, i: nat) returns (j: nat)
    requires i < |ks|
    ensures IsLast(ks, j) && ks[j] == ks[i] && i <= j
  {
    j := i;
    var k := i + 1;
    while k < |ks|
      invariant j < k <= |ks| && ks[j] == ks[i] && i <= j
      invariant forall l :: j < l < k ==> ks[l] != ks[j]
    {
      if ks[k] == ks[i] { j := k; }
      k := k + 1;
    }
  }
}
