/**
 * Enumeration of counter-assigned identifiers. Both contracts hand out ids 1, 2, 3, ...
 * from a counter and answer their list views by scanning the ids from 1 up to the
 * counter, keeping those whose record satisfies a condition.
 */
module Ids {

  /** The ids `k` with `1 <= k <= n` that are keys of `m` and whose record satisfies `p`, ascending. */
  function IdsWhere<V>(m: map<nat, V>, p: V -> bool, n: nat): (r: seq<nat>)
    ensures forall k {:trigger k in r} :: k in r <==> 1 <= k <= n && k in m && p(m[k])
    ensures forall i :: 0 <= i < |r| ==> 1 <= r[i] <= n
    ensures forall i, j :: 0 <= i < j < |r| ==> r[i] < r[j]
  {
    if n == 0 then []
    else
      var rest := IdsWhere(m, p, n - 1);
      if n in m && p(m[n]) then rest + [n] else rest
  }

  /** The scan up to `n` only looks at the records with ids 1..n. */
  lemma {:induction false} IdsWhereFrame<V>(m1: map<nat, V>, m2: map<nat, V>, p: V -> bool, n: nat)
    requires forall k :: 1 <= k <= n ==> (k in m1 <==> k in m2)
    requires forall k :: 1 <= k <= n && k in m1 ==> m1[k] == m2[k]
    ensures IdsWhere(m1, p, n) == IdsWhere(m2, p, n)
  {
    if n > 0 {
      IdsWhereFrame(m1, m2, p, n - 1);
    }
  }

  /** Recording a new id `n + 1` appends it to the scan exactly when its record satisfies `p`. */
  lemma IdsWhereExtend<V>(m: map<nat, V>, p: V -> bool, n: nat, v: V)
    ensures IdsWhere(m[n + 1 := v], p, n + 1) == IdsWhere(m, p, n) + (if p(v) then [n + 1] else [])
  {
    IdsWhereFrame(m[n + 1 := v], m, p, n);
  }

  /** Recording a new id `n + 1` lengthens the scan by one exactly when its record satisfies `p`. */
  lemma IdsWhereExtendCount<V>(m: map<nat, V>, p: V -> bool, n: nat, v: V)
    ensures |IdsWhere(m[n + 1 := v], p, n + 1)| == |IdsWhere(m, p, n)| + (if p(v) then 1 else 0)
  {
    IdsWhereStep(m[n + 1 := v], p, n + 1);
    IdsWhereFrame(m[n + 1 := v], m, p, n);
  }

  /** The scan up to `n` is one longer than the scan up to `n - 1` exactly when id `n` qualifies. */
  lemma IdsWhereStep<V>(m: map<nat, V>, p: V -> bool, n: nat)
    requires n > 0
    ensures |IdsWhere(m, p, n)| == |IdsWhere(m, p, n - 1)| + (if n in m && p(m[n]) then 1 else 0)
  {
  }

  /**
   * Replacing the record of an existing id `k` changes the number of selected ids by one
   * in the direction the condition changes, and not at all when it does not change.
   */
  lemma {:induction false} IdsWhereUpdate<V>(m: map<nat, V>, p: V -> bool, n: nat, k: nat, v: V)
    requires 1 <= k <= n && k in m
    ensures |IdsWhere(m[k := v], p, n)| + (if p(m[k]) then 1 else 0)
         == |IdsWhere(m, p, n)| + (if p(v) then 1 else 0)
  {
    IdsWhereStep(m[k := v], p, n);
    IdsWhereStep(m, p, n);
    if n == k {
      IdsWhereFrame(m[k := v], m, p, n - 1);
    } else {
      IdsWhereUpdate(m, p, n - 1, k, v);
    }
  }

  /** The elements of `s`, as a set. */
  function Elements(s: seq<nat>): (e: set<nat>)
  {
    set x | x in s
  }

  /** An ascending sequence has as many elements as the set of its elements. */
  lemma {:induction false} AscendingCard(s: seq<nat>)
    requires forall i, j :: 0 <= i < j < |s| ==> s[i] < s[j]
    ensures |Elements(s)| == |s|
  {
    if s != [] {
      var tail := s[1..];
      assert forall i, j :: 0 <= i < j < |tail| ==> tail[i] < tail[j] by {
        forall i, j | 0 <= i < j < |tail| ensures tail[i] < tail[j] {
          assert tail[i] == s[i + 1] && tail[j] == s[j + 1];
        }
      }
      AscendingCard(tail);
      HeadNotInTail(s);
      assert Elements(s) == Elements(tail) + {s[0]} by {
        assert s == [s[0]] + tail;
      }
    }
  }

  lemma HeadNotInTail(s: seq<nat>)
    requires s != []
    requires forall i, j :: 0 <= i < j < |s| ==> s[i] < s[j]
    ensures s[0] !in Elements(s[1..])
  {
    forall i | 0 <= i < |s| - 1 ensures s[1..][i] != s[0] {
      assert s[1..][i] == s[i + 1];
    }
  }

  /** The number of selected ids is the number of qualifying records among ids 1..n. */
  lemma IdsWhereCount<V>(m: map<nat, V>, p: V -> bool, n: nat, qualifying: set<nat>)
    requires forall k :: k in qualifying <==> k in m && 1 <= k <= n && p(m[k])
    ensures |IdsWhere(m, p, n)| == |qualifying|
  {
    var r := IdsWhere(m, p, n);
    AscendingCard(r);
    assert Elements(r) == qualifying;
  }
}
