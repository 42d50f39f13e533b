/** Small shared vocabulary: optional values, outcomes, duplicate-free sequences. */
module Prelude {
  datatype Option<+T> = None | Some(value: T)

  datatype Result<+T, +E> = Ok(value: T) | Err(error: E)

  /** A client and one of its strategies. */
  datatype Owner = Owner(clientId: string, strategyId: string)

  ghost predicate NoDup<T>(s: seq<T>) {
    forall i, j :: 0 <= i < j < |s| ==> s[i] != s[j]
  }

  /** `order` lists every element of `keys` exactly once. */
  ghost predicate Enumerates<T(!new)>(order: seq<T>, keys: set<T>) {
    && NoDup(order)
    && forall k :: k in order <==> k in keys
  }

  function ToSet<T>(s: seq<T>): set<T> {
    set x | x in s
  }

  /** The distinct elements of `s`, each at the place of its first occurrence. */
  function Distinct<T(==, !new)>(s: seq<T>): (r: seq<T>)
    ensures forall x :: x in r <==> x in s
    ensures NoDup(r)
  {
    if s == [] then []
    else
      var r := Distinct(s[..|s| - 1]);
      var x := s[|s| - 1];
      assert s == s[..|s| - 1] + [x];
      if x in r then r else r + [x]
  }

  /** A duplicate-free sequence is its own list of distinct elements. */
  lemma {:induction false} DistinctFixed<T(!new)>(s: seq<T>)
    requires NoDup(s)
    ensures Distinct(s) == s
  {
    if s != [] {
      var n := |s| - 1;
      DistinctFixed(s[..n]);
      assert s == s[..n] + [s[n]];
    }
  }

  /** Elements of `Distinct(s)` stand in the order of their first occurrence in `s`. */
  lemma {:induction false} DistinctKeepsFirstOrder<T(!new)>(s: seq<T>, i: nat, j: nat)
    requires i < j < |Distinct(s)|
    ensures exists p, q ::
              && 0 <= p < q < |s|
              && s[p] == Distinct(s)[i] && s[q] == Distinct(s)[j]
              && s[q] !in s[..q]
  {
    var n := |s| - 1;
    var before := Distinct(s[..n]);
    assert s == s[..n] + [s[n]];
    if j < |before| {
      DistinctKeepsFirstOrder(s[..n], i, j);
      var p, q :| 0 <= p < q < n && s[..n][p] == before[i] && s[..n][q] == before[j] && s[..n][q] !in s[..n][..q];
      assert s[..n][..q] == s[..q];
      assert s[p] == before[i] && s[q] == before[j];
    } else {
      assert before[i] in s[..n];
      var p :| 0 <= p < n && s[p] == before[i];
      assert s[n] !in s[..n];
      assert 0 <= p < n < |s| && s[n] == Distinct(s)[j] && s[n] !in s[..n];
    }
  }

  lemma {:induction false} DistinctAppend<T(!new)>(s: seq<T>, x: T)
    ensures Distinct(s + [x]) == if x in s then Distinct(s) else Distinct(s) + [x]
  {
    assert (s + [x])[..|s|] == s;
  }

  // ---- What the last event to matter decided ----

  /** What one event of a run does to some condition: bring it about, or end it. */
  datatype Turn = Turn(sets: bool, clears: bool)

  /** Some event brought the condition about and no later one ended it. */
  predicate Latched(turns: seq<Turn>) {
    exists i :: 0 <= i < |turns| && turns[i].sets && forall j :: i < j < |turns| ==> !turns[j].clears
  }

  lemma LatchedSnoc(turns: seq<Turn>, t: Turn)
    ensures Latched(turns + [t]) <==> t.sets || (Latched(turns) && !t.clears)
  {
    var after := turns + [t];
    assert forall i :: 0 <= i < |turns| ==> after[i] == turns[i];
    if t.sets {
      assert after[|turns|].sets;
    }
    if Latched(turns) && !t.clears {
      var i :| 0 <= i < |turns| && turns[i].sets && forall j :: i < j < |turns| ==> !turns[j].clears;
      assert after[i].sets;
    }
    if Latched(after) && !t.sets {
      var i :| 0 <= i < |after| && after[i].sets && forall j :: i < j < |after| ==> !after[j].clears;
      assert turns[i].sets && after[|turns|] == t;
    }
  }
}
