/** Counters: the multiset of keys that a table's rows, or a log's events, give. A row or event
    without a key is not counted. */
module Bags {
  import opened Prelude

  function One<K>(k: Option<K>): multiset<K> {
    if k.Some? then multiset{k.value} else multiset{}
  }

  // ---------------------------------------------------------------- over the rows of a table

  ghost function RowBag<I, R, K>(rows: map<I, R>, key: (I, R) -> Option<K>): multiset<K>
    decreases |rows|
  {
    if rows == map[] then multiset{}
    else
      var i :| i in rows;
      One(key(i, rows[i])) + RowBag(rows - {i}, key)
  }

  lemma SomeRowFirst<I, R, K>(rows: map<I, R>, key: (I, R) -> Option<K>) returns (j: I)
    requires rows != map[]
    ensures j in rows && RowBag(rows, key) == One(key(j, rows[j])) + RowBag(rows - {j}, key)
  {
    j :| j in rows && RowBag(rows, key) == One(key(j, rows[j])) + RowBag(rows - {j}, key);
  }

  /** Any row can be counted first. */
  lemma {:induction false} RowBagRemove<I, R, K>(rows: map<I, R>, key: (I, R) -> Option<K>, i: I)
    requires i in rows
    ensures RowBag(rows, key) == One(key(i, rows[i])) + RowBag(rows - {i}, key)
    decreases |rows|
  {
    var j := SomeRowFirst(rows, key);
    if i != j {
      var withoutI, withoutJ := rows - {i}, rows - {j};
      RowBagRemove(withoutJ, key, i);
      RowBagRemove(withoutI, key, j);
      Exchange(withoutI - {j}, withoutJ - {i}, key, i, j, rows);
    }
  }

  lemma Exchange<I, R, K>(a: map<I, R>, b: map<I, R>, key: (I, R) -> Option<K>, i: I, j: I, rows: map<I, R>)
    requires a == rows - {i} - {j} && b == rows - {j} - {i}
    ensures RowBag(a, key) == RowBag(b, key)
  {
    assert a == b;
  }

  lemma RowBagInsert<I, R, K>(rows: map<I, R>, key: (I, R) -> Option<K>, i: I, r: R)
    requires i !in rows
    ensures RowBag(rows[i := r], key) == RowBag(rows, key) + One(key(i, r))
  {
    RowBagRemove(rows[i := r], key, i);
    assert rows[i := r] - {i} == rows;
  }

  lemma SwapEnds<K>(a: multiset<K>, rest: multiset<K>, b: multiset<K>)
    ensures (b + rest) + a == (a + rest) + b
  {
  }

  lemma RowBagUpdate<I, R, K>(rows: map<I, R>, key: (I, R) -> Option<K>, i: I, r: R)
    requires i in rows
    ensures RowBag(rows[i := r], key) + One(key(i, rows[i])) == RowBag(rows, key) + One(key(i, r))
  {
    hide RowBag;
    RowBagRemove(rows[i := r], key, i);
    RowBagRemove(rows, key, i);
    assert rows[i := r] - {i} == rows - {i};
    SwapEnds(One(key(i, rows[i])), RowBag(rows - {i}, key), One(key(i, r)));
  }

  lemma {:induction false} RowBagMember<I, R, K>(rows: map<I, R>, key: (I, R) -> Option<K>, k: K)
    ensures k in RowBag(rows, key) <==> exists i :: i in rows && key(i, rows[i]) == Some(k)
    decreases |rows|
  {
    if rows != map[] {
      var j := SomeRowFirst(rows, key);
      RowBagMember(rows - {j}, key, k);
      if k in RowBag(rows - {j}, key) {
        var i :| i in rows - {j} && key(i, (rows - {j})[i]) == Some(k);
        assert i in rows && key(i, rows[i]) == Some(k);
      }
      if i :| i in rows && key(i, rows[i]) == Some(k) {
        if i != j {
          assert i in rows - {j} && key(i, (rows - {j})[i]) == Some(k);
        }
      }
    }
  }

  /** Keys that tell rows apart are counted once. */
  lemma {:induction false} RowBagUnique<I, R, K>(rows: map<I, R>, key: (I, R) -> Option<K>, k: K)
    requires forall i, j :: i in rows && j in rows && i != j && key(i, rows[i]) == Some(k) ==> key(j, rows[j]) != Some(k)
    ensures RowBag(rows, key)[k] <= 1
    decreases |rows|
  {
    if rows != map[] {
      var j := SomeRowFirst(rows, key);
      var rest := rows - {j};
      if key(j, rows[j]) == Some(k) {
        RowBagMember(rest, key, k);
        assert k !in RowBag(rest, key);
      } else {
        RowBagUnique(rest, key, k);
      }
    }
  }

  /** Equal keys, row by row, give equal counters. */
  lemma {:induction false} RowBagCongruent<I, R, K>(rows: map<I, R>, key: (I, R) -> Option<K>, key': (I, R) -> Option<K>)
    requires forall i :: i in rows ==> key(i, rows[i]) == key'(i, rows[i])
    ensures RowBag(rows, key) == RowBag(rows, key')
    decreases |rows|
  {
    if rows != map[] {
      var j :| j in rows;
      RowBagRemove(rows, key, j);
      RowBagRemove(rows, key', j);
      RowBagCongruent(rows - {j}, key, key');
    }
  }

  lemma OneCounts<K>(a: Option<K>, b: multiset<K>, k: K)
    ensures (One(a) + b)[k] == (b + One(a))[k] == b[k] + if a == Some(k) then 1 else 0
  {
  }

  ghost function RowsWith<I, R, K>(rows: map<I, R>, key: (I, R) -> Option<K>, k: K): set<I> {
    set i | i in rows && key(i, rows[i]) == Some(k)
  }

  lemma RowsWithout<I, R, K>(rows: map<I, R>, key: (I, R) -> Option<K>, k: K, j: I)
    requires j in rows
    ensures RowsWith(rows, key, k) == RowsWith(rows - {j}, key, k) + (if key(j, rows[j]) == Some(k) then {j} else {})
    ensures j !in RowsWith(rows - {j}, key, k)
  {
  }

  /** A key is counted as often as rows have it. */
  lemma {:induction false} RowBagCounts<I, R, K>(rows: map<I, R>, key: (I, R) -> Option<K>, k: K)
    ensures RowBag(rows, key)[k] == |RowsWith(rows, key, k)|
    decreases |rows|
  {
    if rows == map[] {
      assert RowsWith(rows, key, k) == {};
    } else {
      hide RowsWith, RowBag, One;
      var j :| j in rows;
      RowBagRemove(rows, key, j);
      RowBagCounts(rows - {j}, key, k);
      RowsWithout(rows, key, k, j);
      OneCounts(key(j, rows[j]), RowBag(rows - {j}, key), k);
    }
  }

  // ---------------------------------------------------------------- over the events of a log

  function EventBag<E, K>(events: seq<E>, key: E -> Option<K>): multiset<K> {
    if events == [] then multiset{}
    else EventBag(events[..|events| - 1], key) + One(key(events[|events| - 1]))
  }

  lemma EventBagAppend<E, K>(events: seq<E>, key: E -> Option<K>, e: E)
    ensures EventBag(events + [e], key) == EventBag(events, key) + One(key(e))
  {
    assert (events + [e])[..|events|] == events;
  }

  lemma {:induction false} EventBagMember<E, K>(events: seq<E>, key: E -> Option<K>, k: K)
    ensures k in EventBag(events, key) <==> exists i :: 0 <= i < |events| && key(events[i]) == Some(k)
  {
    if events != [] {
      var n := |events| - 1;
      var before := events[..n];
      EventBagMember(before, key, k);
      assert k in EventBag(events, key) <==> k in EventBag(before, key) || key(events[n]) == Some(k);
      if k in EventBag(before, key) {
        var i :| 0 <= i < n && key(before[i]) == Some(k);
        assert events[i] == before[i];
      }
      if i :| 0 <= i < n && key(events[i]) == Some(k) {
        assert before[i] == events[i];
      }
    }
  }

  ghost function EventsWith<E, K>(events: seq<E>, key: E -> Option<K>, k: K): set<nat> {
    set i: nat | i < |events| && key(events[i]) == Some(k)
  }

  lemma EventsBefore<E, K>(events: seq<E>, key: E -> Option<K>, k: K)
    requires events != []
    ensures var n := |events| - 1;
            && EventsWith(events, key, k) == EventsWith(events[..n], key, k) + (if key(events[n]) == Some(k) then {n} else {})
            && n !in EventsWith(events[..n], key, k)
  {
  }

  /** A key is counted as often as events have it. */
  lemma {:induction false} EventBagCounts<E, K>(events: seq<E>, key: E -> Option<K>, k: K)
    ensures EventBag(events, key)[k] == |EventsWith(events, key, k)|
  {
    if events == [] {
      assert EventsWith(events, key, k) == {};
    } else {
      hide EventsWith, One;
      OneCounts(key(events[|events| - 1]), EventBag(events[..|events| - 1], key), k);
      EventBagCounts(events[..|events| - 1], key, k);
      EventsBefore(events, key, k);
    }
  }

  /** A coarser key counts at least as much. */
  lemma {:induction false} EventBagCoarser<E, K, L>(events: seq<E>, fine: E -> Option<K>, coarse: E -> Option<L>, k: K, l: L)
    requires forall i :: 0 <= i < |events| && fine(events[i]) == Some(k) ==> coarse(events[i]) == Some(l)
    ensures EventBag(events, fine)[k] <= EventBag(events, coarse)[l]
  {
    if events != [] {
      var n := |events| - 1;
      assert forall i :: 0 <= i < n ==> events[..n][i] == events[i];
      EventBagCoarser(events[..n], fine, coarse, k, l);
    }
  }

  // ---------------------------------------------------------------- a table against a log

  ghost predicate Balanced<I, R, E, K>(rows: map<I, R>, rowKey: (I, R) -> Option<K>, events: seq<E>, eventKey: E -> Option<K>) {
    RowBag(rows, rowKey) == EventBag(events, eventKey)
  }

  lemma BalancedIgnores<I, R, E, K>(rows: map<I, R>, rowKey: (I, R) -> Option<K>, events: seq<E>,
                                    eventKey: E -> Option<K>, e: E)
    requires Balanced(rows, rowKey, events, eventKey) && eventKey(e) == None
    ensures Balanced(rows, rowKey, events + [e], eventKey)
  {
    EventBagAppend(events, eventKey, e);
  }

  lemma BalancedInsert<I, R, E, K>(rows: map<I, R>, rowKey: (I, R) -> Option<K>, events: seq<E>,
                                   eventKey: E -> Option<K>, i: I, r: R, e: E)
    requires Balanced(rows, rowKey, events, eventKey) && i !in rows && rowKey(i, r) == eventKey(e)
    ensures Balanced(rows[i := r], rowKey, events + [e], eventKey)
  {
    EventBagAppend(events, eventKey, e);
    RowBagInsert(rows, rowKey, i, r);
  }

  lemma Cancel<K>(a: multiset<K>, b: multiset<K>, c: multiset<K>)
    requires a + c == b + c
    ensures a == b
  {
    assert a == (a + c) - c && b == (b + c) - c;
  }

  /** What a row starts to be counted by, the event is counted by. */
  lemma BalancedUpdate<I, R, E, K>(rows: map<I, R>, rowKey: (I, R) -> Option<K>, events: seq<E>,
                                   eventKey: E -> Option<K>, i: I, r: R, e: E)
    requires Balanced(rows, rowKey, events, eventKey) && i in rows
    requires (rowKey(i, r) == rowKey(i, rows[i]) && eventKey(e) == None)
             || (rowKey(i, rows[i]) == None && rowKey(i, r) == eventKey(e))
    ensures Balanced(rows[i := r], rowKey, events + [e], eventKey)
  {
    EventBagAppend(events, eventKey, e);
    RowBagUpdate(rows, rowKey, i, r);
    if rowKey(i, r) == rowKey(i, rows[i]) {
      Cancel(RowBag(rows[i := r], rowKey), RowBag(rows, rowKey), One(rowKey(i, r)));
    }
  }
}
