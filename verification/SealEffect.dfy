/** What selecting a batch and writing a block do to the tables, row by row. */
module SealEffect {
  import opened Prelude
  import opened Hashing
  import opened AuditTables
  import opened Sealing

  // ------------------------------------------------------------- selection

  lemma EventOrderIsTotal()
    ensures TotalPreorder(EventLe)
  {
  }

  lemma NoEventTies(rows: seq<EventRow>)
    requires forall i, j :: 0 <= i < j < |rows| ==> rows[i].id != rows[j].id
    ensures NoTies(rows, EventLe)
  {
  }

  lemma UniqueRowsStayUnique(rows: seq<EventRow>, selected: seq<EventRow>)
    requires UniqueEventIds(rows)
    requires Distinct(selected) && forall x :: x in selected ==> x in rows
    ensures UniqueEventIds(selected)
  {
    forall i, j | 0 <= i < j < |selected| ensures selected[i].id != selected[j].id {
      assert selected[i] in rows && selected[j] in rows;
    }
  }

  lemma DifferentIds(rows: seq<EventRow>, a: EventRow, b: EventRow)
    requires UniqueEventIds(rows) && a in rows && b in rows && a != b
    ensures a.id != b.id
  {
    var i :| 0 <= i < |rows| && rows[i] == a;
    var j :| 0 <= j < |rows| && rows[j] == b;
    assert i < j || j < i;
  }

  lemma DistinctSorted<T>(a: seq<T>, b: seq<T>)
    requires Distinct(a) && multiset(a) == multiset(b)
    ensures Distinct(b)
  {
    DistinctCounts(a);
    MultisetMembers(a, b);
    forall i, j | 0 <= i < j < |b| ensures b[i] != b[j] {
      assert b[i] in a;
      assert b == b[..j] + [b[j]] + b[j + 1..];
      assert b[i] in b[..j];
    }
  }

  /** A batch that a sealing transaction may seal in the tables t. */
  ghost predicate Batch(t: Tables, organization: Uuid, rows: seq<EventRow>) {
    && UniqueEventIds(rows)
    && Sorted(rows, EventLe)
    && forall k :: 0 <= k < |rows| ==> rows[k] in t.events && IsUnsealed(organization)(rows[k])
  }

  /** The batch is in order, holds unsealed events of the tenant only, is as large as the limit allows, and
      leaves out no event that is older than one it takes. */
  lemma SelectionIsOldest(t: Tables, organization: Uuid, limit: nat)
    requires UniqueEventIds(t.events)
    ensures var rows := SelectUnsealed(t, organization, limit);
            var unsealed := Filter(t.events, IsUnsealed(organization));
            && Batch(t, organization, rows)
            && |rows| == (if |unsealed| <= limit then |unsealed| else limit)
            && (forall j, k :: 0 <= j < k < |rows| ==> Earlier(rows[j], rows[k]))
            && forall e, k :: e in unsealed && e !in rows && 0 <= k < |rows| ==> Earlier(rows[k], e)
  {
    var p := IsUnsealed(organization);
    var unsealed := Filter(t.events, p);
    var sorted := Sort(unsealed, EventLe);
    var rows := SelectUnsealed(t, organization, limit);
    FilterMembers(t.events, p);
    FilterDistinct(t.events, p);
    EventOrderIsTotal();
    SortSorts(unsealed, EventLe);
    SortPermutes(unsealed, EventLe);
    DistinctSorted(unsealed, sorted);
    MultisetMembers(sorted, unsealed);
    assert forall k :: 0 <= k < |rows| ==> rows[k] == sorted[k];
    forall k | 0 <= k < |rows| ensures rows[k] in t.events && p(rows[k]) {
      assert sorted[k] in sorted;
      assert sorted[k] in unsealed;
    }
    UniqueRowsStayUnique(t.events, rows);
    assert forall m :: 0 <= m < |rows| ==> sorted[m] in rows by {
      assert forall m :: 0 <= m < |rows| ==> rows[m] in rows;
    }
    forall e, k | e in unsealed && e !in rows && 0 <= k < |rows| ensures Earlier(rows[k], e) {
      assert e in sorted;
      var j :| 0 <= j < |sorted| && sorted[j] == e;
      assert EventLe(sorted[k], sorted[j]);
      DifferentIds(t.events, rows[k], e);
    }
  }

  // --------------------------------------------------------------- marking

  /** The rows of a batch as the update loop leaves them. */
  function Marked(rows: seq<EventRow>, leaves: seq<Bytes>, blockId: Uuid): (r: seq<EventRow>)
    requires |leaves| == |rows|
    ensures |r| == |rows|
    ensures forall k :: 0 <= k < |r| ==> r[k] == SetSeal(rows[k], Hex(leaves[k]), blockId, k)
  {
    seq(|rows|, k requires 0 <= k < |rows| => SetSeal(rows[k], Hex(leaves[k]), blockId, k))
  }

  /** Rows of the batch are sealed at their position; every other row is as before. */
  ghost predicate MarksExactly(
    events: seq<EventRow>, events': seq<EventRow>, rows: seq<EventRow>, leaves: seq<Bytes>, blockId: Uuid)
    requires |leaves| == |rows|
  {
    && |events'| == |events|
    && (forall i :: 0 <= i < |events| ==>
         events'[i] == events[i] || events'[i] in Marked(rows, leaves, blockId))
    && (forall i :: 0 <= i < |events| && events[i] !in rows ==> events'[i] == events[i])
    && (forall i, k :: 0 <= i < |events| && 0 <= k < |rows| && events[i] == rows[k] ==>
         events'[i] == Marked(rows, leaves, blockId)[k])
  }

  /** On a batch the update loop never loses exclusivity, and each turn seals one more row. */
  lemma {:induction false} MarkingABatch(
    t: Tables, organization: Uuid, rows: seq<EventRow>, leaves: seq<Bytes>, blockId: Uuid)
    requires |leaves| == |rows|
    requires UniqueEventIds(t.events) && Batch(t, organization, rows)
    ensures MarkEvents(t.events, organization, rows, leaves, blockId).Ok?
    ensures var marked := MarkEvents(t.events, organization, rows, leaves, blockId).value;
            && MarksExactly(t.events, marked, rows, leaves, blockId)
            && |Filter(t.events, IsUnsealed(organization))|
               == |Filter(marked, IsUnsealed(organization))| + |rows|
  {
    if rows == [] {
    } else {
      var n := |rows| - 1;
      var init, initLeaves := rows[..n], leaves[..n];
      MarkingABatch(t, organization, init, initLeaves, blockId);
      var before := MarkEvents(t.events, organization, init, initLeaves, blockId).value;
      var i :| 0 <= i < |t.events| && t.events[i] == rows[n];
      LastRowStillUnsealed(t, organization, rows, leaves, blockId, before, i);
      var p := Sealable(organization, rows[n].id);
      FilterOnly(before, p, i);
      var after := UpdateEvent(before, organization, rows[n].id, Hex(leaves[n]), blockId, n);
      LastRowMarked(t, organization, rows, leaves, blockId, before, after, i);
      FilterFlip(after, before, IsUnsealed(organization), i);
    }
  }

  lemma LastRowStillUnsealed(
    t: Tables, organization: Uuid, rows: seq<EventRow>, leaves: seq<Bytes>, blockId: Uuid,
    before: seq<EventRow>, i: nat)
    requires |leaves| == |rows| && rows != []
    requires UniqueEventIds(t.events) && Batch(t, organization, rows)
    requires MarksExactly(t.events, before, rows[..|rows| - 1], leaves[..|rows| - 1], blockId)
    requires i < |t.events| && t.events[i] == rows[|rows| - 1]
    ensures before[i] == t.events[i]
    ensures Sealable(organization, rows[|rows| - 1].id)(before[i])
    ensures forall j :: 0 <= j < |before| && j != i ==> !Sealable(organization, rows[|rows| - 1].id)(before[j])
    ensures forall j :: 0 <= j < |before| ==> before[j].id == t.events[j].id
  {
    var n := |rows| - 1;
    var init := rows[..n];
    assert t.events[i] !in init;
    forall j | 0 <= j < |before| ensures before[j].id == t.events[j].id {
      if t.events[j] in init {
        var k :| 0 <= k < |init| && init[k] == t.events[j];
        assert before[j] == Marked(init, leaves[..n], blockId)[k];
      }
    }
    forall j | 0 <= j < |before| && j != i ensures !Sealable(organization, rows[n].id)(before[j]) {
      assert t.events[j].id != t.events[i].id;
    }
  }

  lemma LastRowMarked(
    t: Tables, organization: Uuid, rows: seq<EventRow>, leaves: seq<Bytes>, blockId: Uuid,
    before: seq<EventRow>, after: seq<EventRow>, i: nat)
    requires |leaves| == |rows| && rows != []
    requires UniqueEventIds(t.events) && Batch(t, organization, rows)
    requires MarksExactly(t.events, before, rows[..|rows| - 1], leaves[..|rows| - 1], blockId)
    requires i < |t.events| && t.events[i] == rows[|rows| - 1]
    requires before[i] == t.events[i]
    requires |after| == |before|
    requires after[i] == SetSeal(before[i], Hex(leaves[|rows| - 1]), blockId, |rows| - 1)
    requires forall j :: 0 <= j < |before| && j != i ==> after[j] == before[j]
    ensures MarksExactly(t.events, after, rows, leaves, blockId)
  {
    var n := |rows| - 1;
    var init, initLeaves := rows[..n], leaves[..n];
    var marked, initMarked := Marked(rows, leaves, blockId), Marked(init, initLeaves, blockId);
    assert forall k :: 0 <= k < n ==> initMarked[k] == marked[k];
    assert rows == init + [rows[n]];
    forall j | 0 <= j < |t.events| ensures after[j] == t.events[j] || after[j] in marked {
      if j == i {
        assert after[i] == marked[n];
      } else if before[j] != t.events[j] {
        assert before[j] in initMarked;
        var k :| 0 <= k < n && initMarked[k] == before[j];
        assert marked[k] == after[j];
      }
    }
    forall j | 0 <= j < |t.events| && t.events[j] !in rows ensures after[j] == t.events[j] {
      assert t.events[j] !in init;
    }
    forall j, k | 0 <= j < |t.events| && 0 <= k < |rows| && t.events[j] == rows[k] ensures after[j] == marked[k] {
      if k == n {
        assert t.events[j].id == t.events[i].id;
      } else {
        assert init[k] == rows[k];
        assert j != i;
      }
    }
  }
}
