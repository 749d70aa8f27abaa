/**
 `OrderedMultiSet` from app.py: a set of rows already seen and the list of
 rows kept, in arrival order. Its `extend` is an unimplemented stub that
 changes nothing. The collection that tests/test_main.py:54-99 expects,
 where rows are handed over one file (one batch) at a time, is specified
 separately by `Merge` and implemented by `ExtendAsTested`, not by `Extend`.
 */
module Collector {

  /** A CSV row: the tuple of its field values, compared by value. */
  type Row = seq<string>

  /** Every row that occurs in some batch. */
  ghost function SeenBy(batches: seq<seq<Row>>): set<Row>
  {
    set i, x | 0 <= i < |batches| && x in batches[i] :: x
  }

  /** The rows of a batch, in order and with their repeats, that are not in `seen`. */
  function Unseen(batch: seq<Row>, seen: set<Row>): (kept: seq<Row>)
    ensures forall x :: x in kept <==> x in batch && x !in seen
  {
    if |batch| == 0 then []
    else
      var last := batch[|batch| - 1];
      assert batch == batch[..|batch| - 1] + [last];
      Unseen(batch[..|batch| - 1], seen) + if last in seen then [] else [last]
  }

  /** A row not seen before is kept as often as the batch holds it; a seen one never. */
  lemma {:induction false} UnseenCount(batch: seq<Row>, seen: set<Row>, x: Row)
    ensures multiset(Unseen(batch, seen))[x] == if x in seen then 0 else multiset(batch)[x]
  {
    if |batch| > 0 {
      var init, last := batch[..|batch| - 1], batch[|batch| - 1];
      assert batch == init + [last];
      UnseenCount(init, seen, x);
    }
  }

  /** Filtering a batch never lengthens it. */
  lemma {:induction false} UnseenNoLonger(batch: seq<Row>, seen: set<Row>)
    ensures |Unseen(batch, seen)| <= |batch|
  {
    if |batch| > 0 {
      UnseenNoLonger(batch[..|batch| - 1], seen);
    }
  }

  /**
   The rows the tests expect after the batches were handed over in order: each
   batch contributes its rows that no earlier batch held, in their order and
   with their repeats inside the batch. It never holds more rows than were
   handed over.
   */
  ghost function Merge(batches: seq<seq<Row>>): (merged: seq<Row>)
    ensures |merged| <= |Concat(batches)|
  {
    if |batches| == 0 then []
    else
      var earlier := batches[..|batches| - 1];
      UnseenNoLonger(batches[|batches| - 1], SeenBy(earlier));
      Merge(earlier) + Unseen(batches[|batches| - 1], SeenBy(earlier))
  }

  /** All batches concatenated, in order. */
  function Concat(batches: seq<seq<Row>>): seq<Row>
  {
    if |batches| == 0 then [] else Concat(batches[..|batches| - 1]) + batches[|batches| - 1]
  }

  /** No row of a batch occurs in an earlier batch. */
  ghost predicate NoRowRecurs(batches: seq<seq<Row>>)
  {
    forall i, j, x :: 0 <= i < j < |batches| && x in batches[i] ==> x !in batches[j]
  }

  lemma SeenByAppend(batches: seq<seq<Row>>, batch: seq<Row>)
    ensures SeenBy(batches + [batch]) == SeenBy(batches) + set x | x in batch
  {
    var all := batches + [batch];
    forall x | x in SeenBy(all) ensures x in SeenBy(batches) || x in batch {
      var i :| 0 <= i < |all| && x in all[i];
      if i < |batches| {
        assert all[i] == batches[i];
      }
    }
    forall x | x in batch ensures x in SeenBy(all) {
      assert all[|batches|] == batch;
    }
    forall x | x in SeenBy(batches) ensures x in SeenBy(all) {
      var i :| 0 <= i < |batches| && x in batches[i];
      assert all[i] == batches[i];
    }
  }

  /** Handing over one more batch appends its unseen rows. */
  lemma MergeAppend(batches: seq<seq<Row>>, batch: seq<Row>)
    ensures Merge(batches + [batch]) == Merge(batches) + Unseen(batch, SeenBy(batches))
  {
    assert (batches + [batch])[..|batches|] == batches;
  }

  /** Checking one more row of a batch keeps it exactly when it was not seen. */
  lemma UnseenAppend(batch: seq<Row>, x: Row, seen: set<Row>)
    ensures Unseen(batch + [x], seen) == Unseen(batch, seen) + if x in seen then [] else [x]
  {
    assert (batch + [x])[..|batch|] == batch;
  }

  /** A batch with nothing seen before comes through whole. */
  lemma {:induction false} UnseenAllNew(batch: seq<Row>, seen: set<Row>)
    requires forall x :: x in batch ==> x !in seen
    ensures Unseen(batch, seen) == batch
  {
    if |batch| > 0 {
      var init, last := batch[..|batch| - 1], batch[|batch| - 1];
      assert batch == init + [last];
      UnseenAllNew(init, seen);
      UnseenAppend(init, last, seen);
    }
  }

  /** The rows kept are exactly the rows handed over, as a set. */
  lemma {:induction false} MergeMembership(batches: seq<seq<Row>>)
    ensures forall x :: x in Merge(batches) <==> x in SeenBy(batches)
  {
    if |batches| > 0 {
      var earlier := batches[..|batches| - 1];
      MergeMembership(earlier);
      assert batches == earlier + [batches[|batches| - 1]];
      SeenByAppend(earlier, batches[|batches| - 1]);
    }
  }

  /**
   A row is kept exactly as often as it occurs in the first batch that holds
   it: repeats within that batch stay, its occurrences in later batches go.
   */
  lemma {:induction false} MergeMultiplicity(batches: seq<seq<Row>>, x: Row, first: nat)
    requires first < |batches| && x in batches[first]
    requires forall j :: 0 <= j < first ==> x !in batches[j]
    ensures multiset(Merge(batches))[x] == multiset(batches[first])[x]
  {
    var n := |batches|;
    var earlier := batches[..n - 1];
    var last := batches[n - 1];
    assert batches == earlier + [last];
    UnseenCount(last, SeenBy(earlier), x);
    if first == n - 1 {
      MergeMembership(earlier);
      assert x !in SeenBy(earlier);
      assert x !in Merge(earlier);
    } else {
      MergeMultiplicity(earlier, x, first);
      assert x in SeenBy(earlier) by {
        assert x in earlier[first];
      }
    }
  }

  /** A row that no batch holds is not kept. */
  lemma RowNeverHandedOver(batches: seq<seq<Row>>, x: Row)
    requires forall i :: 0 <= i < |batches| ==> x !in batches[i]
    ensures x !in Merge(batches)
  {
    MergeMembership(batches);
  }

  /** When no row comes back in a later batch, all rows are kept in arrival order. */
  lemma {:induction false} MergeDisjointIsConcat(batches: seq<seq<Row>>)
    requires NoRowRecurs(batches)
    ensures Merge(batches) == Concat(batches)
  {
    if |batches| > 0 {
      var n := |batches|;
      var earlier := batches[..n - 1];
      assert NoRowRecurs(earlier);
      MergeDisjointIsConcat(earlier);
      UnseenAllNew(batches[n - 1], SeenBy(earlier));
    }
  }

  /** One file's rows all come through, duplicates included (tests/test_main.py:54-68). */
  lemma MergeSingleBatch(batch: seq<Row>)
    ensures Merge([batch]) == batch
  {
    assert Merge([batch]) == Merge([]) + Unseen(batch, SeenBy([]));
    UnseenAllNew(batch, SeenBy([]));
  }

  /** A row repeated in a later file appears once (tests/test_main.py:71-80). */
  lemma RepeatedAcrossFiles(row: Row)
    ensures Merge([[row], [row]]) == [row]
  {
    assert [[row], [row]] == [[row]] + [[row]];
    MergeAppend([[row]], [row]);
    MergeSingleBatch([row]);
    assert row in SeenBy([[row]]) by {
      assert row in [[row]][0];
    }
    UnseenAppend([], row, SeenBy([[row]]));
    assert [] + [row] == [row];
  }

  /** Distinct rows of successive files appear in file order (tests/test_main.py:83-99). */
  lemma SuccessiveFilesInOrder(a: Row, b: Row)
    requires a != b
    ensures Merge([[a], [b]]) == [a, b]
  {
    assert [[a], [b]] == [[a]] + [[b]];
    MergeAppend([[a]], [b]);
    MergeSingleBatch([a]);
    assert SeenBy([[a]]) == {a};
    UnseenAppend([], b, {a});
    assert [] + [b] == [b];
  }

  /**
   Two copies of a row in the first file and one in the second leave the two
   copies of the first file.
   */
  lemma KeptWithinDroppedAcross(row: Row)
    ensures Merge([[row, row], [row]]) == [row, row]
  {
    assert [[row, row], [row]] == [[row, row]] + [[row]];
    MergeAppend([[row, row]], [row]);
    MergeSingleBatch([row, row]);
    assert row in SeenBy([[row, row]]) by {
      assert row in [[row, row]][0];
    }
    UnseenAppend([], row, SeenBy([[row, row]]));
    assert [] + [row] == [row];
  }

  class OrderedMultiSet {
    /** `_seen`: the rows already handed over. */
    var seen: set<Row>
    /** `_order`: the rows kept, in arrival order. */
    var order: seq<Row>
    /** The batches handed to `ExtendAsTested` so far. */
    ghost var batches: seq<seq<Row>>

    /** The fields hold what the tests expect after `batches` were handed over. */
    ghost predicate Valid()
      reads this
    {
      seen == SeenBy(batches) && order == Merge(batches)
    }

    constructor ()
      ensures seen == {} && order == [] && batches == []
      ensures Valid()
    {
      seen := {};
      order := [];
      batches := [];
    }

    /** `extend` as written: its body is `...`, so it keeps nothing of `rows`. */
    method Extend(rows: seq<Row>)
      ensures seen == old(seen) && order == old(order) && batches == old(batches)
    {
    }

    /**
     The `extend` the tests expect: each row is checked against the rows seen
     before this batch, so repeats inside the batch are all kept; then the whole
     batch is marked as seen.
     */
    method ExtendAsTested(rows: seq<Row>)
      requires Valid()
      modifies this
      ensures Valid()
      ensures batches == old(batches) + [rows]
      ensures order == old(order) + Unseen(rows, old(seen))
      ensures seen == old(seen) + set x | x in rows
    {
      var i := 0;
      while i < |rows|
        invariant 0 <= i <= |rows|
        invariant seen == old(seen) && batches == old(batches)
        invariant order == old(order) + Unseen(rows[..i], seen)
      {
        assert rows[..i + 1] == rows[..i] + [rows[i]];
        UnseenAppend(rows[..i], rows[i], seen);
        if rows[i] !in seen {
          order := order + [rows[i]];
        }
        i := i + 1;
      }
      assert rows[..i] == rows;
      SeenByAppend(batches, rows);
      MergeAppend(batches, rows);
      seen := seen + set x | x in rows;
      batches := batches + [rows];
    }
  }

  /**
   The collector as written, fed one file that holds the same row twice: it
   keeps nothing, where tests/test_main.py:54-68 expects both copies.
   */
  method StubLosesRows(row: Row) returns (kept: seq<Row>)
    ensures kept == [] && kept != Merge([[row, row]])
  {
    var c := new OrderedMultiSet();
    c.Extend([row, row]);
    kept := c.order;
    MergeSingleBatch([row, row]);
  }

  /**
   The collector with `ExtendAsTested`, fed the files of the three tests in
   tests/test_main.py:54-99: it produces what each test expects.
   */
  method AsTestedScenarios(coffee: Row, bagel: Row) returns (same: seq<Row>, across: seq<Row>, combined: seq<Row>)
    requires coffee != bagel
    ensures same == [coffee, coffee]
    ensures across == [coffee]
    ensures combined == [coffee, bagel]
  {
    var c := new OrderedMultiSet();
    c.ExtendAsTested([coffee, coffee]);
    same := c.order;
    MergeSingleBatch([coffee, coffee]);

    c := new OrderedMultiSet();
    c.ExtendAsTested([coffee]);
    c.ExtendAsTested([coffee]);
    across := c.order;
    RepeatedAcrossFiles(coffee);

    c := new OrderedMultiSet();
    c.ExtendAsTested([coffee]);
    c.ExtendAsTested([bagel]);
    combined := c.order;
    SuccessiveFilesInOrder(coffee, bagel);
  }
}
