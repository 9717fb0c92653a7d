/** The bookkeeping of a batch: each item either stored something or
    produced an error line, and the batch's result collects the stored
    items, the error lines and the success count in input order. It is
    generic in what an item stores. */
module Batches {
  import opened Text

  /** What one item of a batch came to: a stored row, or an error line. */
  datatype Outcome<R> = Indexed(row: R) | Failed(message: string)

  /** The flow's result, `{ indexedCount, errors }`. */
  datatype BatchSummary = BatchSummary(indexedCount: nat, errors: seq<string>)

  /** The row one item stores: one for a success, none otherwise. */
  function Added<R>(o: Outcome<R>): seq<R>
  {
    if o.Indexed? then [o.row] else []
  }

  /** The error line one item reports: one for a failure, none otherwise. */
  function Reported<R>(o: Outcome<R>): seq<string>
  {
    if o.Failed? then [o.message] else []
  }

  /** The rows the successful items stored, in input order. */
  function Rows<R>(outcomes: seq<Outcome<R>>): seq<R>
  {
    if outcomes == [] then [] else Rows(outcomes[..|outcomes| - 1]) + Added(outcomes[|outcomes| - 1])
  }

  /** The error lines of the failed items, in input order. */
  function Errors<R>(outcomes: seq<Outcome<R>>): seq<string>
  {
    if outcomes == [] then [] else Errors(outcomes[..|outcomes| - 1]) + Reported(outcomes[|outcomes| - 1])
  }

  /** The number of successful items. */
  function IndexedCount<R>(outcomes: seq<Outcome<R>>): nat
  {
    if outcomes == [] then 0
    else
      var last := outcomes[|outcomes| - 1];
      IndexedCount(outcomes[..|outcomes| - 1]) + (if last.Indexed? then 1 else 0)
  }

  /** The flow's result for the given outcomes. */
  function Summary<R>(outcomes: seq<Outcome<R>>): BatchSummary
  {
    BatchSummary(IndexedCount(outcomes), Errors(outcomes))
  }

  /** Every item yields exactly one of a success or an error line, and
      every success stores exactly one row. */
  lemma {:induction false} Partition<R>(outcomes: seq<Outcome<R>>)
    ensures IndexedCount(outcomes) + |Errors(outcomes)| == |outcomes|
    ensures |Rows(outcomes)| == IndexedCount(outcomes)
    decreases |outcomes|
  {
    if outcomes != [] {
      Partition(outcomes[..|outcomes| - 1]);
    }
  }

  /** Splitting a batch splits its rows, error lines and count the same
      way: later items only ever add to what earlier items produced. */
  lemma {:induction false} AppendOutcomes<R>(a: seq<Outcome<R>>, b: seq<Outcome<R>>)
    ensures Rows(a + b) == Rows(a) + Rows(b)
    ensures Errors(a + b) == Errors(a) + Errors(b)
    ensures IndexedCount(a + b) == IndexedCount(a) + IndexedCount(b)
    decreases |b|
  {
    if b == [] {
      assert a + b == a;
    } else {
      var b', last := b[..|b| - 1], b[|b| - 1];
      assert (a + b)[..|a + b| - 1] == a + b';
      assert (a + b)[|a + b| - 1] == last;
      AppendOutcomes(a, b');
      Associate(Rows(a), Rows(b'), Added(last));
      Associate(Errors(a), Errors(b'), Reported(last));
    }
  }


  /** A failed item adds its error line and nothing else: the rows and the
      count are those of the items before it followed by those after it,
      as if it were not in the batch. */
  lemma FailedItemAddsOnlyItsLine<R>(outcomes: seq<Outcome<R>>, k: nat)
    requires k < |outcomes| && outcomes[k].Failed?
    ensures Rows(outcomes) == Rows(outcomes[..k]) + Rows(outcomes[k + 1..])
    ensures IndexedCount(outcomes) == IndexedCount(outcomes[..k]) + IndexedCount(outcomes[k + 1..])
    ensures Errors(outcomes) == Errors(outcomes[..k]) + [outcomes[k].message] + Errors(outcomes[k + 1..])
  {
    var front, item, back := outcomes[..k], [outcomes[k]], outcomes[k + 1..];
    var fi := front + item;
    assert outcomes == fi + back;
    assert item[..0] == [];
    AppendOutcomes(fi, back);
    AppendOutcomes(front, item);
    assert Rows(item) == [];
    assert Rows(fi) == Rows(front);
    assert IndexedCount(fi) == IndexedCount(front);
    assert Errors(fi) == Errors(front) + [outcomes[k].message];
  }

  /** One more item that succeeded: one more row and one more count. */
  lemma ExtendIndexed<R>(outcomes: seq<Outcome<R>>, i: nat)
    requires i < |outcomes| && outcomes[i].Indexed?
    ensures Rows(outcomes[..i + 1]) == Rows(outcomes[..i]) + [outcomes[i].row]
    ensures Errors(outcomes[..i + 1]) == Errors(outcomes[..i])
    ensures IndexedCount(outcomes[..i + 1]) == IndexedCount(outcomes[..i]) + 1
  {
    assert outcomes[..i + 1][..i] == outcomes[..i];
  }

  /** One more item that failed with `line`: one more error line. */
  lemma ExtendFailed<R>(outcomes: seq<Outcome<R>>, i: nat, line: string)
    requires i < |outcomes| && outcomes[i] == Failed(line)
    ensures Rows(outcomes[..i + 1]) == Rows(outcomes[..i])
    ensures Errors(outcomes[..i + 1]) == Errors(outcomes[..i]) + [line]
    ensures IndexedCount(outcomes[..i + 1]) == IndexedCount(outcomes[..i])
  {
    assert outcomes[..i + 1][..i] == outcomes[..i];
  }

  /** The positions of the failed items, ascending. */
  function FailedPositions<R>(outcomes: seq<Outcome<R>>): seq<nat>
  {
    if outcomes == [] then []
    else
      var n := |outcomes| - 1;
      FailedPositions(outcomes[..n]) + (if outcomes[n].Failed? then [n] else [])
  }

  /** The k-th error line is the message of the k-th failed item: the
      lines follow input order, one per failed item and no other. */
  lemma {:induction false} ErrorsFollowInput<R>(outcomes: seq<Outcome<R>>)
    ensures |FailedPositions(outcomes)| == |Errors(outcomes)|
    ensures forall k :: 0 <= k < |FailedPositions(outcomes)| ==>
      FailedPositions(outcomes)[k] < |outcomes|
      && outcomes[FailedPositions(outcomes)[k]].Failed?
      && Errors(outcomes)[k] == outcomes[FailedPositions(outcomes)[k]].message
    ensures forall k, l :: 0 <= k < l < |FailedPositions(outcomes)| ==>
      FailedPositions(outcomes)[k] < FailedPositions(outcomes)[l]
    ensures forall i :: 0 <= i < |outcomes| && outcomes[i].Failed? ==> i in FailedPositions(outcomes)
  {
    PositionsAscend(outcomes);
    MessagesAtPositions(outcomes);
    EveryFailureListed(outcomes);
  }

  /** The failed positions are failed items of the batch, ascending. */
  lemma {:induction false} PositionsAscend<R>(outcomes: seq<Outcome<R>>)
    ensures forall k :: 0 <= k < |FailedPositions(outcomes)| ==>
      FailedPositions(outcomes)[k] < |outcomes| && outcomes[FailedPositions(outcomes)[k]].Failed?
    ensures forall k, l :: 0 <= k < l < |FailedPositions(outcomes)| ==>
      FailedPositions(outcomes)[k] < FailedPositions(outcomes)[l]
    decreases |outcomes|
  {
    if outcomes != [] {
      var n := |outcomes| - 1;
      var front := outcomes[..n];
      PositionsAscend(front);
      var p := FailedPositions(front);
      assert FailedPositions(outcomes) == p + (if outcomes[n].Failed? then [n] else []);
      forall k | 0 <= k < |p|
        ensures outcomes[p[k]] == front[p[k]]
      {
      }
    }
  }

  /** One error line per failed position, each the message found there. */
  lemma {:induction false} MessagesAtPositions<R>(outcomes: seq<Outcome<R>>)
    ensures |FailedPositions(outcomes)| == |Errors(outcomes)|
    ensures forall k :: 0 <= k < |FailedPositions(outcomes)| ==>
      FailedPositions(outcomes)[k] < |outcomes|
      && outcomes[FailedPositions(outcomes)[k]].Failed?
      && Errors(outcomes)[k] == outcomes[FailedPositions(outcomes)[k]].message
    decreases |outcomes|
  {
    if outcomes != [] {
      var n := |outcomes| - 1;
      var front := outcomes[..n];
      MessagesAtPositions(front);
      var p, e := FailedPositions(front), Errors(front);
      assert FailedPositions(outcomes) == p + (if outcomes[n].Failed? then [n] else []);
      assert Errors(outcomes) == e + Reported(outcomes[n]);
      forall k | 0 <= k < |p|
        ensures outcomes[p[k]] == front[p[k]]
      {
      }
    }
  }

  /** Every failed item's position is listed. */
  lemma {:induction false} EveryFailureListed<R>(outcomes: seq<Outcome<R>>)
    ensures forall i :: 0 <= i < |outcomes| && outcomes[i].Failed? ==> i in FailedPositions(outcomes)
    decreases |outcomes|
  {
    if outcomes != [] {
      var n := |outcomes| - 1;
      var front := outcomes[..n];
      EveryFailureListed(front);
      var p := FailedPositions(front);
      assert FailedPositions(outcomes) == p + (if outcomes[n].Failed? then [n] else []);
      forall i | 0 <= i < |outcomes| && outcomes[i].Failed?
        ensures i in FailedPositions(outcomes)
      {
        if i < n {
          assert front[i] == outcomes[i];
          assert i in p;
        } else {
          assert FailedPositions(outcomes)[|p|] == n;
        }
      }
    }
  }

  /** A success, a failure and a success: two rows, the count 2 and the
      one error line. */
  lemma SuccessFailureSuccess<R>(outcomes: seq<Outcome<R>>, row0: R, line: string, row2: R)
    requires |outcomes| == 3
    requires outcomes[0] == Indexed(row0) && outcomes[1] == Failed(line) && outcomes[2] == Indexed(row2)
    ensures Summary(outcomes) == BatchSummary(2, [line]) && Rows(outcomes) == [row0, row2]
  {
    assert outcomes[..0] == [];
    ExtendIndexed(outcomes, 0);
    ExtendFailed(outcomes, 1, line);
    ExtendIndexed(outcomes, 2);
    assert outcomes[..3] == outcomes;
  }
}
