/** The three flows of the service: `indexQuestions`, which indexes a batch
    one question at a time and records each failure without stopping;
    `embedAndStore`, which stores one text; and `retrieveContext`, which
    returns the contents nearest to a query. The provider's and the
    database's answers are parameters; the batch flow takes one answer per
    question. */
module Indexing {
  import opened Wrappers
  import opened JsValues
  import opened Text
  import opened Questions
  import opened Documents
  import opened Batches

  /** What one question of a batch came to: its stored row, or its error line. */
  type Outcome = Batches.Outcome<Row>

  const NoEmbedding := Error("No embedding returned")
  const NoQueryEmbedding := Error("No embedding returned for query")

  /** The line pushed to `errors` for a question whose indexing threw `e`. */
  function FailureLine(q: Question, e: Exception): (line: string)
    ensures StartsWith(line, "Failed to index \"" + q.question + "\": ")
    ensures EndsWith(line, Message(e))
    ensures |line| == |"Failed to index \""| + |q.question| + |"\": "| + |Message(e)|
  {
    var lead := "Failed to index \"" + q.question + "\": ";
    Split(lead, Message(e));
    lead + Message(e)
  }

  /** Embed `content` and insert it with `metadata`, into a table that
      exists: the row stored, or what was thrown. */
  function Store(content: string, metadata: Metadata, reply: EmbedReply, fault: Option<Exception>)
    : (r: Result<Row, Exception>)
    ensures r.Success? <==> && reply.Embedded? && reply.first.Some?
                            && fault.None? && |reply.first.value| == Dimension
    ensures r.Success? ==> r.value == Row(content, metadata, reply.first.value)
    ensures reply.EmbedThrew? ==> r == Failure(reply.error)
    ensures reply == Embedded(None) ==> r == Failure(NoEmbedding)
    ensures reply.Embedded? && reply.first.Some? && fault.Some? ==> r == Failure(fault.value)
  {
    match reply
    case EmbedThrew(e) => Failure(e)
    case Embedded(None) => Failure(NoEmbedding)
    case Embedded(Some(v)) =>
      var row := Row(content, metadata, v);
      var e := InsertError(true, row, fault);
      if e.Some? then Failure(e.value) else Success(row)
  }

  /** One iteration of the batch loop: the description is embedded and
      stored with the question as its metadata, and anything thrown
      becomes an error line naming the question. */
  function ItemOutcome(q: Question, reply: EmbedReply, fault: Option<Exception>): (r: Outcome)
    ensures r.Indexed? <==> Store(Description(q), QuestionRecord(q), reply, fault).Success?
    ensures r.Indexed? ==> r.row == Row(Description(q), QuestionRecord(q), reply.first.value)
    ensures r.Failed? ==> StartsWith(r.message, "Failed to index \"" + q.question + "\": ")
    ensures reply == Embedded(None) ==> r == Failed(FailureLine(q, NoEmbedding))
    ensures reply.EmbedThrew? ==> r == Failed(FailureLine(q, reply.error))
    ensures reply.Embedded? && reply.first.Some? && fault.Some? ==> r == Failed(FailureLine(q, fault.value))
    ensures r.Failed? ==> r.message == FailureLine(q, Store(Description(q), QuestionRecord(q), reply, fault).error)
  {
    match Store(Description(q), QuestionRecord(q), reply, fault)
    case Success(row) => Indexed(row)
    case Failure(e) => Failed(FailureLine(q, e))
  }

  /** The replies the provider and the database give to the batch, one per
      question. */
  predicate Answered(questions: seq<Question>, replies: seq<EmbedReply>, faults: seq<Option<Exception>>)
  {
    |replies| == |questions| && |faults| == |questions|
  }

  /** The outcome of every question, in input order; each depends only on
      its own question and replies, so a failure never affects another
      item. */
  function Outcomes(questions: seq<Question>, replies: seq<EmbedReply>, faults: seq<Option<Exception>>)
    : (r: seq<Outcome>)
    requires Answered(questions, replies, faults)
    ensures |r| == |questions|
  {
    seq(|questions|, i requires 0 <= i < |questions| => ItemOutcome(questions[i], replies[i], faults[i]))
  }

  /** `Outcomes` unfolded at index `i`: the outcome of the i-th question
      with its own replies. */
  lemma OutcomeOfEach(questions: seq<Question>, replies: seq<EmbedReply>, faults: seq<Option<Exception>>, i: nat)
    requires Answered(questions, replies, faults) && i < |questions|
    ensures Outcomes(questions, replies, faults)[i] == ItemOutcome(questions[i], replies[i], faults[i])
  {
  }

  /** With every question answered, the batch's count and error lines are
      those of the per-item outcomes, and the count and error lines
      account for every question exactly once. */
  lemma BatchAccountsForEveryQuestion(questions: seq<Question>, replies: seq<EmbedReply>,
                                      faults: seq<Option<Exception>>)
    requires Answered(questions, replies, faults)
    ensures var s := Summary(Outcomes(questions, replies, faults));
      s.indexedCount + |s.errors| == |questions|
  {
    Partition(Outcomes(questions, replies, faults));
  }

  /** A question's outcome does not depend on the replies to any other
      question: whatever the provider and the database answer for item
      `k`, every other item comes out the same. */
  lemma OtherItemsUnaffected(questions: seq<Question>, replies: seq<EmbedReply>,
                             faults: seq<Option<Exception>>, k: nat, reply: EmbedReply,
                             fault: Option<Exception>)
    requires Answered(questions, replies, faults) && k < |questions|
    ensures forall j :: 0 <= j < |questions| && j != k ==>
      Outcomes(questions, replies[k := reply], faults[k := fault])[j] == Outcomes(questions, replies, faults)[j]
  {
    forall j | 0 <= j < |questions| && j != k
      ensures Outcomes(questions, replies[k := reply], faults[k := fault])[j] == Outcomes(questions, replies, faults)[j]
    {
      OutcomeOfEach(questions, replies[k := reply], faults[k := fault], j);
      OutcomeOfEach(questions, replies, faults, j);
    }
  }

  /** A failed question adds only its error line to the batch's result:
      the rows and the count are those of the questions before it and of
      those after it. */
  lemma FailureIsolated(questions: seq<Question>, replies: seq<EmbedReply>,
                        faults: seq<Option<Exception>>, k: nat)
    requires Answered(questions, replies, faults) && k < |questions|
    ensures var outcomes := Outcomes(questions, replies, faults);
      outcomes[k].Failed? ==>
      && Rows(outcomes) == Rows(outcomes[..k]) + Rows(outcomes[k + 1..])
      && IndexedCount(outcomes) == IndexedCount(outcomes[..k]) + IndexedCount(outcomes[k + 1..])
  {
    if Outcomes(questions, replies, faults)[k].Failed? {
      FailedItemAddsOnlyItsLine(Outcomes(questions, replies, faults), k);
    }
  }

  /** A batch of three whose second embedding is absent: two rows stored,
      for the first and third question, and one error line naming the
      second question. */
  lemma SecondOfThreeFails(questions: seq<Question>, replies: seq<EmbedReply>,
                           faults: seq<Option<Exception>>, v1: seq<int>, v3: seq<int>)
    requires |questions| == 3 && |v1| == Dimension && |v3| == Dimension
    requires replies == [Embedded(Some(v1)), Embedded(None), Embedded(Some(v3))]
    requires faults == [None, None, None]
    ensures var outcomes := Outcomes(questions, replies, faults);
      && Summary(outcomes) == BatchSummary(2, [FailureLine(questions[1], NoEmbedding)])
      && Rows(outcomes) == [Row(Description(questions[0]), QuestionRecord(questions[0]), v1),
                            Row(Description(questions[2]), QuestionRecord(questions[2]), v3)]
  {
    var outcomes := Outcomes(questions, replies, faults);
    var row0 := Row(Description(questions[0]), QuestionRecord(questions[0]), v1);
    var row2 := Row(Description(questions[2]), QuestionRecord(questions[2]), v3);
    var line := FailureLine(questions[1], NoEmbedding);
    OutcomeOfEach(questions, replies, faults, 0);
    OutcomeOfEach(questions, replies, faults, 1);
    OutcomeOfEach(questions, replies, faults, 2);
    StoredItem(questions[0], v1);
    StoredItem(questions[2], v3);
    SuccessFailureSuccess(outcomes, row0, line, row2);
  }

  /** A question whose vector fits and whose insert raises nothing is stored. */
  lemma StoredItem(q: Question, v: seq<int>)
    requires |v| == Dimension
    ensures ItemOutcome(q, Embedded(Some(v)), None) == Indexed(Row(Description(q), QuestionRecord(q), v))
  {
  }

  /** One pass of the batch loop for question `q`: build its description,
      embed it and insert the row; a thrown error is caught and turned
      into the error line to push. */
  method IndexOne(store: DocumentStore, q: Question, reply: EmbedReply, fault: Option<Exception>)
    returns (indexed: bool, line: string)
    requires store.Valid() && store.tableExists
    modifies store`rows
    ensures store.Valid()
    ensures indexed <==> ItemOutcome(q, reply, fault).Indexed?
    ensures indexed ==> store.rows == old(store.rows) + [ItemOutcome(q, reply, fault).row]
    ensures !indexed ==> ItemOutcome(q, reply, fault) == Failed(line) && store.rows == old(store.rows)
  {
    var description := BuildDescription(q);
    var failure: Option<Exception> := None;
    match reply {
      case EmbedThrew(e) =>
        failure := Some(e);
      case Embedded(None) =>
        failure := Some(NoEmbedding);
      case Embedded(Some(vector)) =>
        var inserted := store.Insert(Row(description, QuestionRecord(q), vector), fault);
        if inserted.Failure? {
          failure := Some(inserted.error);
        }
    }
    indexed, line := failure.None?, "";
    if failure.Some? {
      line := FailureLine(q, failure.value);
    }
  }

  /** `indexQuestions`: bootstrap the schema once, then index every
      question in order, isolating each item's failure. The faults are the
      database's replies to the two bootstrap statements and to each
      item's insert; `replies` are the provider's replies to each item's
      description. */
  method IndexQuestions(store: DocumentStore, questions: seq<Question>,
                        extensionFault: Option<Exception>, tableFault: Option<Exception>,
                        replies: seq<EmbedReply>, faults: seq<Option<Exception>>)
    returns (r: Result<BatchSummary, Exception>)
    requires store.Valid() && Answered(questions, replies, faults)
    modifies store
    ensures store.Valid()
    ensures store.bootstraps == old(store.bootstraps) + 1
    ensures store.vectorEnabled == (old(store.vectorEnabled) || extensionFault.None?)
    ensures store.tableExists == (old(store.tableExists) || (extensionFault.None? && tableFault.None?))
    ensures extensionFault.Some? ==> r == Failure(extensionFault.value)
    ensures extensionFault.None? && tableFault.Some? ==> r == Failure(tableFault.value)
    ensures r.Failure? ==> store.rows == old(store.rows)
    ensures r.Success? <==> extensionFault.None? && tableFault.None?
    ensures r.Success? ==>
      && r.value == Summary(Outcomes(questions, replies, faults))
      && store.rows == old(store.rows) + Rows(Outcomes(questions, replies, faults))
  {
    var init := store.InitDB(extensionFault, tableFault);
    if init.Failure? {
      return Failure(init.error);
    }
    ghost var outcomes := Outcomes(questions, replies, faults);
    forall j | 0 <= j < |questions|
      ensures outcomes[j] == ItemOutcome(questions[j], replies[j], faults[j])
    {
      OutcomeOfEach(questions, replies, faults, j);
    }
    var summary := IndexAll(store, questions, replies, faults, outcomes);
    r := Success(summary);
  }

  /** The loop of `indexQuestions`, over a table that exists: every item in
      order, each failure caught and recorded. */
  method IndexAll(store: DocumentStore, questions: seq<Question>, replies: seq<EmbedReply>,
                  faults: seq<Option<Exception>>, ghost outcomes: seq<Outcome>)
    returns (summary: BatchSummary)
    requires store.Valid() && store.tableExists
    requires Answered(questions, replies, faults) && |outcomes| == |questions|
    requires forall j {:trigger ItemOutcome(questions[j], replies[j], faults[j])} :: 0 <= j < |questions| ==>
      outcomes[j] == ItemOutcome(questions[j], replies[j], faults[j])
    modifies store`rows
    ensures store.Valid()
    ensures summary == Summary(outcomes)
    ensures store.rows == old(store.rows) + Rows(outcomes)
  {
    var indexedCount := 0;
    var errors: seq<string> := [];
    ghost var before := store.rows;
    var i := 0;
    while i < |questions|
      invariant 0 <= i <= |questions|
      invariant store.Valid()
      invariant indexedCount == IndexedCount(outcomes[..i])
      invariant errors == Errors(outcomes[..i])
      invariant store.rows == before + Rows(outcomes[..i])
    {
      var indexed, line := IndexOne(store, questions[i], replies[i], faults[i]);
      if indexed {
        indexedCount := indexedCount + 1;
        ExtendIndexed(outcomes, i);
        Associate(before, Rows(outcomes[..i]), [outcomes[i].row]);
      } else {
        errors := errors + [line];
        ExtendFailed(outcomes, i, line);
      }
      i := i + 1;
    }
    assert outcomes[..i] == outcomes;
    summary := BatchSummary(indexedCount, errors);
  }

  /** `metadata || {}`: an absent record is stored as the empty object. */
  function MetadataOrEmpty(metadata: Option<map<string, Json>>): (m: map<string, Json>)
    ensures metadata.None? ==> m == map[]
    ensures metadata.Some? ==> m == metadata.value
  {
    if metadata.Some? then metadata.value else map[]
  }

  /** `embedAndStore`: bootstrap the schema, embed `text`, store it with its
      metadata and return true; every failure is rethrown. */
  method EmbedAndStore(store: DocumentStore, text: string, metadata: Option<map<string, Json>>,
                       extensionFault: Option<Exception>, tableFault: Option<Exception>,
                       reply: EmbedReply, fault: Option<Exception>)
    returns (r: Result<bool, Exception>)
    requires store.Valid()
    modifies store
    ensures store.Valid()
    ensures store.bootstraps == old(store.bootstraps) + 1
    ensures store.vectorEnabled == (old(store.vectorEnabled) || extensionFault.None?)
    ensures store.tableExists == (old(store.tableExists) || (extensionFault.None? && tableFault.None?))
    ensures extensionFault.Some? ==> r == Failure(extensionFault.value)
    ensures extensionFault.None? && tableFault.Some? ==> r == Failure(tableFault.value)
    ensures extensionFault.None? && tableFault.None? ==>
      var stored := Store(text, Record(MetadataOrEmpty(metadata)), reply, fault);
      && r == (if stored.Success? then Success(true) else Failure(stored.error))
      && store.rows == old(store.rows) + (if stored.Success? then [stored.value] else [])
    ensures r.Failure? ==> store.rows == old(store.rows)
  {
    var init := store.InitDB(extensionFault, tableFault);
    if init.Failure? {
      return Failure(init.error);
    }
    match reply
    case EmbedThrew(e) =>
      r := Failure(e);
    case Embedded(None) =>
      r := Failure(NoEmbedding);
    case Embedded(Some(vector)) =>
      var inserted := store.Insert(Row(text, Record(MetadataOrEmpty(metadata)), vector), fault);
      if inserted.Failure? {
        r := Failure(inserted.error);
      } else {
        r := Success(true);
      }
  }

  /** `retrieveContext`: embed the query and return the contents of the
      nearest rows, at most five, nearest first. `ranking` is the order the
      database's distance operator puts the rows in for this query. */
  method RetrieveContext(store: DocumentStore, query: string, reply: EmbedReply,
                         ranking: seq<nat>, fault: Option<Exception>)
    returns (r: Result<seq<string>, Exception>)
    requires store.Valid() && IsRanking(ranking, |store.rows|)
    ensures reply.EmbedThrew? ==> r == Failure(reply.error)
    ensures reply == Embedded(None) ==> r == Failure(NoQueryEmbedding)
    ensures r.Success? <==> reply.Embedded? && reply.first.Some? && fault.None? && store.tableExists
    ensures r.Success? ==> |r.value| == Limited(|store.rows|)
    ensures r.Success? ==> forall i :: 0 <= i < |r.value| ==> r.value[i] == store.rows[ranking[i]].content
    ensures r.Success? && store.rows == [] ==> r.value == []
    ensures reply.Embedded? && reply.first.Some? && fault.Some? ==> r == Failure(fault.value)
    ensures reply.Embedded? && reply.first.Some? && fault.None? && !store.tableExists ==> r == Failure(MissingTable)
  {
    match reply
    case EmbedThrew(e) =>
      r := Failure(e);
    case Embedded(None) =>
      r := Failure(NoQueryEmbedding);
    case Embedded(Some(_)) =>
      r := store.SelectNearest(ranking, fault);
  }
}
