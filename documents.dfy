/** The `documents` table behind the service's connection pool, and what the
    embedding provider answers. Both are outside the program: the database
    is a class whose fields are the table's state, and every reply that the
    database or the provider could give is an explicit parameter. */
module Documents {
  import opened Wrappers
  import opened JsValues
  import opened Text
  import opened Questions

  /** The declared width of the `embedding vector(3072)` column. */
  const Dimension := 3072

  /** The JSONB `metadata` column: the indexed question itself, or the
      record handed to `embedAndStore`. */
  datatype Metadata = QuestionRecord(question: Question) | Record(fields: map<string, Json>)

  /** One row of `documents`; the serial `id` is left out. Vector entries
      are floats in the source and integers here. */
  datatype Row = Row(content: string, metadata: Metadata, embedding: seq<int>)

  /** What `ai.embed` yields: it rejects with an exception, or it resolves
      and `embedding[0]?.embedding` is either absent or a vector. */
  datatype EmbedReply = EmbedThrew(error: Exception) | Embedded(first: Option<seq<int>>)

  const MissingTable := Error("relation \"documents\" does not exist")

  /** How pgvector refuses a vector that does not fit the column. */
  function DimensionError(v: seq<int>): (r: Option<Exception>)
    ensures r.None? <==> |v| == Dimension
  {
    if |v| == 0 then Some(Error("vector must have at least 1 dimension"))
    else if |v| != Dimension then
      Some(Error("expected 3072 dimensions, not " + IntToString(|v|)))
    else None
  }

  /** The error an INSERT into the table raises, if any: the database's own
      failure (connection, constraint), a missing table, or a vector of the
      wrong width. */
  function InsertError(tableExists: bool, row: Row, fault: Option<Exception>): (r: Option<Exception>)
    ensures r.None? <==> fault.None? && tableExists && |row.embedding| == Dimension
    ensures fault.Some? ==> r == fault
  {
    if fault.Some? then fault
    else if !tableExists then Some(MissingTable)
    else DimensionError(row.embedding)
  }

  /** `ranking` lists every row index exactly once, nearest first: the
      order in which `ORDER BY embedding <=> $1` returns the rows. */
  ghost predicate IsRanking(ranking: seq<nat>, n: nat)
  {
    && |ranking| == n
    && (forall i :: 0 <= i < n ==> ranking[i] < n)
    && (forall i, j :: 0 <= i < j < n ==> ranking[i] != ranking[j])
  }

  /** The number of rows a `LIMIT 5` query returns from `n` rows. */
  function Limited(n: nat): (k: nat)
    ensures k <= 5 && k <= n
    ensures k == 5 || k == n
  {
    if n < 5 then n else 5
  }

  class DocumentStore {
    /** `CREATE EXTENSION vector` has taken effect. */
    var vectorEnabled: bool
    /** `CREATE TABLE documents` has taken effect. */
    var tableExists: bool
    /** The rows, oldest first. */
    var rows: seq<Row>
    /** How many times the schema bootstrap has been run. */
    ghost var bootstraps: nat

    /** The table needs the vector type, holds rows only once created, and
        every stored vector has the column's width. */
    ghost predicate Valid()
      reads this
    {
      && (tableExists ==> vectorEnabled)
      && (rows != [] ==> tableExists)
      && (forall i :: 0 <= i < |rows| ==> |rows[i].embedding| == Dimension)
    }

    /** A fresh database: no extension, no table, no rows. */
    constructor ()
      ensures Valid()
      ensures !vectorEnabled && !tableExists && rows == [] && bootstraps == 0
    {
      vectorEnabled, tableExists, rows := false, false, [];
      bootstraps := 0;
    }

    /** `initDB`: create the extension, then the table, each only if absent.
        The two faults are the database's replies to the two statements. */
    method InitDB(extensionFault: Option<Exception>, tableFault: Option<Exception>)
      returns (r: Result<(), Exception>)
      requires Valid()
      modifies this
      ensures Valid()
      ensures r == if extensionFault.Some? then Failure(extensionFault.value)
                   else if tableFault.Some? then Failure(tableFault.value)
                   else Success(())
      ensures vectorEnabled == (old(vectorEnabled) || extensionFault.None?)
      ensures tableExists == (old(tableExists) || (extensionFault.None? && tableFault.None?))
      ensures r.Success? ==> vectorEnabled && tableExists
      ensures rows == old(rows)
      ensures bootstraps == old(bootstraps) + 1
    {
      bootstraps := bootstraps + 1;
      if extensionFault.Some? {
        return Failure(extensionFault.value);
      }
      vectorEnabled := true;
      if tableFault.Some? {
        return Failure(tableFault.value);
      }
      tableExists := true;
      r := Success(());
    }

    /** `INSERT INTO documents (content, metadata, embedding)`: appends the
        row exactly when no error is raised. */
    method Insert(row: Row, fault: Option<Exception>) returns (r: Result<(), Exception>)
      requires Valid()
      modifies this`rows
      ensures Valid()
      ensures r.Success? <==> InsertError(tableExists, row, fault).None?
      ensures r.Failure? ==> r.error == InsertError(tableExists, row, fault).value
      ensures rows == if r.Success? then old(rows) + [row] else old(rows)
    {
      var e := InsertError(tableExists, row, fault);
      if e.Some? {
        return Failure(e.value);
      }
      rows := rows + [row];
      r := Success(());
    }

    /** `SELECT content FROM documents ORDER BY embedding <=> $1 LIMIT 5`:
        the contents of the five nearest rows, nearest first. The ranking
        the vector index computes is given as `ranking`. */
    method SelectNearest(ranking: seq<nat>, fault: Option<Exception>)
      returns (r: Result<seq<string>, Exception>)
      requires Valid() && IsRanking(ranking, |rows|)
      ensures fault.Some? ==> r == Failure(fault.value)
      ensures fault.None? && !tableExists ==> r == Failure(MissingTable)
      ensures r.Success? <==> fault.None? && tableExists
      ensures r.Success? ==> |r.value| == Limited(|rows|)
      ensures r.Success? ==> forall i :: 0 <= i < |r.value| ==> r.value[i] == rows[ranking[i]].content
    {
      if fault.Some? {
        return Failure(fault.value);
      }
      if !tableExists {
        return Failure(MissingTable);
      }
      var stored, k := rows, Limited(|rows|);
      var contents := seq(k, i requires 0 <= i < k => stored[ranking[i]].content);
      r := Success(contents);
    }
  }
}
