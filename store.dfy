/**
 * The Milvus collection, reduced to what the crawlers depend on: an
 * append-only sequence of rows, and insert calls that either append their
 * whole batch or raise. Which calls raise (a server error, a lost
 * connection) is scripted by `faults`; a payload that does not fit the
 * schema raises as well.
 */
module VectorStore {
  import opened Wrappers
  import opened Json
  import opened Embedding

  /** A row of the `user_data` collection (`vector`, `metadata`, `keyword`); `metadata` is the object that `json.dumps` serialises. */
  datatype UserRow = UserRow(vector: Vector, metadata: JValue, keyword: string)

  /** The state of a collection after one insert call, and whether the call succeeded. */
  datatype Stored<R> = Stored(rows: seq<R>, faults: seq<bool>, ok: bool)

  /**
   * One `collection.insert(batch)`: `batch` is `None` when the payload does not
   * fit the schema. The call consumes one scripted outcome (an empty script
   * means no more faults) and appends the whole batch exactly when it succeeds.
   */
  function InsertOutcome<R>(rows: seq<R>, faults: seq<bool>, batch: Option<seq<R>>): (s: Stored<R>)
    ensures s.ok <==> batch.Some? && (faults == [] || !faults[0])
    ensures s.rows == if s.ok then rows + batch.value else rows
    ensures s.faults == if faults == [] then [] else faults[1..]
  {
    var fails := faults != [] && faults[0];
    var rest := if faults == [] then [] else faults[1..];
    if batch.Some? && !fails then Stored(rows + batch.value, rest, true) else Stored(rows, rest, false)
  }

  /** Appending `first` and then `others` leaves the rows that appending `first + others` at once does. */
  lemma AppendTwice<R>(before: seq<R>, first: seq<R>, others: seq<R>)
    ensures (before + first) + others == before + (first + others)
  {
  }

  class Collection<R> {
    /** Every row inserted so far, oldest first. */
    var rows: seq<R>
    /** Scripted outcome of the coming insert calls: `true` makes that call raise. */
    var faults: seq<bool>

    constructor (rows: seq<R>, faults: seq<bool>)
      ensures this.rows == rows && this.faults == faults
    {
      this.rows := rows;
      this.faults := faults;
    }

    /** Drop the collection and create it again, empty (the search crawlers' `init_milvus`). */
    method Recreate()
      modifies this
      ensures rows == [] && faults == old(faults)
    {
      rows := [];
    }

    method Insert(batch: Option<seq<R>>) returns (ok: bool)
      modifies this
      ensures Stored(rows, faults, ok) == InsertOutcome(old(rows), old(faults), batch)
    {
      var s := InsertOutcome(rows, faults, batch);
      rows, faults, ok := s.rows, s.faults, s.ok;
    }
  }

  /**
   * The column-wise payload `[vectors, metadatas, keywords]` as rows: Milvus
   * refuses columns of different lengths.
   */
  function UserColumns(vectors: seq<Vector>, metadata: seq<JValue>, keywords: seq<string>): (r: Option<seq<UserRow>>)
    ensures r.Some? <==> |vectors| == |metadata| == |keywords|
    ensures r.Some? ==> |r.value| == |vectors|
    ensures r.Some? ==> forall i :: 0 <= i < |vectors| ==> r.value[i] == UserRow(vectors[i], metadata[i], keywords[i])
  {
    if |vectors| == |metadata| == |keywords| then
      Some(seq(|vectors|, i requires 0 <= i < |vectors| => UserRow(vectors[i], metadata[i], keywords[i])))
    else None
  }

  /** The range of Milvus's `INT64` fields; larger values are refused. */
  predicate IsInt64(x: int) {
    -0x8000_0000_0000_0000 <= x < 0x8000_0000_0000_0000
  }
}
