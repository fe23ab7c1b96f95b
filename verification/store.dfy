/**
 * The Supabase `messages` table as the relay sees it: rows appended in
 * `created_at` order, each with a `notified` flag that the relay writes
 * `false` on insert and `true` after a dispatched notification. A row's id
 * is its position in the table.
 */
module Store {
  import opened Wrappers
  import opened Frames

  /** Most rows fetched for history replay (`limit=100`). */
  const HistoryLimit: nat := 100

  /** The `notified` value of a row as JSON: the field may be missing or `null`. */
  datatype Notified = Absent | Null | Flag(value: bool)

  datatype Row = Row(author: string, content: string, notified: Notified)

  /** What the POST of a new row came to. */
  datatype InsertOutcome =
    | Created      // 201 with the created row, whose id is read back
    | StoredOnly   // the row was stored, but no id was read back
    | NotStored    // the request failed or was refused

  /** What the GET of one row's `notified` field came to. */
  datatype FlagRead =
    | ReadFailed            // the request raised or the status was not 200
    | NoRow                 // status 200 with an empty list
    | Field(field: Notified)

  /** `notified = row.get("notified", True)`, then `if not notified`: a missing field counts as true, `null` as false. */
  predicate Unnotified(n: Notified)
    ensures n == Absent ==> !Unnotified(n)
    ensures n == Null ==> Unnotified(n)
    ensures n.Flag? ==> (Unnotified(n) <==> !n.value)
  {
    match n
    case Absent => false
    case Null => true
    case Flag(b) => !b
  }

  /** Whether the check at the notify step lets the push through. */
  predicate Dispatches(r: FlagRead)
    ensures Dispatches(r) <==> r.Field? && r.field in {Null, Flag(false)}
  {
    r.Field? && Unnotified(r.field)
  }

  /** The row a frame is stored as: author, content and `notified: false`. */
  function NewRow(m: Message): (r: Row)
    ensures r.author == m.author && r.content == m.content
    ensures Unnotified(r.notified)
  {
    Row(m.author, m.content, Flag(false))
  }

  /** The GET `?id=eq.<id>&select=notified`, given whether it succeeded with status 200. */
  function ReadFlag(rows: seq<Row>, id: nat, reachable: bool): (r: FlagRead)
    ensures !reachable ==> r == ReadFailed
    ensures reachable && id >= |rows| ==> r == NoRow
    ensures reachable && id < |rows| ==> r == Field(rows[id].notified)
  {
    if !reachable then ReadFailed
    else if id < |rows| then Field(rows[id].notified)
    else NoRow
  }

  /** The PATCH `?id=eq.<id>` with `{notified: true}`: only that row changes, and only its flag. */
  function Marked(rows: seq<Row>, id: nat): (r: seq<Row>)
    ensures |r| == |rows|
    ensures forall i :: 0 <= i < |rows| && i != id ==> r[i] == rows[i]
    ensures id < |rows| ==> r[id] == Row(rows[id].author, rows[id].content, Flag(true))
  {
    if id < |rows| then rows[id := Row(rows[id].author, rows[id].content, Flag(true))] else rows
  }

  /** The history query: `order=created_at.asc&limit=100` gives the OLDEST rows, not the latest. */
  function History(rows: seq<Row>): (r: seq<Row>)
    ensures |r| == if |rows| < HistoryLimit then |rows| else HistoryLimit
    ensures r <= rows
  {
    if |rows| < HistoryLimit then rows else rows[..HistoryLimit]
  }

  /**
   * How the table may evolve under the relay: rows are only appended, an
   * existing row keeps its author and content, and its flag either stays as
   * it is or becomes `true` — it is never written back to `false`.
   */
  ghost predicate Evolves(before: seq<Row>, after: seq<Row>)
  {
    |before| <= |after| &&
    forall i :: 0 <= i < |before| ==>
      after[i].author == before[i].author &&
      after[i].content == before[i].content &&
      (after[i].notified == before[i].notified || after[i].notified == Flag(true))
  }

  class MessageStore {
    var rows: seq<Row>

    /** A table holding whatever rows it already had. */
    constructor (initial: seq<Row>)
      ensures rows == initial
    {
      rows := initial;
    }

    /** POST a new row with `notified: false`; `id` is set only when the response was 201 with the created row. */
    method Insert(m: Message, outcome: InsertOutcome) returns (id: Option<nat>)
      modifies this
      ensures rows == if outcome.NotStored? then old(rows) else old(rows) + [NewRow(m)]
      ensures id == if outcome.Created? then Some(|old(rows)|) else None
      ensures Evolves(old(rows), rows)
    {
      id := None;
      if !outcome.NotStored? {
        rows := rows + [NewRow(m)];
        if outcome.Created? {
          id := Some(|rows| - 1);
        }
      }
    }

    /** PATCH the row's flag to `true`; `applied` says whether the request reached the table. */
    method SetNotified(id: nat, applied: bool)
      modifies this
      ensures rows == if applied then Marked(old(rows), id) else old(rows)
      ensures Evolves(old(rows), rows)
    {
      if applied {
        rows := Marked(rows, id);
      }
    }
  }

  /**
   * The check before a push: it goes ahead exactly when the read succeeded
   * with a row for that id whose flag is `null` or `false`.
   */
  lemma DispatchDecision(rows: seq<Row>, id: nat, reachable: bool)
    ensures Dispatches(ReadFlag(rows, id, reachable)) <==>
      reachable && id < |rows| && rows[id].notified in {Null, Flag(false)}
  {
  }

  /** The id handed back by a successful insert reads back as not yet notified. */
  lemma InsertedRowDispatches(rows: seq<Row>, m: Message)
    ensures Dispatches(ReadFlag(rows + [NewRow(m)], |rows|, true))
  {
  }

  /** Once the patch has reached the table, a later check on that id never dispatches again. */
  lemma MarkedStopsDispatch(rows: seq<Row>, id: nat, reachable: bool)
    ensures !Dispatches(ReadFlag(Marked(rows, id), id, reachable))
  {
  }

  /** Marking touches no other row's dispatch decision. */
  lemma MarkedKeepsOthers(rows: seq<Row>, id: nat, other: nat, reachable: bool)
    requires other != id
    ensures ReadFlag(Marked(rows, id), other, reachable) == ReadFlag(rows, other, reachable)
  {
  }

  /** Marking and appending are the only writes, and both are allowed evolutions. */
  lemma MarkedEvolves(rows: seq<Row>, id: nat)
    ensures Evolves(rows, Marked(rows, id))
  {
  }

  /** Allowed evolutions compose, so the flag never reverts over any number of steps. */
  lemma EvolvesTransitive(a: seq<Row>, b: seq<Row>, c: seq<Row>)
    requires Evolves(a, b) && Evolves(b, c)
    ensures Evolves(a, c)
  {
    forall i | 0 <= i < |a|
      ensures c[i].notified == a[i].notified || c[i].notified == Flag(true)
    {
      assert b[i].notified == a[i].notified || b[i].notified == Flag(true);
    }
  }

  /** Under an allowed evolution, a row marked notified stays marked. */
  lemma EvolvesKeepsNotified(before: seq<Row>, after: seq<Row>, id: nat)
    requires Evolves(before, after)
    requires id < |before| && before[id].notified == Flag(true)
    ensures ReadFlag(after, id, true) == Field(Flag(true))
  {
  }

  /**
   * Once the table holds 100 rows, appending more never changes what a new
   * connection is replayed: the history is the first 100 rows ever stored.
   */
  lemma HistoryFrozen(rows: seq<Row>, r: Row)
    requires |rows| >= HistoryLimit
    ensures History(rows + [r]) == History(rows)
  {
    assert (rows + [r])[..HistoryLimit] == rows[..HistoryLimit];
  }
}
