/**
 The tabular sections of a MOEX ISS securities response and the scan that
 every quote lookup performs over one of them.

 A section is a `columns` header and a `data` list of rows. A lookup
 resolves two column positions by name (the value column and `BOARDID`),
 and then returns the value of the first row, in row order, that is long
 enough, whose board is on an allow-list and, for some lookups, whose value
 is not null.
 */
module Iss {
  import opened Common
  import opened PyList

  /** A JSON cell: `null`, a string, or a number kept as the text Python
      prints for it (prices are never computed with, only shown). */
  datatype Value = Null | Str(text: string) | Num(literal: string)

  type Row = seq<Value>

  /** One section (`marketdata` or `securities`) of the response. A section
      missing from the JSON reads as one without rows. */
  datatype Table = Table(columns: seq<string>, data: seq<Row>)

  /** The response to `GET .../securities/<ticker>.json`. */
  datatype Document = Document(marketdata: Table, securities: Table)

  const BoardColumn: string := "BOARDID"

  /** What a lookup looks for: the value column, the boards whose rows it
      accepts (an if/elif chain over board codes in the source, kept in
      chain order), and whether rows with a null value are skipped. */
  datatype Probe = Probe(column: string, boards: seq<string>, skipNull: bool)

  /** The error taxonomy of a lookup, or the value it found. */
  datatype Outcome = Hit(value: Value) | NoRows | MissingColumn | NoMatch

  /** Python's `str(v)`, as an f-string renders a cell. */
  function Render(v: Value): string {
    match v
    case Null => "None"
    case Str(s) => s
    case Num(lit) => lit
  }

  /** The positions of the probe's value column and of `BOARDID`, each the
      first occurrence, when both columns are present. */
  function Positions(t: Table, column: string): (r: Option<(nat, nat)>)
    ensures r.None? <==> column !in t.columns || BoardColumn !in t.columns
    ensures r.Some? ==> r.value.0 < |t.columns| && t.columns[r.value.0] == column
    ensures r.Some? ==> r.value.1 < |t.columns| && t.columns[r.value.1] == BoardColumn
  {
    match (IndexOf(t.columns, column), IndexOf(t.columns, BoardColumn))
    case (Some(vi), Some(bi)) => Some((vi, bi))
    case _ => None
  }

  /** The row test of the if/elif chain: long enough to hold the value,
      on one of the probe's boards, and non-null when nulls are skipped.
      (`bi < |row|` is what the source's unchecked `entry[boardid_index]`
      needs; `Indexable` guarantees it for every row that passes the length
      test.) */
  predicate Accepts(p: Probe, vi: nat, bi: nat, row: Row) {
    && |row| > vi
    && bi < |row|
    && row[bi].Str? && row[bi].text in p.boards
    && (!p.skipNull || row[vi] != Null)
  }

  /** Every row that passes the value-length test also holds a board cell,
      so the source's `entry[boardid_index]` never raises `IndexError`. */
  predicate Indexable(t: Table, column: string) {
    match Positions(t, column)
    case None => true
    case Some((vi, bi)) => forall row <- t.data :: |row| > vi ==> |row| > bi
  }

  /** Every row is at least as long as the header. */
  predicate WellShaped(t: Table) {
    forall row <- t.data :: |row| >= |t.columns|
  }

  /** A table whose rows are as long as its header can be scanned for any
      column. */
  lemma WellShapedIndexable(t: Table, column: string)
    requires WellShaped(t)
    ensures Indexable(t, column)
  {
  }

  /** Row `k` of `t` is accepted by probe `p`. */
  predicate RowAccepted(t: Table, p: Probe, k: int) {
    && 0 <= k < |t.data|
    && Positions(t, p.column).Some?
    && Accepts(p, Positions(t, p.column).value.0, Positions(t, p.column).value.1, t.data[k])
  }

  /** Row `k` is the first row of `t` that `p` accepts. */
  predicate FirstAcceptedRow(t: Table, p: Probe, k: int) {
    RowAccepted(t, p, k) && forall j :: 0 <= j < k ==> !RowAccepted(t, p, j)
  }

  /** The index of the first accepted row among `rows`, by a scan in row
      order. */
  function FirstAccepted(rows: seq<Row>, p: Probe, vi: nat, bi: nat): (r: Option<nat>)
    ensures r.Some? ==> r.value < |rows| && Accepts(p, vi, bi, rows[r.value])
    ensures r.Some? ==> forall j :: 0 <= j < r.value ==> !Accepts(p, vi, bi, rows[j])
    ensures r.None? ==> forall j :: 0 <= j < |rows| ==> !Accepts(p, vi, bi, rows[j])
    decreases |rows|
  {
    if rows == [] then None
    else if Accepts(p, vi, bi, rows[0]) then Some(0)
    else
      match FirstAccepted(rows[1..], p, vi, bi)
      case None => None
      case Some(k) => Some(k + 1)
  }

  /** The four steps every `get_*` lookup takes: no rows is "not found";
      a missing column is a schema error, decided before any row is looked
      at; otherwise the value of the first accepted row, or "no match". */
  function Lookup(t: Table, p: Probe): (r: Outcome)
    requires Indexable(t, p.column)
    ensures r == NoRows <==> t.data == []
    ensures r == MissingColumn <==> t.data != [] && (p.column !in t.columns || BoardColumn !in t.columns)
    ensures r == NoMatch <==>
              && t.data != [] && Positions(t, p.column).Some?
              && forall k :: 0 <= k < |t.data| ==> !RowAccepted(t, p, k)
    ensures r.Hit? ==>
              exists k :: FirstAcceptedRow(t, p, k) && r.value == t.data[k][Positions(t, p.column).value.0]
    ensures r.Hit? && p.skipNull ==> r.value != Null
  {
    if t.data == [] then NoRows
    else
      match Positions(t, p.column)
      case None => MissingColumn
      case Some((vi, bi)) =>
        match FirstAccepted(t.data, p, vi, bi)
        case None => NoMatch
        case Some(k) =>
          assert FirstAcceptedRow(t, p, k);
          Hit(t.data[k][vi])
  }

  /** A schema error is decided on the header alone: two non-empty tables
      with the same header that lacks a needed column look up alike,
      whatever their rows hold. */
  lemma MissingColumnIgnoresRows(t: Table, u: Table, p: Probe)
    requires t.columns == u.columns && t.data != [] && u.data != []
    requires p.column !in t.columns || BoardColumn !in t.columns
    ensures Indexable(t, p.column) && Indexable(u, p.column)
    ensures Lookup(t, p) == Lookup(u, p) == MissingColumn
  {
  }

  /** The answer a lookup owes, stated without the scan: the not-found
      message for an empty row list, the schema message for a missing
      column, otherwise the value of the first accepted row, or the
      no-match message when no row is accepted. */
  ghost predicate Answers(t: Table, p: Probe, r: Reply<Value>, notFound: string, schema: string, noMatch: string) {
    if t.data == [] then r == Err(notFound)
    else if p.column !in t.columns || BoardColumn !in t.columns then r == Err(schema)
    else if exists k :: RowAccepted(t, p, k) then
      exists k :: FirstAcceptedRow(t, p, k) && r == Ok(t.data[k][Positions(t, p.column).value.0])
    else r == Err(noMatch)
  }

  /** Turns an outcome into the source's `(value, message)` convention. */
  function Respond(o: Outcome, notFound: string, schema: string, noMatch: string): Reply<Value> {
    match o
    case Hit(v) => Ok(v)
    case NoRows => Err(notFound)
    case MissingColumn => Err(schema)
    case NoMatch => Err(noMatch)
  }

  /** `Respond` after `Lookup` gives exactly the answer `Answers` asks
      for, with the lookup's three messages. */
  lemma LookupAnswers(t: Table, p: Probe, notFound: string, schema: string, noMatch: string)
    requires Indexable(t, p.column)
    ensures Answers(t, p, Respond(Lookup(t, p), notFound, schema, noMatch), notFound, schema, noMatch)
  {
    var o := Lookup(t, p);
    if t.data != [] && p.column in t.columns && BoardColumn in t.columns && exists k :: RowAccepted(t, p, k) {
      var k :| RowAccepted(t, p, k);
      assert o != NoMatch;
    }
  }
}
