/** The Cassandra store as nested maps: keyspace -> column family -> row key ->
    column name -> value, with each keyspace's definition (strategy class and
    replication factor) and its set of column families as the schema.
    Timestamps are left out: every insert is a last-write-wins upsert. */
module Store {
  import opened Errors
  import opened Codec

  /** A row key: raw bytes (Cassandra 0.7 API) or a string (Cassandra 0.6 API). */
  datatype RowKey = Binary(bytes: Bytes) | Text(text: string)

  /** Column name -> value; an empty row is a deleted ("ghost") row. */
  type Row = map<string, Bytes>

  /** A column family: its rows and the order in which a range scan visits
      their keys. A new key joins the end of the scan order; a delete leaves
      the key behind with an empty row (a tombstone), which range scans still
      report. */
  datatype Table = Table(rows: map<RowKey, Row>, order: seq<RowKey>)

  datatype Keyspace = Keyspace(strategy: string, replicationFactor: nat, families: map<string, Table>)

  /** The whole store: keyspace name -> keyspace. */
  type Schema = map<string, Keyspace>

  datatype Column = Column(name: string, value: Bytes)

  /** One row of a range scan: its key and the columns the slice predicate selected. */
  datatype KeySlice = KeySlice(key: RowKey, columns: seq<Column>)

  const EmptyTable := Table(map[], [])

  /** The scan order lists every key of the table exactly once. */
  ghost predicate WellFormed(t: Table) {
    && (forall i, j :: 0 <= i < j < |t.order| ==> t.order[i] != t.order[j])
    && (forall k :: k in t.rows <==> k in t.order)
  }

  ghost predicate WellFormedSchema(s: Schema) {
    forall ks, cf :: ks in s && cf in s[ks].families ==> WellFormed(s[ks].families[cf])
  }

  // ---------------------------------------------------------------- tables

  /** Insert one column, creating the row if the key is new. */
  function Upsert(t: Table, key: RowKey, col: string, v: Bytes): Table {
    var row := if key in t.rows then t.rows[key] else map[];
    Table(t.rows[key := row[col := v]], if key in t.rows then t.order else t.order + [key])
  }

  /** Delete a whole row (ColumnPath without a column). */
  function DeleteRow(t: Table, key: RowKey): Table {
    Table(t.rows[key := map[]], if key in t.rows then t.order else t.order + [key])
  }

  /** Delete one column of a row (ColumnPath with a column). */
  function DeleteColumn(t: Table, key: RowKey, col: string): Table {
    var row := if key in t.rows then t.rows[key] else map[];
    Table(t.rows[key := row - {col}], if key in t.rows then t.order else t.order + [key])
  }

  /** The slice for one key under a one-column name predicate. */
  function SliceOf(t: Table, key: RowKey, col: string): KeySlice {
    KeySlice(key, if key in t.rows && col in t.rows[key] then [Column(col, t.rows[key][col])] else [])
  }

  /** get_range_slices over the whole key range with the predicate "column col". */
  function Slices(t: Table, col: string): (r: seq<KeySlice>)
    ensures |r| == |t.order|
    ensures forall i :: 0 <= i < |r| ==> r[i] == SliceOf(t, t.order[i], col)
  {
    seq(|t.order|, i requires 0 <= i < |t.order| => SliceOf(t, t.order[i], col))
  }

  lemma UpsertWellFormed(t: Table, key: RowKey, col: string, v: Bytes)
    requires WellFormed(t)
    ensures WellFormed(Upsert(t, key, col, v))
  {
  }

  lemma DeleteRowWellFormed(t: Table, key: RowKey)
    requires WellFormed(t)
    ensures WellFormed(DeleteRow(t, key))
  {
  }

  lemma DeleteColumnWellFormed(t: Table, key: RowKey, col: string)
    requires WellFormed(t)
    ensures WellFormed(DeleteColumn(t, key, col))
  {
  }

  // ---------------------------------------------------------------- the store

  predicate HasFamily(s: Schema, ks: string, cf: string) {
    ks in s && cf in s[ks].families
  }

  function TableOf(s: Schema, ks: string, cf: string): Table
    requires HasFamily(s, ks, cf)
  {
    s[ks].families[cf]
  }

  /** The value at one cell, if there is one. */
  function Cell(s: Schema, ks: string, cf: string, key: RowKey, col: string): Option<Bytes> {
    if HasFamily(s, ks, cf) && key in TableOf(s, ks, cf).rows && col in TableOf(s, ks, cf).rows[key]
    then Some(TableOf(s, ks, cf).rows[key][col])
    else None
  }

  /** Keyspace names and, for each, its definition without the data. */
  function Definitions(s: Schema): map<string, (string, nat, set<string>)> {
    map ks | ks in s :: (s[ks].strategy, s[ks].replicationFactor, s[ks].families.Keys)
  }

  function WithTable(s: Schema, ks: string, cf: string, t: Table): (r: Schema)
    requires HasFamily(s, ks, cf)
    ensures Definitions(r) == Definitions(s)
  {
    var r := s[ks := s[ks].(families := s[ks].families[cf := t])];
    assert r[ks].families.Keys == s[ks].families.Keys;
    assert Definitions(r).Keys == Definitions(s).Keys;
    r
  }

  /** insert: one column of one row of one column family. */
  function Put(s: Schema, ks: string, cf: string, key: RowKey, col: string, v: Bytes): Schema
    requires HasFamily(s, ks, cf)
  {
    WithTable(s, ks, cf, Upsert(TableOf(s, ks, cf), key, col, v))
  }

  function RemoveRow(s: Schema, ks: string, cf: string, key: RowKey): Schema
    requires HasFamily(s, ks, cf)
  {
    WithTable(s, ks, cf, DeleteRow(TableOf(s, ks, cf), key))
  }

  function RemoveColumn(s: Schema, ks: string, cf: string, key: RowKey, col: string): Schema
    requires HasFamily(s, ks, cf)
  {
    WithTable(s, ks, cf, DeleteColumn(TableOf(s, ks, cf), key, col))
  }

  /** Put changes the one addressed cell and no other, and no definition. */
  lemma PutChangesOneCell(s: Schema, ks: string, cf: string, key: RowKey, col: string, v: Bytes,
                          ks': string, cf': string, key': RowKey, col': string)
    requires HasFamily(s, ks, cf)
    ensures Definitions(Put(s, ks, cf, key, col, v)) == Definitions(s)
    ensures Cell(Put(s, ks, cf, key, col, v), ks', cf', key', col') ==
            if (ks', cf', key', col') == (ks, cf, key, col) then Some(v) else Cell(s, ks', cf', key', col')
  {
  }

  /** RemoveRow empties the addressed row and changes no other cell. */
  lemma RemoveRowClearsOneRow(s: Schema, ks: string, cf: string, key: RowKey,
                              ks': string, cf': string, key': RowKey, col': string)
    requires HasFamily(s, ks, cf)
    ensures Definitions(RemoveRow(s, ks, cf, key)) == Definitions(s)
    ensures Cell(RemoveRow(s, ks, cf, key), ks', cf', key', col') ==
            if (ks', cf', key') == (ks, cf, key) then None else Cell(s, ks', cf', key', col')
  {
  }

  /** RemoveColumn clears the addressed cell and changes no other cell. */
  lemma RemoveColumnClearsOneCell(s: Schema, ks: string, cf: string, key: RowKey, col: string,
                                  ks': string, cf': string, key': RowKey, col': string)
    requires HasFamily(s, ks, cf)
    ensures Definitions(RemoveColumn(s, ks, cf, key, col)) == Definitions(s)
    ensures Cell(RemoveColumn(s, ks, cf, key, col), ks', cf', key', col') ==
            if (ks', cf', key', col') == (ks, cf, key, col) then None else Cell(s, ks', cf', key', col')
  {
  }

  // ---------------------------------------------------------------- schema

  /** The keyspace definition createKeyspace submits: the given strategy,
      replication factor 1 and no column families. */
  function NewKeyspace(strategy: string): Keyspace {
    Keyspace(strategy, 1, map[])
  }

  function AddKeyspace(s: Schema, name: string, strategy: string): Schema {
    s[name := NewKeyspace(strategy)]
  }

  function DropKeyspace(s: Schema, name: string): Schema {
    s - {name}
  }

  function AddFamily(s: Schema, ks: string, cf: string): Schema
    requires ks in s
  {
    s[ks := s[ks].(families := s[ks].families[cf := EmptyTable])]
  }

  function DropFamily(s: Schema, ks: string, cf: string): Schema
    requires ks in s
  {
    s[ks := s[ks].(families := s[ks].families - {cf})]
  }

  lemma SchemaChangesKeepWellFormed(s: Schema, name: string, strategy: string, ks: string, cf: string)
    requires WellFormedSchema(s)
    ensures WellFormedSchema(AddKeyspace(s, name, strategy))
    ensures WellFormedSchema(DropKeyspace(s, name))
    ensures ks in s ==> WellFormedSchema(AddFamily(s, ks, cf)) && WellFormedSchema(DropFamily(s, ks, cf))
  {
  }
}
