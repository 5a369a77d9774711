/** Items on their way to the pipelines: rows, groups, what a flush leaves behind, and when a row
    counts as settled. */
module ItemBuffer {
  import opened Seqs

  /** Rows of one group go to the same pipelines in one call. */
  datatype Key = Key(table: string, isUpdate: bool, pipes: Option<seq<string>>)

  /** A normalized item; `id` tells items apart. */
  datatype Row = Row(id: nat, key: Key, fp: Option<string>)

  datatype Group = Group(key: Key, rows: seq<Row>)

  function Flat(groups: seq<Group>): seq<Row> {
    if groups == [] then [] else Flat(groups[..|groups| - 1]) + groups[|groups| - 1].rows
  }

  /** Append the row to the group of its key, or open a new group at the end. */
  function Insert(groups: seq<Group>, row: Row): seq<Group> {
    if groups == [] then [Group(row.key, [row])]
    else if groups[0].key == row.key then [groups[0].(rows := groups[0].rows + [row])] + groups[1..]
    else [groups[0]] + Insert(groups[1..], row)
  }

  predicate HasKey(groups: seq<Group>, key: Key) {
    groups != [] && (groups[0].key == key || HasKey(groups[1..], key))
  }

  /** Every group holds rows of its own key only, and no key has two groups. */
  ghost predicate WellGrouped(groups: seq<Group>) {
    groups == [] ||
    (&& groups[0].rows != [] && (forall k | 0 <= k < |groups[0].rows| :: groups[0].rows[k].key == groups[0].key)
     && !HasKey(groups[1..], groups[0].key) && WellGrouped(groups[1..]))
  }

  lemma {:induction false} FlatFront(groups: seq<Group>)
    requires groups != []
    ensures Flat(groups) == groups[0].rows + Flat(groups[1..])
  {
    var n := |groups| - 1;
    if n > 0 {
      FlatFront(groups[..n]);
      assert groups[..n][1..] == groups[1..][..n - 1];
      assert groups[1..][|groups[1..]| - 1] == groups[n];
    } else {
      assert groups[..0] == [] && groups[1..] == [];
    }
  }

  /** Inserting adds exactly the one row to the grouped rows. */
  lemma {:induction false} InsertFlat(groups: seq<Group>, row: Row)
    ensures |Flat(Insert(groups, row))| == |Flat(groups)| + 1
    ensures forall r :: r in Flat(Insert(groups, row)) <==> r in Flat(groups) || r == row
  {
    var out := Insert(groups, row);
    FlatFront(out);
    if groups == [] {
      assert out[1..] == [];
    } else {
      FlatFront(groups);
      if groups[0].key == row.key {
        assert out[1..] == groups[1..];
      } else {
        InsertFlat(groups[1..], row);
        assert out[1..] == Insert(groups[1..], row);
      }
    }
  }

  lemma {:induction false} InsertKeys(groups: seq<Group>, row: Row, key: Key)
    ensures HasKey(Insert(groups, row), key) <==> HasKey(groups, key) || key == row.key
  {
    if groups != [] && groups[0].key != row.key {
      InsertKeys(groups[1..], row, key);
    }
  }

  lemma {:induction false} InsertGrouped(groups: seq<Group>, row: Row)
    requires WellGrouped(groups)
    ensures WellGrouped(Insert(groups, row))
  {
    if groups != [] && groups[0].key != row.key {
      InsertGrouped(groups[1..], row);
      InsertKeys(groups[1..], row, groups[0].key);
      assert Insert(groups, row)[1..] == Insert(groups[1..], row);
    }
  }

  // ---------------------------------------------------------------- what is left behind

  /** What a batch leaves behind: rows accepted by every pipeline of their group, rows dumped,
      the exact filter, and the counters. */
  datatype Sink = Sink(written: seq<Row>, dumped: seq<Row>, recorded: set<string>,
                       item: nat, failed: nat, deduped: nat)

  function Counted(s: Sink): nat {
    s.item + s.failed + s.deduped
  }

  ghost predicate HasFp(rows: seq<Row>, fp: string) {
    exists r :: r in rows && r.fp == Some(fp)
  }

  ghost predicate AllShown(seen: set<string>, rows: seq<Row>) {
    forall fp | fp in seen :: HasFp(rows, fp)
  }

  /** A fingerprint is in the filter only if a row carrying it was written. */
  ghost predicate RecordedOnlyIfWritten(s: Sink) {
    forall fp | fp in s.recorded :: HasFp(s.written, fp)
  }

  /** A row of the same batch with this fingerprint was dumped. */
  ghost predicate TwinDumped(s: Sink, batch: seq<Row>, fp: string) {
    exists r :: r in batch && r in s.dumped && r.fp == Some(fp)
  }

  /** The row was written or dumped, or is a duplicate of a row that was written, or of a row
      that was dumped in the same batch. */
  ghost predicate Settled(s: Sink, filterOn: bool, batch: seq<Row>, row: Row) {
    || row in s.written || row in s.dumped
    || (filterOn && row.fp.Some? && (HasFp(s.written, row.fp.value) || TwinDumped(s, batch, row.fp.value)))
  }

  ghost predicate BatchSettled(s: Sink, filterOn: bool, batch: seq<Row>) {
    forall i | 0 <= i < |batch| :: Settled(s, filterOn, batch, batch[i])
  }

  lemma {:induction false} FlatPrefix(groups: seq<Group>, g: nat)
    requires g <= |groups|
    ensures |Flat(groups[..g])| <= |Flat(groups)|
    decreases |groups| - g
  {
    if g < |groups| {
      FlatPrefix(groups, g + 1);
      assert groups[..g + 1][..g] == groups[..g];
    } else {
      assert groups[..g] == groups;
    }
  }

  /** Settled rows stay settled as the sink grows. */
  lemma SettledStays(s: Sink, t: Sink, filterOn: bool, batch: seq<Row>, row: Row)
    requires s.written <= t.written && s.dumped <= t.dumped && Settled(s, filterOn, batch, row)
    ensures Settled(t, filterOn, batch, row)
  {
    assert forall r | r in s.written :: r in t.written;
    assert forall r | r in s.dumped :: r in t.dumped;
  }
}
