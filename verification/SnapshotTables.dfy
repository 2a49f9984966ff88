/** Writing a pulled snapshot over one local table, which holds the rows of several workspaces. */
module SnapshotTables {
  import opened Numbers

  datatype Row = Row(workspace: int, value: int)

  datatype Keyed = Keyed(key: int, row: Row)

  /** The row that the last entry for a key puts. */
  function LastFor(rows: seq<Keyed>, key: int): (found: Option<Row>)
    ensures found.Some? ==> Keyed(key, found.value) in rows
    ensures found.None? <==> forall k :: 0 <= k < |rows| ==> rows[k].key != key
  {
    if rows == [] then None
    else if rows[|rows| - 1].key == key then Some(rows[|rows| - 1].row)
    else LastFor(rows[..|rows| - 1], key)
  }

  function Lookup(table: map<int, Row>, key: int): Option<Row> {
    if key in table then Some(table[key]) else None
  }

  /** The row under a key once the entries were put over the table. */
  function Overlaid(table: map<int, Row>, rows: seq<Keyed>, key: int): Option<Row> {
    if LastFor(rows, key).Some? then LastFor(rows, key) else Lookup(table, key)
  }

  lemma OverlayNext(table: map<int, Row>, rows: seq<Keyed>, entry: Keyed)
    ensures forall key :: Overlaid(table, rows + [entry], key) == if key == entry.key then Some(entry.row) else Overlaid(table, rows, key)
  {
    assert (rows + [entry])[..|rows|] == rows;
  }

  /** After a replacement: what the snapshot brought, else what another workspace had. */
  function Replaced(table: map<int, Row>, workspace: int, rows: seq<Keyed>, key: int): Option<Row> {
    if LastFor(rows, key).Some? then LastFor(rows, key)
    else if key in table && table[key].workspace != workspace then Some(table[key])
    else None
  }

  class Table {
    var rows: map<int, Row>

    /** replaceWorkspaceRows: delete the workspace's rows, put the snapshot's. */
    method ReplaceWorkspaceRows(workspace: int, snapshot: seq<Keyed>)
      modifies this
      ensures forall key :: Lookup(rows, key) == Replaced(old(rows), workspace, snapshot, key)
    {
      var before, keys := rows, rows.Keys;
      while keys != {}
        invariant keys <= before.Keys
        invariant forall key :: key in rows <==> key in before && (key in keys || before[key].workspace != workspace)
        invariant forall key :: key in rows ==> rows[key] == before[key]
        decreases |keys|
      {
        var key := PickKey(keys);
        keys := keys - {key};
        if before[key].workspace == workspace { rows := rows - {key}; }
      }
      ghost var kept := rows;
      var k := 0;
      while k < |snapshot|
        invariant k <= |snapshot|
        invariant forall key :: Lookup(rows, key) == Overlaid(kept, snapshot[..k], key)
      {
        assert snapshot[..k + 1] == snapshot[..k] + [snapshot[k]];
        OverlayNext(kept, snapshot[..k], snapshot[k]);
        rows := rows[snapshot[k].key := snapshot[k].row];
        k := k + 1;
      }
      assert snapshot[..k] == snapshot;
    }

    /** mergeWorkspaceRows: put the rows of this workspace and delete nothing. */
    method MergeWorkspaceRows(workspace: int, snapshot: seq<Keyed>)
      modifies this
      ensures forall key :: Lookup(rows, key) == Overlaid(old(rows), Own(snapshot, workspace), key)
    {
      ghost var before := rows;
      var k := 0;
      while k < |snapshot|
        invariant k <= |snapshot|
        invariant forall key :: Lookup(rows, key) == Overlaid(before, Own(snapshot[..k], workspace), key)
      {
        assert snapshot[..k + 1][..k] == snapshot[..k];
        ghost var own := Own(snapshot[..k], workspace);
        if snapshot[k].row.workspace == workspace {
          assert Own(snapshot[..k + 1], workspace) == own + [snapshot[k]];
          OverlayNext(before, own, snapshot[k]);
          rows := rows[snapshot[k].key := snapshot[k].row];
        } else {
          assert Own(snapshot[..k + 1], workspace) == own;
        }
        k := k + 1;
      }
      assert snapshot[..k] == snapshot;
    }
  }

  /** The entries of a snapshot that belong to the workspace. */
  function Own(snapshot: seq<Keyed>, workspace: int): seq<Keyed> {
    if snapshot == [] then []
    else
      var last := snapshot[|snapshot| - 1];
      Own(snapshot[..|snapshot| - 1], workspace) + if last.row.workspace == workspace then [last] else []
  }

  /** Entry k is the last one for its key. */
  predicate IsLast(rows: seq<Keyed>, k: int, key: int) {
    0 <= k < |rows| && rows[k].key == key && forall j :: k < j < |rows| ==> rows[j].key != key
  }

  /** Of several entries for a key the last one counts. */
  lemma {:induction false} LastEntryCounts(rows: seq<Keyed>, k: int, key: int)
    requires IsLast(rows, k, key)
    ensures LastFor(rows, key) == Some(rows[k].row)
  {
    var n := |rows| - 1;
    if k < n {
      assert rows[n].key != key && rows[..n][k] == rows[k];
      LastEntryCounts(rows[..n], k, key);
    }
  }

  /** A replaced table holds the last entry for each key, the rows of other workspaces without one, and nothing else. */
  lemma ReplacedHolds(table: map<int, Row>, workspace: int, rows: seq<Keyed>, key: int)
    ensures forall k :: IsLast(rows, k, key) ==> Replaced(table, workspace, rows, key) == Some(rows[k].row)
    ensures (forall k :: 0 <= k < |rows| ==> rows[k].key != key) ==>
      && (key in table && table[key].workspace != workspace ==> Replaced(table, workspace, rows, key) == Some(table[key]))
      && (key !in table || table[key].workspace == workspace ==> Replaced(table, workspace, rows, key) == None)
  {
    forall k | IsLast(rows, k, key) ensures LastFor(rows, key) == Some(rows[k].row) { LastEntryCounts(rows, k, key); }
  }

  /** A merged table holds the last entry of the workspace for each key, else what it held. */
  lemma MergedHolds(table: map<int, Row>, workspace: int, snapshot: seq<Keyed>, key: int)
    ensures var rows := Own(snapshot, workspace);
      && (forall k :: IsLast(rows, k, key) ==> Overlaid(table, rows, key) == Some(rows[k].row))
      && ((forall entry :: entry in snapshot && entry.row.workspace == workspace ==> entry.key != key) ==>
            Overlaid(table, rows, key) == if key in table then Some(table[key]) else None)
  {
    var rows := Own(snapshot, workspace);
    forall k | IsLast(rows, k, key) ensures LastFor(rows, key) == Some(rows[k].row) { LastEntryCounts(rows, k, key); }
    OwnEntries(snapshot, [], workspace);
  }

  /** Only entries of the workspace are merged, in their order. */
  lemma {:induction false} OwnEntries(snapshot: seq<Keyed>, more: seq<Keyed>, workspace: int)
    ensures forall entry :: entry in Own(snapshot, workspace) <==> entry in snapshot && entry.row.workspace == workspace
    ensures Own(snapshot + more, workspace) == Own(snapshot, workspace) + Own(more, workspace)
    decreases |snapshot| + |more|
  {
    if more == [] {
      assert snapshot + more == snapshot;
      if snapshot != [] {
        OwnEntries(snapshot[..|snapshot| - 1], [], workspace);
        assert snapshot == snapshot[..|snapshot| - 1] + [snapshot[|snapshot| - 1]];
      }
    } else {
      OwnEntries(snapshot, more[..|more| - 1], workspace);
      assert (snapshot + more)[..|snapshot + more| - 1] == snapshot + more[..|more| - 1];
    }
  }

  lemma EmptyKeys(keys: set<int>)
    ensures (forall key :: key !in keys) ==> keys == {}
  {
    if forall key :: key !in keys {
      assert keys <= {};
    }
  }

  method PickKey(keys: set<int>) returns (key: int)
    requires keys != {}
    ensures key in keys
  {
    EmptyKeys(keys);
    key :| key in keys;
  }
}
