/** Whole-database saving and the load that starts a session. */
module StateFiles {
  import opened Common
  import opened SessionModel
  import opened StateRows
  import opened RowOrder
  import opened StateDatabase
  import opened StateTheorems
  import opened StateRepeats
  import opened StateSettled

  /** Claims everything stored, then stores the snapshot: nothing else is left. */
  method SaveToPath(conn: Connection, fp: Hasher, s: Snapshot) returns (ok: bool)
    requires FittingTables(conn.committed)
    modifies conn
    ensures FittingTables(conn.committed)
    ensures ValidTables(fp, old(conn.committed)) ==> ValidTables(fp, conn.committed)
    ensures !ok ==> conn.committed == old(conn.committed)
    ensures !conn.faulty ==> (ok <==> Encodable(fp, s))
    ensures ok ==> conn.committed.Keys == WindowIds(s)
    ensures ok && DistinctIds(s) && ValidTables(fp, old(conn.committed)) ==>
              (conn.committed == Replace(fp, map[], {}, s) <==> NoCollision(fp, old(conn.committed), s))
  {
    hide StateRows.Apply, ApplyInOrder, Replace, NoCollision, Encodable, ValidTables, FittingTables, ApplyWrites,
         InOrderWrites;
    ghost var before := conn.committed;
    var db := new StateDb(conn, fp);
    ok := db.ClaimPersistedWindows();
    if !ok { return; }
    var r := db.Apply(s);
    ok := r.Ok?;
    if ok {
      LastListingDecides(fp, before, before.Keys, s);
      if ValidTables(fp, before) {
        InOrderValid(fp, before, before.Keys, s);
        if DistinctIds(s) {
          InOrderIsApply(fp, before, before.Keys, s);
          ApplyRefinesReplace(fp, before, before.Keys, s);
          ReplaceAll(fp, before, s);
        }
      }
    }
  }

  /** Owning everything makes the rows stored before irrelevant. */
  lemma ReplaceAll(fp: Hasher, t: Tables, s: Snapshot)
    ensures Replace(fp, t, t.Keys, s) == Replace(fp, map[], {}, s)
  {
    assert t - t.Keys == map[];
    var none: Tables := map[];
    assert none - {} == none;
  }

  /** Reads the session and claims its windows, so that closing one deletes its rows. */
  method LoadWithDb(conn: Connection, fp: Hasher) returns (r: Result<Snapshot>, db: StateDb)
    requires FittingTables(conn.committed)
    ensures fresh(db) && db.conn == conn && db.fp == fp && db.Valid()
    ensures r.Ok? ==> DecodableTables(conn.committed) && r.value == LoadSpec(conn.committed)
    ensures r.Ok? ==> db.owned == conn.committed.Keys
    ensures r.Ok? && ValidTables(fp, conn.committed) ==>
              (ApplyWrites(fp, conn.committed, db.owned, r.value) == NoStats <==> Settled(conn.committed))
    ensures !conn.faulty ==> (r.Ok? <==> DecodableTables(conn.committed))
  {
    hide LoadSpec, ApplyWrites, Settled, DecodableTables, ValidTables, FittingTables;
    db := new StateDb(conn, fp);
    r := db.Load();
    if r.Err? { return; }
    var ok := db.ClaimPersistedWindows();
    if !ok { r := Err; return; }
    if ValidTables(fp, conn.committed) { LoadedWritesNothing(fp, conn.committed); }
  }
}
