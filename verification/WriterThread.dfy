/** The writer thread's own methods, as they change the mailbox, the clock mark and the database. */
module WriterThread {
  import opened Common
  import opened SessionModel
  import opened StateRows
  import opened StateDatabase
  import opened WriterModel

  /** A snapshot with its submission number. */
  datatype Submitted = Submitted(n: nat, snapshot: Snapshot)

  function Number(s: Option<Submitted>): Option<nat> {
    if s.Some? then Some(s.value.n) else None
  }

  /** The one-slot hand-off for asynchronous snapshots. */
  class SnapshotMailbox {
    var pending: Option<Submitted>

    constructor ()
      ensures pending == None
    {
      pending := None;
    }

    method Put(s: Submitted)
      modifies this
      ensures pending == Some(s)
    {
      pending := Some(s);
    }

    method Take() returns (taken: Option<Submitted>)
      modifies this
      ensures taken == old(pending) && pending == None
    {
      taken, pending := pending, None;
    }
  }

  class WriterState {
    const throttle: nat
    const mailbox: SnapshotMailbox
    const db: StateDb?
    var lastWriteAt: Option<int>
    /** Number of the snapshot the database was last reconciled with. */
    ghost var stored: Option<nat>

    ghost predicate Valid()
      reads this, db, if db == null then {} else {db.conn}
    {
      db != null ==> db.Valid()
    }

    ghost function Footprint(): set<object> {
      {this, mailbox} + if db == null then {} else {db, db.conn}
    }

    /** These fields are the ones of model state `m`. */
    ghost predicate Matches(m: State)
      reads this, mailbox
    {
      && m.throttle == throttle && m.mailbox == Number(mailbox.pending)
      && m.lastWriteAt == lastWriteAt && m.db == stored
    }

    constructor (throttle: nat, mailbox: SnapshotMailbox, db: StateDb?, now: int)
      requires mailbox.pending == None && (db != null ==> db.Valid())
      ensures this.throttle == throttle && this.mailbox == mailbox && this.db == db && Valid()
      ensures Matches(Init(throttle, now))
    {
      this.throttle, this.mailbox, this.db, lastWriteAt, stored := throttle, mailbox, db, None, None;
    }

    /** Reconciles the database with a snapshot; without a database every write fails. */
    method Apply(s: Submitted) returns (ok: bool)
      requires Valid()
      modifies Footprint() - {this, mailbox}, this`stored
      ensures Valid()
      ensures db == null ==> !ok
      ensures !ok ==> stored == old(stored)
      ensures !ok && db != null ==> db.conn.committed == old(db.conn.committed) && db.owned == old(db.owned)
      ensures ok ==> stored == Some(s.n) && db.owned == WindowIds(s.snapshot)
      ensures ok ==>
                db.conn.committed == ApplyInOrder(db.fp, old(db.conn.committed), old(db.owned), s.snapshot)
    {
      if db == null { return false; }
      var r := db.Apply(s.snapshot);
      ok := r.Ok?;
      if ok { stored := Some(s.n); }
    }

    /** Persists a snapshot and marks when the write ended, whatever its result. */
    method Write(s: Submitted, end: int) returns (ok: bool)
      requires Valid()
      modifies Footprint() - {mailbox}
      ensures Valid() && lastWriteAt == Some(end)
      ensures db == null ==> !ok
      ensures !ok ==> stored == old(stored)
      ensures !ok && db != null ==> db.conn.committed == old(db.conn.committed) && db.owned == old(db.owned)
      ensures ok ==> stored == Some(s.n) && db.owned == WindowIds(s.snapshot)
      ensures ok ==>
                db.conn.committed == ApplyInOrder(db.fp, old(db.conn.committed), old(db.owned), s.snapshot)
    {
      ok := Apply(s);
      lastWriteAt := Some(end);
    }

    /** The earliest time the mailbox may be flushed, if it holds a snapshot. */
    method MailboxDeadline(now: int, ghost m: State) returns (deadline: Option<int>)
      requires Matches(m) && m.hand.Looping? && m.now == now
      ensures StepCheckMailbox(m) ==
              Some(m.(hand := if deadline.None? then ReceivingUntimed else ReceivingTimed(deadline.value)))
    {
      if mailbox.pending.None? { return None; }
      return Some(if lastWriteAt.Some? then lastWriteAt.value + throttle else now);
    }

    /** Writes the waiting snapshot, ignoring the throttle: the take and write steps of the model. */
    method FlushMailbox(ghost start: int, end: int, ghost m: State) returns (ok: bool)
      requires Valid() && Matches(m) && (m.hand.Flushing? || m.hand.ShutdownFlushing?) && m.now == start
      modifies Footprint()
      ensures Valid() && mailbox.pending == None
      ensures old(mailbox.pending).None? ==> ok && Matches(StepTake(m).value)
      ensures old(mailbox.pending).Some? ==>
                && StepWriteDone(StepTake(m).value.(now := end), ok).Some?
                && Matches(StepWriteDone(StepTake(m).value.(now := end), ok).value)
      ensures old(mailbox.pending).Some? && ok ==>
                && db != null && db.owned == WindowIds(old(mailbox.pending).value.snapshot)
                && db.conn.committed == ApplyInOrder(db.fp, old(if db == null then map[] else db.conn.committed),
                                                     old(if db == null then {} else db.owned),
                                                     old(mailbox.pending).value.snapshot)
    {
      var taken := mailbox.Take();
      ok := true;
      if taken.Some? { ok := Write(taken.value, end); }
    }

    /** Writes a snapshot whose caller is waiting, dropping the one in the mailbox; `ok` is the reply. */
    method HandleBlocking(s: Submitted, ghost thread: nat, ghost start: int, end: int, ghost m: State)
      returns (ok: bool)
      requires Valid() && Matches(m) && m.hand == Handling(thread, s.n) && m.now == start
      modifies Footprint()
      ensures Valid() && mailbox.pending == None
      ensures StepWriteDone(StepTake(m).value.(now := end), ok).Some?
      ensures Matches(StepWriteDone(StepTake(m).value.(now := end), ok).value)
      ensures StepWriteDone(StepTake(m).value.(now := end), ok).value.hand == Replying(thread, s.n, ok)
      ensures ok ==> db != null && db.owned == WindowIds(s.snapshot)
      ensures ok ==>
                db.conn.committed == ApplyInOrder(db.fp, old(db.conn.committed), old(db.owned), s.snapshot)
    {
      var superseded := mailbox.Take();
      ok := Write(s, end);
    }
  }
}
