/** The crash-recoverable record store. Every write to the state directory is one step, and the field
    `trace` keeps the disk as it was after each step: a process that dies leaves one of those disks. */
module RecordStore {
  import opened Records
  import opened HashChain
  import opened LedgerIndex
  import opened StoreSpec

  /** Every step since `t0` left a disk that stands for `v`. */
  ghost predicate Through(t0: seq<Disk>, t: seq<Disk>, v: History) {
    t0 <= t && forall i :: |t0| <= i < |t| ==> StandsFor(t[i], v)
  }

  /** Before step `turn` the disk stands for `v`, from it on for `w`; unless they are the same ledger, that step
      is the one that puts a journal into a directory that had none. */
  ghost predicate Switches(t0: seq<Disk>, t: seq<Disk>, v: History, w: History, turn: nat) {
    && t0 <= t
    && |t0| <= turn <= |t|
    && (forall i :: |t0| <= i < turn ==> StandsFor(t[i], v))
    && (forall i :: turn <= i < |t| ==> StandsFor(t[i], w))
    && (v != w ==> |t0| < turn < |t| && !HasJournal(t[turn - 1]) && HasJournal(t[turn]))
  }

  /** Steps for `v`, and as the last one so far the step that writes the journal for `w`. */
  ghost predicate JustPrepared(t0: seq<Disk>, t: seq<Disk>, v: History, w: History) {
    && |t0| < |t| - 1 && Through(t0, t[..|t| - 1], v)
    && StandsFor(t[|t| - 1], w) && !HasJournal(t[|t| - 2]) && HasJournal(t[|t| - 1])
  }

  /** Steps for `v`, then the journal, then steps for `w`. */
  lemma SwitchAt(t0: seq<Disk>, t1: seq<Disk>, t2: seq<Disk>, v: History, w: History)
    requires JustPrepared(t0, t1, v, w) && Through(t1, t2, w)
    ensures Switches(t0, t2, v, w, |t1| - 1)
  {
    forall i | |t0| <= i < |t1| - 1 ensures StandsFor(t2[i], v) {
      assert t2[i] == t1[..|t1| - 1][i];
    }
    assert t2[|t1| - 1] == t1[|t1| - 1] && t2[|t1| - 2] == t1[|t1| - 2];
  }

  ghost predicate HasJournal(d: Disk) {
    exists i :: 0 <= i < |d.txs| && d.txs[i].journal.Some?
  }

  /** Nothing a failing recovery touches is lost: no transaction directory goes away and no record file changes. */
  ghost predicate FailsClosed(d: Disk, d': Disk) {
    && |d.txs| <= |d'.txs|
    && forall p :: p in d.records ==> p in d'.records && d'.records[p] == d.records[p]
  }

  /** The first transaction directory, rewritten. */
  function WithTx(d: Disk, tx: Tx): Disk
    requires |d.txs| > 0
  {
    d.(txs := d.txs[0 := tx])
  }

  function Pieces(tx: Tx): nat {
    (if tx.recordStage.Some? then 1 else 0) + (if tx.ledgerStage.Some? then 1 else 0)
    + (if tx.journal.Some? then 1 else 0) + tx.scratch
  }

  /** The one transaction directory holds the journal `j`, written for the last entry of `v`. */
  ghost predicate Awaiting(d: Disk, j: Journal, v: History) {
    StandsFor(d, v) && |d.txs| == 1 && d.txs[0].journal == Some(Readable(j))
  }

  /** The immutable file of an entry exists and holds exactly its payload. */
  predicate FileAgrees(records: map<Path, Bytes>, e: Entry) {
    Proper(e) && PathOf(e.payload) in records && records[PathOf(e.payload)] == Document(e.payload)
  }

  /** The ledger is intact and every entry has its file. */
  ghost predicate Verified(d: Disk) {
    && d.ledger.Lines? && Linked(d.ledger.entries)
    && forall i :: 0 <= i < |d.ledger.entries| ==> FileAgrees(d.records, d.ledger.entries[i])
  }

  /** Nothing pending, and the index, if there is one, is current. */
  ghost predicate Quiescent(d: Disk) {
    d.txs == [] && d.ledger.Lines? && (d.index.Some? ==> d.index == Some(IndexData(d.ledger.entries)))
  }

  /** Store agreement: with nothing pending, a disk the store left behind passes `verify`, and every record file belongs
      to exactly one entry. */
  lemma SettledVerifies(d: Disk, v: History)
    requires StandsFor(d, v) && d.txs == []
    ensures Verified(d) && d.ledger == Lines(v)
    ensures forall p :: p in d.records <==> exists i :: 0 <= i < |v| && PathOf(v[i].payload) == p
    ensures forall i, j :: 0 <= i < |v| && 0 <= j < |v| && PathOf(v[i].payload) == PathOf(v[j].payload) ==> i == j
  {
    PassesVerify(d, v);
    forall p ensures p in d.records <==> exists i :: 0 <= i < |v| && PathOf(v[i].payload) == p {
      FilesDomain(v, p);
    }
    forall i, j | 0 <= i < |v| && 0 <= j < |v| && PathOf(v[i].payload) == PathOf(v[j].payload) ensures i == j {
      SettledDistinct(v, i, j);
    }
  }

  lemma PassesVerify(d: Disk, v: History)
    requires StandsFor(d, v) && d.txs == []
    ensures Verified(d)
  {
    SettledLinked(v);
    forall i | 0 <= i < |v| ensures FileAgrees(d.records, v[i]) {
      SettledFiled(v, i);
    }
  }

  function Resolution(records: map<Path, Bytes>, q: Request, existing: seq<Entry>): Result<Entry, StoreError> {
    if |existing| != 1 || PathOf(q.record) !in records then Err(RecordStorageConflict)
    else if records[PathOf(q.record)] != Document(q.record) || existing[0].payload != q.record then Err(RecordExists)
    else Ok(existing[0])
  }

  /** On a settled store a used path answers as the logical store does, and a free one has neither file nor entry. */
  lemma DuplicateCases(v: History, q: Request)
    requires Settled(v) && Refusal(q).None?
    ensures var existing := Existing(v, q.kind, q.record.id);
            && Normal(existing)
            && ((PathOf(q.record) in Files(v) || existing != []) <==> Filed(v, PathOf(q.record)).Some?)
            && (Filed(v, PathOf(q.record)).Some? ==> Outcome(v, q) == (Resolution(Files(v), q, existing), v))
  {
    var p := PathOf(q.record);
    FiledHasFile(v, p);
    ExistingIsFiled(v, q.record);
    if Filed(v, p).Some? {
      FiledProper(v, p);
      FiledResolution(v, q, Filed(v, p).value, Files(v));
    }
  }

  lemma FiledResolution(v: History, q: Request, e: Entry, files: map<Path, Bytes>)
    requires Refusal(q).None? && Filed(v, PathOf(q.record)) == Some(e)
    requires PathOf(q.record) in files && files[PathOf(q.record)] == Document(e.payload)
    ensures Outcome(v, q) == (Resolution(files, q, if e.payload.id == q.record.id then [e] else []), v)
  {
  }

  /* ---- Single steps ---- */

  /** While the ledger and the records are final, the transaction directory may be anything, except that a
      journal it holds must be for the last entry. */
  lemma DirectStep(d: Disk, tx: Tx, v: History)
    requires StandsFor(d, v) && Direct(d, v)
    requires tx.journal.Some? ==> tx.journal.value.Readable? && Describes(tx.journal.value.journal, tx.name, v)
    ensures StandsFor(d.(txs := [tx]), v) && Direct(d.(txs := [tx]), v)
    ensures StandsFor(d.(txs := []), v) && Direct(d.(txs := []), v)
  {
  }

  /** The journal a commit writes. */
  function NewJournal(v: History, q: Request): Journal {
    var e := Build(v, q.timestamp, q.record);
    Journal(q.tx, Prepared, q.group, q.kind, q.record.id, PathOf(q.record), DigestOf(Document(q.record)),
            DigestOf(Lines(v)), DigestOf(Lines(v + [e])), e.sequence, e.previous, e.hash)
  }

  /** Writing the journal is the step that commits: the disk now stands for the longer ledger. */
  lemma PrepareStep(d: Disk, q: Request, v: History, scratch: nat)
    requires StandsFor(d, v) && Direct(d, v)
    requires Refusal(q).None? && Filed(v, PathOf(q.record)).None?
    ensures var w, j := Extended(v, q), NewJournal(v, q);
            var tx := Tx(q.tx, Some(Document(q.record)), Some(Lines(w)), Some(Readable(j)), scratch);
            StandsFor(d.(txs := [tx]), w) && NothingPublished(d.(txs := [tx]), tx, j, w)
  {
    FiledHasFile(v, PathOf(q.record));
    SettledGrows(v, q.timestamp, q.record);
  }

  /** The two disks a journal write leaves behind: a temporary file beside the stages, then the journal. */
  lemma PrepareSteps(d: Disk, q: Request, v: History)
    requires StandsFor(d, v) && d.txs == [] && Refusal(q).None? && Filed(v, PathOf(q.record)).None?
    ensures var w, j := Extended(v, q), NewJournal(v, q);
            var staged := Tx(q.tx, Some(Document(q.record)), Some(Lines(w)), None, 1);
            var tx := staged.(journal := Some(Readable(j)), scratch := 0);
            && StandsFor(d.(txs := [staged]), v) && !HasJournal(d.(txs := [staged]))
            && StandsFor(d.(txs := [tx]), w) && NothingPublished(d.(txs := [tx]), tx, j, w)
  {
    DirectStep(d, Tx(q.tx, Some(Document(q.record)), Some(Lines(Extended(v, q))), None, 1), v);
    PrepareStep(d, q, v, 0);
  }

  lemma JournalTurns(t0: seq<Disk>, t1: seq<Disk>, d1: Disk, d2: Disk, v: History, w: History)
    requires Through(t0, t1, v) && StandsFor(d1, v) && !HasJournal(d1) && StandsFor(d2, w)
    requires |d2.txs| > 0 && d2.txs[0].journal.Some?
    ensures JustPrepared(t0, t1 + [d1, d2], v, w)
  {
    var t := t1 + [d1, d2];
    assert t[..|t| - 1] == t1 + [d1];
    assert t[|t| - 1] == d2 && t[|t| - 2] == d1;
    assert HasJournal(d2);
  }

  lemma PublishRecordStep(d: Disk, j: Journal, v: History)
    requires Awaiting(d, j, v) && NothingPublished(d, d.txs[0], j, v)
    ensures var p := PathOf(Last(v).payload);
            var tx := d.txs[0].(recordStage := None);
            var d' := WithTx(d, tx).(records := d.records[p := d.txs[0].recordStage.value]);
            p !in d.records && Awaiting(d', j, v) && RecordPublished(d', tx, j, v)
  {
  }

  lemma PublishLedgerStep(d: Disk, j: Journal, v: History)
    requires Awaiting(d, j, v) && RecordPublished(d, d.txs[0], j, v)
    ensures var d' := WithTx(d, d.txs[0].(ledgerStage := None)).(ledger := d.txs[0].ledgerStage.value);
            Awaiting(d', j, v) && Direct(d', v)
  {
  }

  lemma ReindexStep(d: Disk, v: History)
    requires StandsFor(d, v) && Direct(d, v)
    ensures StandsFor(d.(index := Some(IndexData(v))), v)
  {
    SettledLinked(v);
  }

  lemma ReadSettled(v: History, r: Result<seq<Entry>, LedgerError>)
    requires Settled(v) && VerifiedRead(Lines(v), r)
    ensures r == Ok(v)
  {
    SettledLinked(v);
  }

  lemma SettledNormal(v: History)
    requires Settled(v)
    ensures Normal(v)
  {
    forall i | 0 <= i < |v| ensures v[i].kind == KindOf(v[i].payload) {
      SettledFiled(v, i);
    }
  }

  lemma {:induction false} FilterNormal(es: seq<Entry>, kinds: set<Kind>)
    ensures Normal(es) ==> Normal(Filter(es, kinds))
  {
    if es != [] {
      FilterNormal(es[..|es| - 1], kinds);
      if Normal(es) {
        assert Normal(es[..|es| - 1]);
      }
    }
  }

  /* ---- What recovery accepts, on any disk at all ---- */

  predicate Canonical(j: Journal) {
    j.group == j.kind && ValidIdentity(j.identity) && j.destination == Path(j.group, SafeName(j.identity))
  }

  ghost predicate Intact(b: Bytes) {
    b.Lines? && Linked(b.entries)
  }

  /** The ledger the journal was prepared on: intact, with the head and length the journal names. */
  ghost predicate Predecessor(b: Bytes, j: Journal) {
    Intact(b) && |b.entries| + 1 == j.sequence && Head(b.entries) == j.previous
  }

  /** The record file a transaction is about: the published one, else the staged one. */
  function FoundRecord(d: Disk, p: Path): Option<Bytes>
    requires |d.txs| > 0
  {
    if p in d.records then Some(d.records[p]) else d.txs[0].recordStage
  }

  /** The ledger holds the journal's entry, and the record is that entry's payload. */
  ghost predicate Holds(ledger: Bytes, record: Bytes, j: Journal) {
    && Intact(ledger) && 1 <= j.sequence <= |ledger.entries|
    && var e := ledger.entries[j.sequence - 1];
       e.kind == j.kind == KindOf(e.payload) && e.hash == j.entry && record == Document(e.payload)
  }

  /** A transaction directory recovery may act on: no journal yet, or a readable one that is its own. */
  predicate Sensible(tx: Tx) {
    tx.journal.Some? ==> && tx.journal.value.Readable? && tx.journal.value.journal.tx == tx.name
                         && tx.journal.value.journal.sequence >= 1
  }

  predicate AllSensible(txs: seq<Tx>) {
    txs == [] || (Sensible(txs[0]) && AllSensible(txs[1..]))
  }

  /** A transaction can be completed: its journal names its own file, the record has the bytes the journal vouches for,
      the ledger is the prepared one with the new one staged, or the new one already with the record published; and the
      new one holds the record. */
  ghost predicate Completable(d: Disk, j: Journal)
    requires |d.txs| > 0
  {
    && Canonical(j) && FoundRecord(d, j.destination) == Some(j.record.bytes)
    && (if d.ledger == j.before.bytes then
          j.state == Prepared && d.txs[0].ledgerStage == Some(j.after.bytes) && Predecessor(d.ledger, j)
        else d.ledger == j.after.bytes && j.destination in d.records)
    && Holds(j.after.bytes, j.record.bytes, j)
  }

  /** The record was placed on a disk with nothing pending: its file and its ledger line are there, everything else is
      as it was. */
  ghost predicate Placed(d: Disk, d': Disk, q: Request, es: seq<Entry>, e: Entry) {
    && e == Build(es, q.timestamp, q.record) && d'.txs == [] && d'.ledger == Lines(es + [e])
    && d'.records == d.records[PathOf(q.record) := Document(q.record)]
  }

  /** What a commit that succeeds did, on any disk with nothing pending: the record was there already, in the ledger and
      in its file, or it was placed where nothing was. */
  ghost predicate Answers(d: Disk, d': Disk, q: Request, es: seq<Entry>, e: Entry) {
    var p := PathOf(q.record);
    || (d' == d && e in es && e.payload == q.record && p in d.records && d.records[p] == Document(q.record))
    || (p !in d.records && Placed(d, d', q, es, e))
  }

  lemma ResolutionMeans(d: Disk, q: Request, es: seq<Entry>)
    ensures var r := Resolution(d.records, q, Existing(es, q.kind, q.record.id));
            r.Ok? ==> Answers(d, d, q, es, r.value)
  {
    ExistingWithin(es, q.kind, q.record.id);
  }

  class LocalRecordStore {
    var disk: Disk
    var ledger: Ledger
    var trace: seq<Disk>

    constructor (disk: Disk)
      ensures this.disk == disk && fresh(ledger) && ledger.Valid() && trace == [disk]
    {
      this.disk := disk;
      ledger := new Ledger();
      trace := [disk];
    }

    method Write(d: Disk)
      modifies this`disk, this`trace
      ensures disk == d && trace == old(trace) + [d]
    {
      disk := d;
      trace := trace + [d];
    }

    /** The process dies after step `k`; the next one opens the directory that survived, with empty caches. */
    method Crash(k: nat)
      requires k < |trace|
      modifies this
      ensures disk == old(trace)[k] && trace == old(trace) + [disk] && fresh(ledger) && ledger.Valid()
    {
      ledger := new Ledger();
      Write(trace[k]);
    }

    /** Write a stage file in chunks of any size: the file passes through arbitrary contents. */
    method WriteStage(isRecord: bool, content: Bytes, chunks: seq<Bytes>, ghost v: History)
      requires |disk.txs| == 1
      modifies this`disk, this`trace
      ensures disk == old(disk).(txs := [Staged(old(disk).txs[0], isRecord, content)])
      ensures old(StandsFor(disk, v) && Direct(disk, v) && disk.txs[0].journal.None?) ==> Through(old(trace), trace, v)
    {
      var tx := disk.txs[0];
      ghost var d0 := disk;
      ghost var sound := StandsFor(disk, v) && Direct(disk, v) && tx.journal.None?;
      for i := 0 to |chunks|
        invariant disk == d0.(txs := disk.txs)
        invariant sound ==> Through(old(trace), trace, v)
      {
        if sound {
          DirectStep(d0, Staged(tx, isRecord, chunks[i]), v);
        }
        Write(disk.(txs := [Staged(tx, isRecord, chunks[i])]));
      }
      if sound {
        DirectStep(d0, Staged(tx, isRecord, content), v);
      }
      Write(disk.(txs := [Staged(tx, isRecord, content)]));
    }

    /** Remove the first transaction directory entry by entry, in any order. */
    method RemoveTree(ghost v: History)
      requires |disk.txs| > 0
      modifies this`disk, this`trace
      ensures disk == old(disk).(txs := old(disk).txs[1..])
      ensures old(StandsFor(disk, v) && Direct(disk, v)) ==> Through(old(trace), trace, v)
    {
      ghost var d0 := disk;
      ghost var sound := StandsFor(disk, v) && Direct(disk, v);
      var tx := disk.txs[0];
      while Pieces(tx) > 0
        invariant |d0.txs| == |disk.txs| && disk == WithTx(d0, tx) && disk.txs[1..] == d0.txs[1..]
        invariant tx.name == d0.txs[0].name && (tx.journal.Some? ==> tx.journal == d0.txs[0].journal)
        invariant sound ==> Through(old(trace), trace, v)
        decreases Pieces(tx)
      {
        tx := DropPiece(tx);
        if sound {
          DirectStep(d0, tx, v);
          assert WithTx(disk, tx) == d0.(txs := [tx]);
        }
        Write(WithTx(disk, tx));
      }
      if sound {
        DirectStep(d0, tx, v);
        assert disk.txs[1..] == [];
      }
      Write(disk.(txs := disk.txs[1..]));
    }

    /** Replace the journal through a temporary file: two steps, the second atomic. */
    method WriteJournal(j: Journal)
      requires |disk.txs| > 0
      modifies this`disk, this`trace
      ensures var tx := old(disk).txs[0];
              && disk == WithTx(old(disk), tx.(journal := Some(Readable(j))))
              && trace == old(trace) + [WithTx(old(disk), tx.(scratch := tx.scratch + 1)), disk]
    {
      var tx := disk.txs[0];
      Write(WithTx(disk, tx.(scratch := tx.scratch + 1)));
      Write(WithTx(disk, tx.(journal := Some(Readable(j)))));
    }

    /** Bring the index up to date with the verified ledger, writing only when it differs. */
    method RebuildIndex(ghost v: History) returns (r: Result<(), StoreError>)
      requires ledger.Valid()
      modifies this`disk, this`trace, ledger
      ensures ledger.Valid()
      ensures disk == old(disk).(index := disk.index) && (r.Ok? <==> Intact(disk.ledger))
      ensures old(StandsFor(disk, v) && Direct(disk, v)) ==>
                r.Ok? && disk.index == Some(IndexData(v)) && StandsFor(disk, v) && Through(old(trace), trace, v)
    {
      var raw := ledger.ReadVerified(Some(disk.ledger));
      if StandsFor(disk, v) && Direct(disk, v) {
        ReadSettled(v, raw);
        ReindexStep(disk, v);
      }
      if raw.Err? {
        return Err(LedgerFault(raw.error));
      }
      var expected := BuildIndex(raw.value);
      if disk.index != Some(expected) {
        Write(disk.(index := Some(expected)));
      }
      return Ok(());
    }

    /** Move the staged record to its final path. */
    method PublishRecord(final: Path, ghost j: Journal, ghost v: History)
      requires |disk.txs| > 0 && disk.txs[0].recordStage.Some?
      modifies this`disk, this`trace
      ensures var tx := old(disk).txs[0];
              disk == WithTx(old(disk), tx.(recordStage := None))
                        .(records := old(disk).records[final := tx.recordStage.value])
      ensures trace == old(trace) + [disk]
      ensures old(Awaiting(disk, j, v) && NothingPublished(disk, disk.txs[0], j, v))
              && final == PathOf(Last(v).payload) ==>
                Awaiting(disk, j, v) && RecordPublished(disk, disk.txs[0], j, v)
    {
      var tx := disk.txs[0];
      if Awaiting(disk, j, v) && NothingPublished(disk, tx, j, v) {
        PublishRecordStep(disk, j, v);
      }
      Write(WithTx(disk, tx.(recordStage := None)).(records := disk.records[final := tx.recordStage.value]));
    }

    /** Check that the ledger is still the predecessor the journal names, then put the staged ledger in its place. */
    method PublishLedger(j: Journal, conflict: StoreError, ghost v: History) returns (r: Result<(), StoreError>)
      requires ledger.Valid()
      requires |disk.txs| > 0 && disk.txs[0].ledgerStage.Some?
      modifies this`disk, this`trace, ledger
      ensures ledger.Valid()
      ensures disk.records == old(disk).records && |disk.txs| == |old(disk).txs| && disk.txs[1..] == old(disk).txs[1..]
      ensures r.Ok? <==> Predecessor(old(disk).ledger, j)
      ensures disk.ledger == if r.Ok? then old(disk).txs[0].ledgerStage.value else old(disk).ledger
      ensures old(Awaiting(disk, j, v) && RecordPublished(disk, disk.txs[0], j, v)) ==>
                r.Ok? && trace == old(trace) + [disk] && Awaiting(disk, j, v) && Direct(disk, v)
    {
      ghost var sound := Awaiting(disk, j, v) && RecordPublished(disk, disk.txs[0], j, v);
      var raw := ledger.ReadVerified(Some(disk.ledger));
      if sound {
        ReadSettled(Front(v), raw);
        PublishLedgerStep(disk, j, v);
      }
      if raw.Err? {
        return Err(LedgerFault(raw.error));
      }
      if |raw.value| + 1 != j.sequence || Head(raw.value) != j.previous {
        return Err(conflict);
      }
      var tx := disk.txs[0];
      Write(WithTx(disk, tx.(ledgerStage := None)).(ledger := tx.ledgerStage.value));
      return Ok(());
    }

    /** The branch of recovery that finds the old ledger: publish the record if it is still staged, then the ledger. */
    method RollForward(j: Journal, final: Path, ghost v: History) returns (r: Result<(), StoreError>)
      requires ledger.Valid()
      requires |disk.txs| > 0 && (final in disk.records || disk.txs[0].recordStage.Some?)
      modifies this`disk, this`trace, ledger
      ensures ledger.Valid()
      ensures FailsClosed(old(disk), disk) && |disk.txs| == |old(disk).txs| && disk.txs[1..] == old(disk).txs[1..]
      ensures r.Ok? <==> && j.state == Prepared && old(disk).txs[0].ledgerStage == Some(j.after.bytes)
                         && Predecessor(old(disk).ledger, j)
      ensures r.Ok? ==> && disk.ledger == j.after.bytes
                        && disk.records == old(disk).records[final := FoundRecord(old(disk), final).value]
      ensures old(Awaiting(disk, j, v) && !Direct(disk, v)) && final == PathOf(Last(v).payload) ==>
                r.Ok? && Through(old(trace), trace, v) && Awaiting(disk, j, v) && Direct(disk, v)
    {
      if j.state == Committed {
        return Err(RecoveryAmbiguous);
      }
      if disk.txs[0].ledgerStage.None? {
        return Err(RecoveryAmbiguous);
      }
      if DigestOf(disk.txs[0].ledgerStage.value) != j.after {
        return Err(RecoveryStageMismatch);
      }
      if final !in disk.records {
        PublishRecord(final, j, v);
      }
      r := PublishLedger(j, RecoveryLedgerConflict, v);
    }

    /** The tail of recovery and of a commit: mark the journal committed, rebuild the index, drop the directory. */
    method Finish(j: Journal, ghost v: History) returns (r: Result<(), StoreError>)
      requires ledger.Valid()
      requires |disk.txs| > 0
      modifies this`disk, this`trace, ledger
      ensures ledger.Valid()
      ensures FailsClosed(old(disk), disk) || (r.Ok? && disk.txs == old(disk).txs[1..])
      ensures r.Ok? ==> disk.txs == old(disk).txs[1..]
      ensures disk.ledger == old(disk).ledger && disk.records == old(disk).records && (r.Ok? <==> Intact(disk.ledger))
      ensures old(Awaiting(disk, j, v) && Direct(disk, v)) ==>
                r.Ok? && Through(old(trace), trace, v) && StandsFor(disk, v) && Quiescent(disk)
    {
      ghost var sound := Awaiting(disk, j, v) && Direct(disk, v);
      var done := j.(state := Committed);
      if sound {
        DirectStep(disk, disk.txs[0].(scratch := disk.txs[0].scratch + 1), v);
        DirectStep(disk, disk.txs[0].(journal := Some(Readable(done))), v);
      }
      WriteJournal(done);
      var indexed := RebuildIndex(v);
      if indexed.Err? {
        return Err(indexed.error);
      }
      if sound {
        DirectStep(disk, disk.txs[0], v);
      }
      RemoveTree(v);
      return Ok(());
    }

    /** Resolve the first transaction directory, which has a journal. On any disk it succeeds exactly when the
        transaction can be completed, and then the record and the ledger are those the journal vouches for; otherwise it
        fails closed. On a disk the store itself produced it always succeeds. */
    method RecoverTransaction(j: Journal, ghost v: History) returns (r: Result<(), StoreError>)
      requires ledger.Valid()
      requires |disk.txs| > 0 && disk.txs[0].journal == Some(Readable(j)) && j.sequence >= 1
      modifies this`disk, this`trace, ledger
      ensures ledger.Valid()
      ensures r.Err? ==> FailsClosed(old(disk), disk)
      ensures r.Ok? <==> Completable(old(disk), j)
      ensures Canonical(j) ==>
                && (FoundRecord(old(disk), j.destination) == None ==> r == Err(RecoveryAmbiguous))
                && (FoundRecord(old(disk), j.destination) !in {None, Some(j.record.bytes)} ==>
                      r == Err(RecoveryStageMismatch))
                && (FoundRecord(old(disk), j.destination) == Some(j.record.bytes) ==>
                      old(disk).ledger !in {j.before.bytes, j.after.bytes} ==> r == Err(RecoveryLedgerConflict))
      ensures r.Ok? ==> && disk.txs == old(disk).txs[1..] && disk.ledger == j.after.bytes
                        && disk.records == old(disk).records[j.destination := j.record.bytes]
      ensures old(StandsFor(disk, v)) ==>
                r.Ok? && Through(old(trace), trace, v) && StandsFor(disk, v) && Quiescent(disk)
    {
      ghost var sound := StandsFor(disk, v);
      if j.group != j.kind {
        return Err(RecordContext);
      }
      if !ValidIdentity(j.identity) {
        return Err(RecordIdentity);
      }
      var final := Path(j.group, SafeName(j.identity));
      if j.destination != final {
        return Err(RecoveryJournalMalformed);
      }
      var found := if final in disk.records then Some(disk.records[final]) else disk.txs[0].recordStage;
      if found.None? {
        return Err(RecoveryAmbiguous);
      }
      if DigestOf(found.value) != j.record {
        return Err(RecoveryStageMismatch);
      }
      if DigestOf(disk.ledger) == j.before {
        var rolled := RollForward(j, final, v);
        if rolled.Err? {
          return Err(rolled.error);
        }
      }
      assert sound ==> Awaiting(disk, j, v) && Direct(disk, v) && Through(old(trace), trace, v);
      var checked := CheckPublished(j, final, v);
      if checked.Err? {
        return Err(checked.error);
      }
      r := Finish(j, v);
    }

    /** The ledger, the record and the journal's entry all say the transaction is published. */
    method CheckPublished(j: Journal, final: Path, ghost v: History) returns (r: Result<(), StoreError>)
      requires ledger.Valid() && j.sequence >= 1 && j.group == j.kind
      modifies ledger
      ensures ledger.Valid()
      ensures r.Ok? <==> && disk.ledger == j.after.bytes && final in disk.records
                         && disk.records[final] == j.record.bytes && Holds(disk.ledger, disk.records[final], j)
      ensures disk.ledger != j.after.bytes ==> r == Err(RecoveryLedgerConflict)
      ensures Awaiting(disk, j, v) && Direct(disk, v) && final == PathOf(Last(v).payload) ==> r.Ok?
    {
      if DigestOf(disk.ledger) != j.after {
        return Err(RecoveryLedgerConflict);
      }
      if final !in disk.records {
        return Err(RecoveryAmbiguous);
      }
      if DigestOf(disk.records[final]) != j.record {
        return Err(RecoveryStageMismatch);
      }
      var raw := ledger.ReadVerified(Some(disk.ledger));
      if Awaiting(disk, j, v) && Direct(disk, v) {
        ReadSettled(v, raw);
      }
      if raw.Err? {
        return Err(LedgerFault(raw.error));
      }
      if |raw.value| < j.sequence {
        return Err(RecoveryAmbiguous);
      }
      var e := raw.value[j.sequence - 1];
      if e.kind != KindOf(e.payload) {
        return Err(RecordTypeMismatch);
      }
      if e.hash != j.entry || e.kind != j.kind {
        return Err(RecoveryAmbiguous);
      }
      if !disk.records[final].Document? || KindOf(disk.records[final].record) != j.group {
        return Err(RecordFileMalformed);
      }
      if disk.records[final].record != e.payload {
        return Err(RecoveryAmbiguous);
      }
      return Ok(());
    }

    /** Resolve every transaction directory. On a disk the store itself produced there is at most one, no error is
        raised, and every step on the way still stands for the same ledger. */
    method RecoverUnlocked(ghost v: History) returns (r: Result<(nat, nat), StoreError>)
      requires ledger.Valid()
      modifies this`disk, this`trace, ledger
      ensures ledger.Valid()
      ensures r.Ok? ==> disk.txs == [] && r.value.0 + r.value.1 == |old(disk).txs|
      ensures r.Ok? ==> AllSensible(old(disk).txs)
      ensures old(disk).txs == [] ==> disk == old(disk) && trace == old(trace)
      ensures old(StandsFor(disk, v)) ==>
                && r.Ok? && (r.value.0 == 1 <==> old(HasJournal(disk)))
                && Through(old(trace), trace, v) && StandsFor(disk, v)
    {
      ghost var sound := StandsFor(disk, v);
      ghost var d0 := disk;
      var completed, abandoned := 0, 0;
      while |disk.txs| > 0
        invariant ledger.Valid()
        invariant completed + abandoned + |disk.txs| == |d0.txs|
        invariant AllSensible(disk.txs) ==> AllSensible(d0.txs)
        invariant d0.txs == [] ==> disk == d0 && trace == old(trace)
        invariant sound ==> StandsFor(disk, v) && Through(old(trace), trace, v)
        invariant sound && |disk.txs| > 0 ==> disk == d0
        invariant sound && |disk.txs| == 0 ==> (completed == 1 <==> HasJournal(d0))
        decreases |disk.txs|
      {
        var journal := disk.txs[0].journal;
        if journal.None? {
          if sound {
            DirectStep(disk, disk.txs[0], v);
          }
          RemoveTree(v);
          abandoned := abandoned + 1;
        } else {
          assert HasJournal(disk);
          if journal.value.Unreadable? || journal.value.journal.tx != disk.txs[0].name
             || journal.value.journal.sequence < 1
          {
            return Err(RecoveryJournalMalformed);
          }
          var done := RecoverTransaction(journal.value.journal, v);
          if done.Err? {
            return Err(done.error);
          }
          completed := completed + 1;
        }
      }
      return Ok((completed, abandoned));
    }

    /** Normalise every entry: its payload must have the type its kind calls for. */
    method NormalizeAll(es: seq<Entry>) returns (r: Result<(), StoreError>)
      ensures r == if Normal(es) then Ok(()) else Err(RecordTypeMismatch)
    {
      for i := 0 to |es|
        invariant forall k :: 0 <= k < i ==> es[k].kind == KindOf(es[k].payload)
      {
        if es[i].kind != KindOf(es[i].payload) {
          return Err(RecordTypeMismatch);
        }
      }
      return Ok(());
    }

    /** `records` and `records_for`: refuse while a transaction is pending, else a verified snapshot, filtered through
        the index when kinds are asked for. On any disk the store left behind it is exactly the filtered ledger. */
    method Entries(kinds: Option<set<Kind>>, ghost v: History) returns (r: Result<seq<Entry>, StoreError>)
      requires ledger.Valid()
      modifies ledger
      ensures ledger.Valid()
      ensures disk.txs != [] ==> r == Err(LedgerFault(RecoveryRequired))
      ensures r.Ok? ==> && Intact(disk.ledger) && Normal(r.value)
                        && (kinds.None? ==> r.value == disk.ledger.entries)
                        && (kinds.Some? ==> OrderedSelection(r.value, disk.ledger.entries, kinds.value))
      ensures StandsFor(disk, v) && disk.txs == [] ==> r == Ok(if kinds.None? then v else Filter(v, kinds.value))
    {
      if |disk.txs| > 0 {
        return Err(LedgerFault(RecoveryRequired));
      }
      ghost var sound := StandsFor(disk, v);
      var raw := ledger.ReadVerified(Some(disk.ledger));
      if sound {
        ReadSettled(v, raw);
        SettledNormal(v);
      }
      if raw.Err? {
        return Err(LedgerFault(raw.error));
      }
      var selected := raw.value;
      if kinds.Some? {
        selected := Select(raw.value, disk.index, kinds.value);
        FilterNormal(raw.value, kinds.value);
      }
      var normal := NormalizeAll(selected);
      if normal.Err? {
        return Err(normal.error);
      }
      return Ok(selected);
    }

    /** Check every entry against its immutable file. */
    method VerifyImmutable(es: seq<Entry>) returns (r: Result<(), StoreError>)
      requires Normal(es)
      ensures r.Ok? <==> forall i :: 0 <= i < |es| ==> FileAgrees(disk.records, es[i])
    {
      for i := 0 to |es|
        invariant forall k :: 0 <= k < i ==> FileAgrees(disk.records, es[k])
      {
        var e := es[i];
        if !ValidIdentity(e.payload.id) {
          return Err(RecordIdentity);
        }
        var p := Path(e.kind, SafeName(e.payload.id));
        if p !in disk.records {
          return Err(RecordFileMissing);
        }
        if !disk.records[p].Document? || KindOf(disk.records[p].record) != e.kind {
          return Err(RecordFileMalformed);
        }
        if disk.records[p].record != e.payload {
          return Err(RecordFileMismatch);
        }
      }
      return Ok(());
    }

    /** The chain, the payload types and every immutable file. */
    method VerifyAll() returns (r: Result<seq<Entry>, StoreError>)
      requires ledger.Valid()
      modifies ledger
      ensures ledger.Valid()
      ensures r.Ok? <==> Verified(disk)
      ensures r.Ok? ==> disk.ledger == Lines(r.value)
    {
      var raw := ledger.ReadVerified(Some(disk.ledger));
      if raw.Err? {
        return Err(LedgerFault(raw.error));
      }
      var normal := NormalizeAll(raw.value);
      if normal.Err? {
        return Err(normal.error);
      }
      var files := VerifyImmutable(raw.value);
      if files.Err? {
        return Err(files.error);
      }
      return Ok(raw.value);
    }

    /** `verify`. It succeeds on exactly the directories with no transaction left whose ledger is intact and agrees
        with its files. */
    method Verify() returns (r: Result<(nat, Hash), StoreError>)
      requires ledger.Valid()
      modifies ledger
      ensures ledger.Valid()
      ensures r.Ok? <==> disk.txs == [] && Verified(disk)
      ensures r.Ok? ==> r.value == (|disk.ledger.entries|, Head(disk.ledger.entries))
    {
      if |disk.txs| > 0 {
        return Err(LedgerFault(RecoveryRequired));
      }
      var all := VerifyAll();
      if all.Err? {
        return Err(all.error);
      }
      return Ok((|all.value|, Head(all.value)));
    }

    /** `recover`. Success always means a verified directory with nothing pending. From any disk the store itself left
        behind it succeeds, keeps the logical ledger at every step, and leaves nothing for a second call to do. */
    method Recover(ghost v: History) returns (r: Result<(nat, nat), StoreError>)
      requires ledger.Valid()
      modifies this`disk, this`trace, ledger
      ensures ledger.Valid()
      ensures r.Ok? ==> disk.txs == [] && Verified(disk)
      ensures old(StandsFor(disk, v)) ==>
                r.Ok? && Through(old(trace), trace, v) && StandsFor(disk, v) && Direct(disk, v) && Quiescent(disk)
      ensures old(StandsFor(disk, v) && Quiescent(disk)) ==> r == Ok((0, 0)) && disk == old(disk) && trace == old(trace)
    {
      ghost var sound := StandsFor(disk, v);
      r := RecoverUnlocked(v);
      if r.Err? {
        return;
      }
      if sound {
        PassesVerify(disk, v);
      }
      var all := VerifyAll();
      if all.Err? {
        return Err(all.error);
      }
      RefreshIndex(all.value, v);
    }

    /** Rewrite an index that is there but out of date. */
    method RefreshIndex(es: seq<Entry>, ghost v: History)
      requires disk.ledger == Lines(es)
      modifies this`disk, this`trace
      ensures disk.records == old(disk).records && disk.ledger == old(disk).ledger && disk.txs == old(disk).txs
      ensures old(StandsFor(disk, v) && disk.txs == []) ==>
                Through(old(trace), trace, v) && StandsFor(disk, v) && Quiescent(disk)
      ensures old(Quiescent(disk)) ==> disk == old(disk) && trace == old(trace)
    {
      if disk.index.Some? {
        var expected := BuildIndex(es);
        if disk.index != Some(expected) {
          if StandsFor(disk, v) && disk.txs == [] {
            ReindexStep(disk, v);
          }
          Write(disk.(index := Some(expected)));
        }
      }
    }

    /** What a commit answers when the identity or its file is already in use. */
    method ResolveDuplicate(q: Request, existing: seq<Entry>) returns (r: Result<Entry, StoreError>)
      ensures r == Resolution(disk.records, q, existing)
    {
      if |existing| != 1 || PathOf(q.record) !in disk.records {
        return Err(RecordStorageConflict);
      }
      if disk.records[PathOf(q.record)] != Document(q.record) || existing[0].payload != q.record {
        return Err(RecordExists);
      }
      return Ok(existing[0]);
    }

    /** Make the transaction directory and stage the record and the ledger in it. */
    method Stage(q: Request, after: Bytes, ghost v: History)
      requires disk.txs == []
      modifies this`disk, this`trace
      ensures disk == old(disk).(txs := [Tx(q.tx, Some(Document(q.record)), Some(after), None, 0)])
      ensures old(StandsFor(disk, v)) ==> Through(old(trace), trace, v)
    {
      ghost var d0 := disk;
      ghost var sound := StandsFor(disk, v);
      var empty := Tx(q.tx, None, None, None, 0);
      if sound {
        DirectStep(d0, empty, v);
        DirectStep(d0, Staged(empty, true, Document(q.record)), v);
      }
      Write(disk.(txs := [empty]));
      var recordChunks: seq<Bytes>, ledgerChunks: seq<Bytes> := *, *;
      WriteStage(true, Document(q.record), recordChunks, v);
      WriteStage(false, after, ledgerChunks, v);
    }

    /** Stage the record and the ledger, then write the journal. The last step is the one that commits. */
    method Prepare(q: Request, es: seq<Entry>, ghost v: History) returns (j: Journal)
      requires disk.txs == []
      modifies this`disk, this`trace
      ensures |disk.txs| == 1 && disk.ledger == old(disk).ledger && disk.records == old(disk).records && |trace| > 0
      ensures disk.txs[0].recordStage == Some(Document(q.record))
      ensures disk.txs[0].ledgerStage == Some(Lines(es + [Build(es, q.timestamp, q.record)]))
      ensures old(StandsFor(disk, v)) && Preparable(q, es, v) ==>
                && JustPrepared(old(trace), trace, v, Extended(v, q))
                && Awaiting(disk, j, Extended(v, q)) && NothingPublished(disk, disk.txs[0], j, Extended(v, q))
    {
      ghost var d0 := disk;
      var e := Build(es, q.timestamp, q.record);
      var after := Lines(es + [e]);
      j := Journal(q.tx, Prepared, q.group, q.kind, q.record.id, PathOf(q.record), DigestOf(Document(q.record)),
                   DigestOf(disk.ledger), DigestOf(after), e.sequence, e.previous, e.hash);
      Stage(q, after, v);
      ghost var staged, sound := trace, StandsFor(d0, v) && Preparable(q, es, v);
      WriteJournal(j);
      if sound {
        PrepareSteps(d0, q, v);
        JournalTurns(old(trace), staged, trace[|staged|], disk, v, Extended(v, q));
      }
    }

    /** Publish the record and the ledger and clean up. */
    method Publish(q: Request, j: Journal, before: Bytes, ghost w: History) returns (r: Result<(), StoreError>)
      requires ledger.Valid()
      requires |disk.txs| == 1 && disk.txs[0].recordStage.Some? && disk.txs[0].ledgerStage.Some?
      modifies this`disk, this`trace, ledger
      ensures ledger.Valid()
      ensures old(Awaiting(disk, j, w) && NothingPublished(disk, disk.txs[0], j, w) && disk.ledger == before)
              && PathOf(q.record) == PathOf(Last(w).payload) ==>
                r.Ok? && Through(old(trace), trace, w) && StandsFor(disk, w) && Quiescent(disk)
      ensures r.Ok? ==> && disk.txs == [] && disk.ledger == old(disk).txs[0].ledgerStage.value
                        && disk.records == old(disk).records[PathOf(q.record) := old(disk).txs[0].recordStage.value]
    {
      PublishRecord(PathOf(q.record), j, w);
      if disk.ledger != before {
        return Err(TransactionLedgerConflict);
      }
      var published := PublishLedger(j, TransactionLedgerConflict, w);
      if published.Err? {
        return Err(published.error);
      }
      r := Finish(j, w);
    }

    /** The transaction proper, from the empty directory to the clean-up. */
    method Transact(q: Request, es: seq<Entry>, ghost v: History)
      returns (r: Result<Entry, StoreError>, ghost turn: nat)
      requires ledger.Valid()
      requires disk.txs == []
      modifies this`disk, this`trace, ledger
      ensures ledger.Valid()
      ensures r.Ok? ==> Placed(old(disk), disk, q, es, r.value)
      ensures old(StandsFor(disk, v)) && Preparable(q, es, v) ==>
                && r == Ok(Build(es, q.timestamp, q.record))
                && Switches(old(trace), trace, v, Extended(v, q), turn)
                && StandsFor(disk, Extended(v, q)) && Quiescent(disk)
    {
      var before := disk.ledger;
      ghost var sound := StandsFor(disk, v) && Preparable(q, es, v);
      var j := Prepare(q, es, v);
      turn := |trace| - 1;
      ghost var prepared := trace;
      var published := Publish(q, j, before, Extended(v, q));
      if sound {
        SwitchAt(old(trace), prepared, trace, v, Extended(v, q));
      }
      if published.Err? {
        return Err(published.error), turn;
      }
      return Ok(Build(es, q.timestamp, q.record)), turn;
    }

    /** A commit on the recovered store whose entries were just read. */
    method Place(q: Request, es: seq<Entry>, ghost v: History) returns (r: Result<Entry, StoreError>, ghost turn: nat)
      requires ledger.Valid()
      requires disk.txs == []
      modifies this`disk, this`trace, ledger
      ensures ledger.Valid()
      ensures r.Ok? ==> Answers(old(disk), disk, q, es, r.value)
      ensures old(StandsFor(disk, v)) && es == v && Refusal(q).None? ==>
                && r == Outcome(v, q).0
                && Switches(old(trace), trace, v, Outcome(v, q).1, turn)
                && StandsFor(disk, Outcome(v, q).1) && disk.txs == []
    {
      turn := |trace|;
      if StandsFor(disk, v) && es == v && Refusal(q).None? {
        DuplicateCases(v, q);
      }
      var existing := Existing(es, q.kind, q.record.id);
      var normal := NormalizeAll(existing);
      if normal.Err? {
        return Err(normal.error), turn;
      }
      if PathOf(q.record) in disk.records || existing != [] {
        ResolutionMeans(disk, q, es);
        r := ResolveDuplicate(q, existing);
        return;
      }
      if q.lineBytes > LINE_BYTE_CAP {
        return Err(RecordSize), turn;
      }
      r, turn := Transact(q, es, v);
    }

    /** Commit one record. The answer and the ledger are those of `Outcome`; wherever the process dies, the disk
        stands for the old ledger or for the new one, and for the new one exactly from the journal step on. */
    method Commit(q: Request, ghost v: History) returns (r: Result<Entry, StoreError>, ghost turn: nat)
      requires ledger.Valid()
      modifies this`disk, this`trace, ledger
      ensures ledger.Valid()
      ensures Refusal(q).Some? ==> disk == old(disk) && trace == old(trace)
      ensures old(disk).txs == [] && !Intact(old(disk).ledger) ==> r.Err? && disk == old(disk)
      ensures r.Ok? && old(disk).txs == [] ==>
                Intact(old(disk).ledger) && Answers(old(disk), disk, q, old(disk).ledger.entries, r.value)
      ensures old(StandsFor(disk, v)) ==>
                && r == Outcome(v, q).0
                && Switches(old(trace), trace, v, Outcome(v, q).1, turn)
                && StandsFor(disk, Outcome(v, q).1)
                && (Refusal(q).None? ==> disk.txs == [])
    {
      turn := |trace|;
      ghost var sound := StandsFor(disk, v);
      var refusal := Refusal(q);
      if refusal.Some? {
        return Err(refusal.value), turn;
      }
      var recovered := RecoverUnlocked(v);
      turn := |trace|;
      if recovered.Err? {
        return Err(recovered.error), turn;
      }
      var raw := ledger.ReadVerified(Some(disk.ledger));
      if sound {
        ReadSettled(v, raw);
      }
      if raw.Err? {
        return Err(LedgerFault(raw.error)), turn;
      }
      r, turn := Place(q, raw.value, v);
    }
  }

  /** Any one file of a transaction directory goes away. */
  method DropPiece(tx: Tx) returns (less: Tx)
    requires Pieces(tx) > 0
    ensures Pieces(less) == Pieces(tx) - 1 && less.name == tx.name
    ensures less.journal.Some? ==> less.journal == tx.journal
  {
    if {
      case tx.recordStage.Some? => less := tx.(recordStage := None);
      case tx.ledgerStage.Some? => less := tx.(ledgerStage := None);
      case tx.journal.Some? => less := tx.(journal := None);
      case tx.scratch > 0 => less := tx.(scratch := tx.scratch - 1);
    }
  }

  function Staged(tx: Tx, isRecord: bool, content: Bytes): Tx {
    if isRecord then tx.(recordStage := Some(content)) else tx.(ledgerStage := Some(content))
  }

  ghost predicate Preparable(q: Request, es: seq<Entry>, v: History) {
    es == v && Refusal(q).None? && Filed(es, PathOf(q.record)).None?
  }

  /* ---- Whole runs ---- */

  /** Commit, die after any step or none, recover as often as it takes, and commit the same record a second time: the
      ledger ends with exactly one entry for it, whichever side of the journal the crash fell on. */
  method CommitCrashCommit(store: LocalRecordStore, q: Request, retryStamp: string, retryTx: TxId, ghost v: History)
    returns (r: Result<Entry, StoreError>, ghost w: History)
    requires store.ledger.Valid() && StandsFor(store.disk, v)
    modifies store, store.ledger
    ensures StandsFor(store.disk, w) && ExactlyOnce(v, q, (r, w))
  {
    var k: nat := *;
    ghost var u, committed, first := LiveOnce(store, q, k, v);
    var again := q.(timestamp := retryStamp, tx := retryTx);
    ghost var turn;
    r, turn := store.Commit(again, u);
    w := Outcome(u, again).1;
    if u == v {
      RetryFromOld(v, q, again);
    } else {
      RetryFindsEntry(v, q, again);
    }
  }

  /** The history grew by at most one entry; a request that could succeed has its single entry, and one that could not
      left no mark. */
  ghost predicate ExactlyOnce(v: History, q: Request, o: (Result<Entry, StoreError>, History)) {
    && v <= o.1 && |o.1| <= |v| + 1
    && (Outcome(v, q).0.Ok? ==> o.0.Ok? && o.0.value in o.1 && CountOf(o.1, q.record) == 1)
    && (Outcome(v, q).0.Err? ==> o == (Outcome(v, q).0, v))
  }

  /** A retry of a request that had no effect answers as the first attempt would have. */
  lemma RetryFromOld(v: History, q: Request, again: Request)
    requires Settled(v) && again == q.(timestamp := again.timestamp, tx := again.tx)
    ensures ExactlyOnce(v, q, Outcome(v, again))
  {
    OutcomeSettled(v, again);
    SameAnswer(v, q, again);
    if Outcome(v, again).0.Ok? {
      OutcomeHoldsOnce(v, again);
    }
  }

  /** Clock and transaction identity do not decide whether a request succeeds. */
  lemma SameAnswer(v: History, q: Request, again: Request)
    requires again == q.(timestamp := again.timestamp, tx := again.tx)
    ensures Outcome(v, q).0.Ok? <==> Outcome(v, again).0.Ok?
    ensures Outcome(v, q).0.Err? ==> Outcome(v, again) == (Outcome(v, q).0, v)
  {
  }

  /** A retry of a request that took effect finds its entry and adds nothing. */
  lemma RetryFindsEntry(v: History, q: Request, again: Request)
    requires Settled(v) && again == q.(timestamp := again.timestamp, tx := again.tx) && Outcome(v, q).1 != v
    ensures ExactlyOnce(v, q, Outcome(Outcome(v, q).1, again))
    ensures Outcome(Outcome(v, q).1, again) == Outcome(v, q)
  {
    var (r, w) := Outcome(v, q);
    OutcomeSettled(v, q);
    OutcomeHoldsOnce(v, q);
    var i :| 0 <= i < |w| && w[i] == r.value;
    OutcomeOnUsedPath(w, again, i);
  }

  /** One commit request after another, each either taking effect or not. */
  ghost predicate Chronicle(history: seq<History>, requests: seq<Request>) {
    && |history| == |requests| + 1 && history[0] == []
    && forall i :: 0 <= i < |requests| ==>
         history[i + 1] == history[i] || history[i + 1] == Outcome(history[i], requests[i]).1
  }

  /** Every state of a run is settled, and every earlier ledger is a prefix of every later one. */
  lemma {:induction false} ChronicleGrows(history: seq<History>, requests: seq<Request>, i: nat, j: nat)
    requires Chronicle(history, requests) && i <= j < |history|
    ensures Settled(history[j]) && history[i] <= history[j]
    decreases j
  {
    if j > 0 {
      ChronicleGrows(history, requests, if i < j then i else j - 1, j - 1);
      OutcomeSettled(history[j - 1], requests[j - 1]);
    }
  }

  /** A whole life of the store from an empty directory: any requests, any of them cut short after any step, and after
      each crash any number of recoveries that are themselves cut short. The directory never leaves the relation. */
  method Life(requests: seq<Request>) returns (store: LocalRecordStore, ghost history: seq<History>)
    ensures fresh(store) && Chronicle(history, requests) && StandsFor(store.disk, history[|requests|])
  {
    store := new LocalRecordStore(EMPTY_DISK);
    history := [[]];
    for n := 0 to |requests|
      invariant fresh(store) && fresh(store.ledger) && store.ledger.Valid()
      invariant Chronicle(history, requests[..n]) && StandsFor(store.disk, history[n])
    {
      var k: nat := *;
      ghost var w, committed, turn := LiveOnce(store, requests[n], k, history[n]);
      ChronicleStep(history, requests[..n], requests[n], w);
      assert requests[..n] + [requests[n]] == requests[..n + 1];
      history := history + [w];
    }
    assert requests[..|requests|] == requests;
  }

  lemma ChronicleStep(history: seq<History>, requests: seq<Request>, q: Request, w: History)
    requires Chronicle(history, requests)
    requires w == history[|requests|] || w == Outcome(history[|requests|], q).1
    ensures Chronicle(history + [w], requests + [q])
  {
  }

  /** One request of a life: the process dies after step `k` of the commit, if it has that many, and every later
      recovery may be cut short in turn. `committed` is the trace of the commit; the journal is its step `turn`. The new
      ledger results exactly when the journal was written. */
  method LiveOnce(store: LocalRecordStore, q: Request, k: nat, ghost v: History)
    returns (ghost w: History, ghost committed: seq<Disk>, ghost turn: nat)
    requires store.ledger.Valid() && StandsFor(store.disk, v)
    modifies store, store.ledger
    ensures store.ledger.Valid() && (store.ledger == old(store.ledger) || fresh(store.ledger))
    ensures Switches(old(store.trace), committed, v, Outcome(v, q).1, turn)
    ensures w == if |old(store.trace)| + k < turn then v else Outcome(v, q).1
    ensures StandsFor(store.disk, w)
  {
    var start := |store.trace|;
    var r;
    r, turn := store.Commit(q, v);
    committed := store.trace;
    w := if start + k < turn then v else Outcome(v, q).1;
    if start + k < |store.trace| {
      store.Crash(start + k);
      RecoverAtLeisure(store, w);
    }
  }

  /** Any number of recoveries, each cut short after any of its steps or completed. */
  method RecoverAtLeisure(store: LocalRecordStore, ghost w: History)
    requires store.ledger.Valid() && StandsFor(store.disk, w)
    modifies store, store.ledger
    ensures store.ledger.Valid() && (store.ledger == old(store.ledger) || fresh(store.ledger))
    ensures StandsFor(store.disk, w)
  {
    var attempts: nat := *;
    while attempts > 0
      invariant store.ledger.Valid() && (store.ledger == old(store.ledger) || fresh(store.ledger))
      invariant StandsFor(store.disk, w)
    {
      var start := |store.trace|;
      var recovered := store.Recover(w);
      assert recovered.Ok?;
      var k: nat := *;
      if start <= k < |store.trace| {
        store.Crash(k);
      }
      attempts := attempts - 1;
    }
  }

  /** Crash atomicity. Wherever a commit stops and however often recovery is itself stopped, the next completed recovery
      leaves exactly the old ledger and record files, or exactly those plus this entry and its file: the second if and
      only if the journal step was reached. */
  method CrashAtomicity(store: LocalRecordStore, q: Request, k: nat, ghost v: History)
    returns (ghost w: History, ghost committed: seq<Disk>, ghost turn: nat)
    requires store.ledger.Valid() && StandsFor(store.disk, v)
    modifies store, store.ledger
    ensures Direct(store.disk, w) && Quiescent(store.disk)
    ensures Switches(old(store.trace), committed, v, Outcome(v, q).1, turn)
    ensures w == if turn <= |old(store.trace)| + k then Outcome(v, q).1 else v
  {
    w, committed, turn := LiveOnce(store, q, k, v);
    var recovered := store.Recover(w);
  }
}
