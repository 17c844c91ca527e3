/** What the transactional record store keeps on disk, and the logical ledger a disk stands for. */
module StoreSpec {
  import opened Records
  import opened HashChain
  import opened LedgerIndex

  type TxId = string

  datatype JournalState = Prepared | Committed

  datatype Journal = Journal(tx: TxId, state: JournalState, group: Kind, kind: Kind, identity: Id,
                             destination: Path, record: Digest, before: Digest, after: Digest,
                             sequence: int, previous: Hash, entry: Hash)

  datatype JournalFile = Readable(journal: Journal) | Unreadable

  /** A transaction directory. `scratch` counts temporary files an interrupted journal write left behind. */
  datatype Tx = Tx(name: TxId, recordStage: Option<Bytes>, ledgerStage: Option<Bytes>, journal: Option<JournalFile>,
                   scratch: nat)

  /** The state directory; `txs` is the sorted listing of the transaction directories. A ledger file that does not
      exist yet reads as `Lines([])`. */
  datatype Disk = Disk(records: map<Path, Bytes>, ledger: Bytes, txs: seq<Tx>, index: Option<IndexFile>)

  const EMPTY_DISK: Disk := Disk(map[], Lines([]), [], None)

  datatype StoreError =
    | RecordContext | RecordTypeMismatch | RecordVersionWrite | RecordIdentity | RecordSize
    | RecordStorageConflict | RecordExists | TransactionLedgerConflict
    | RecoveryJournalMalformed | RecoveryAmbiguous | RecoveryStageMismatch | RecoveryLedgerConflict
    | RecordFileMissing | RecordFileMalformed | RecordFileMismatch | LedgerFault(fault: LedgerError)

  /* ---- The logical ledger ---- */

  /** The logical store is its ledger: the immutable files are the ones the ledger calls for. */
  type History = seq<Entry>

  function Front(es: History): History
    requires es != []
  {
    es[..|es| - 1]
  }

  function Last(es: History): Entry
    requires es != []
  {
    es[|es| - 1]
  }

  predicate Proper(e: Entry) {
    e.kind == KindOf(e.payload) && ValidIdentity(e.payload.id)
  }

  /** The record files a ledger calls for: one per entry, holding the entry's payload. */
  ghost function Files(es: History): map<Path, Bytes> {
    if es == [] then map[] else Files(Front(es))[PathOf(Last(es).payload) := Document(Last(es).payload)]
  }

  /** A ledger grown entry by entry, each properly linked, typed and filed at a path of its own. */
  ghost predicate Settled(es: History) {
    es == [] ||
    (var f, e := Front(es), Last(es);
     Settled(f) && Proper(e) && PathOf(e.payload) !in Files(f) && e == Build(f, e.timestamp, e.payload))
  }

  lemma {:induction false} FilesDomain(es: History, p: Path)
    ensures p in Files(es) <==> exists i :: 0 <= i < |es| && PathOf(es[i].payload) == p
  {
    if es != [] {
      var front := Front(es);
      FilesDomain(front, p);
      if p in Files(front) {
        var i :| 0 <= i < |front| && PathOf(front[i].payload) == p;
        assert PathOf(es[i].payload) == p;
      }
      if i :| 0 <= i < |es| && PathOf(es[i].payload) == p && i < |front| {
        assert PathOf(front[i].payload) == p;
      }
    }
  }

  /** A settled ledger passes the chain verification. */
  lemma {:induction false} SettledLinked(es: History)
    requires Settled(es)
    ensures Linked(es)
  {
    if es != [] {
      SettledLinked(Front(es));
      LinkedExtends(Front(es), Last(es));
      assert es == Front(es) + [Last(es)];
    }
  }

  /** Every entry of a settled ledger has its file, holding its payload. */
  lemma {:induction false} SettledFiled(es: History, i: nat)
    requires Settled(es) && i < |es|
    ensures Proper(es[i])
    ensures var p := PathOf(es[i].payload); p in Files(es) && Files(es)[p] == Document(es[i].payload)
  {
    if i < |es| - 1 {
      SettledFiled(Front(es), i);
    }
  }

  /** Two entries of a settled ledger never share a file, so two identities that collapse to one safe file name are
      never both in it. */
  lemma SettledDistinct(es: History, i: nat, j: nat)
    requires Settled(es) && i < |es| && j < |es| && PathOf(es[i].payload) == PathOf(es[j].payload)
    ensures i == j
  {
    if i < |es| - 1 && j < |es| - 1 {
      SettledDistinct(Front(es), i, j);
    } else if i < |es| - 1 {
      SettledFiled(Front(es), i);
    } else if j < |es| - 1 {
      SettledFiled(Front(es), j);
    }
  }

  /** The next entry keeps a ledger settled. */
  lemma SettledGrows(es: History, timestamp: string, r: Record)
    requires Settled(es) && ValidIdentity(r.id) && PathOf(r) !in Files(es)
    ensures var w := es + [Build(es, timestamp, r)];
            && Settled(w) && Front(w) == es && Last(w) == Build(es, timestamp, r)
            && Files(w) == Files(es)[PathOf(r) := Document(r)]
  {
    assert Front(es + [Build(es, timestamp, r)]) == es;
  }

  /* ---- The disk and what it stands for ---- */

  ghost predicate Direct(d: Disk, v: History) {
    d.ledger == Lines(v) && d.records == Files(v)
  }

  /** A journal written for the last entry of `v`. */
  ghost predicate Describes(j: Journal, name: TxId, v: History) {
    && v != []
    && var e := Last(v);
       && j.tx == name && j.group == j.kind == e.kind
       && j.identity == e.payload.id && j.destination == PathOf(e.payload)
       && j.record == DigestOf(Document(e.payload))
       && j.before == DigestOf(Lines(Front(v))) && j.after == DigestOf(Lines(v))
       && j.sequence == |v| && j.previous == e.previous && j.entry == e.hash
  }

  /** Neither the record nor the ledger is published yet. */
  ghost predicate NothingPublished(d: Disk, tx: Tx, j: Journal, v: History) {
    && v != [] && j.state == Prepared
    && d.ledger == Lines(Front(v)) && d.records == Files(Front(v))
    && tx.recordStage == Some(Document(Last(v).payload)) && tx.ledgerStage == Some(Lines(v))
  }

  /** The record is published, the ledger is not. */
  ghost predicate RecordPublished(d: Disk, tx: Tx, j: Journal, v: History) {
    && v != [] && j.state == Prepared
    && d.ledger == Lines(Front(v)) && d.records == Files(v)
    && tx.ledgerStage == Some(Lines(v))
  }

  ghost predicate TxStandsFor(d: Disk, tx: Tx, v: History) {
    match tx.journal
    case None => Direct(d, v)
    case Some(Unreadable) => false
    case Some(Readable(j)) =>
      && Describes(j, tx.name, v)
      && (NothingPublished(d, tx, j, v) || RecordPublished(d, tx, j, v) || Direct(d, v))
  }

  /** The abstraction relation: `v` is the ledger once any pending transaction is resolved. There is at most one
      transaction directory, and the index, if there is one, was written for some ledger. */
  ghost predicate StandsFor(d: Disk, v: History) {
    && Settled(v)
    && (d.index.Some? ==> Genuine(d.index.value))
    && |d.txs| <= 1
    && (if |d.txs| == 0 then Direct(d, v) else TxStandsFor(d, d.txs[0], v))
  }

  /** A disk stands for at most one ledger. */
  lemma StandsForUnique(d: Disk, v: History, w: History)
    requires StandsFor(d, v) && StandsFor(d, w)
    ensures v == w
  {
  }

  /* ---- What a commit means on the logical store ---- */

  const RECORD_BYTE_CAP := 4_000_000
  const LINE_BYTE_CAP := 16_000_000

  /** A commit request: the trusted context, the record, its schema, the sizes of its two encodings, the clock
      reading and the random transaction identity. */
  datatype Request = Request(group: Kind, kind: Kind, record: Record, currentSchema: bool,
                             recordBytes: nat, lineBytes: nat, timestamp: string, tx: TxId)

  /** The checks made before the lock is taken. */
  function Refusal(q: Request): Option<StoreError> {
    if q.group != q.kind then Some(RecordContext)
    else if KindOf(q.record) != q.kind then Some(RecordTypeMismatch)
    else if !q.currentSchema then Some(RecordVersionWrite)
    else if !ValidIdentity(q.record.id) then Some(RecordIdentity)
    else if q.recordBytes > RECORD_BYTE_CAP then Some(RecordSize)
    else None
  }

  /** The ledger entries already holding this kind and identity. */
  function Existing(es: seq<Entry>, k: Kind, identity: Id): seq<Entry> {
    if es == [] then []
    else
      var e := es[|es| - 1];
      Existing(es[..|es| - 1], k, identity) + if e.kind == k && e.payload.id == identity then [e] else []
  }

  lemma {:induction false} ExistingWithin(es: seq<Entry>, k: Kind, identity: Id)
    ensures forall e :: e in Existing(es, k, identity) ==> e in es
  {
    if es != [] {
      ExistingWithin(es[..|es| - 1], k, identity);
    }
  }

  /** The entry filed at a path. */
  function Filed(es: seq<Entry>, p: Path): Option<Entry> {
    if es == [] then None
    else if PathOf(es[|es| - 1].payload) == p then Some(es[|es| - 1])
    else Filed(es[..|es| - 1], p)
  }

  /** The answer a commit gives and the ledger it leaves. */
  ghost function Outcome(v: History, q: Request): (Result<Entry, StoreError>, History) {
    if Refusal(q).Some? then (Err(Refusal(q).value), v)
    else
      match Filed(v, PathOf(q.record))
      case Some(e) =>
        if e.payload == q.record then (Ok(e), v)
        else if e.payload.id == q.record.id then (Err(RecordExists), v)
        else (Err(RecordStorageConflict), v)
      case None =>
        if q.lineBytes > LINE_BYTE_CAP then (Err(RecordSize), v)
        else (Ok(Build(v, q.timestamp, q.record)), Extended(v, q))
  }

  ghost function Extended(v: History, q: Request): History {
    v + [Build(v, q.timestamp, q.record)]
  }

  /** Looking a record up by its file and by its ledger entry agree on a settled store. */
  lemma {:induction false} FiledHasFile(es: History, p: Path)
    ensures p in Files(es) <==> Filed(es, p).Some?
    ensures Filed(es, p).Some? ==>
              var e := Filed(es, p).value; e in es && PathOf(e.payload) == p && Files(es)[p] == Document(e.payload)
  {
    if es != [] {
      FiledHasFile(Front(es), p);
    }
  }

  /** So does looking it up by kind and identity. */
  lemma {:induction false} ExistingIsFiled(es: History, r: Record)
    requires Settled(es)
    ensures var f := Filed(es, PathOf(r));
            Existing(es, KindOf(r), r.id) == if f.Some? && f.value.payload.id == r.id then [f.value] else []
  {
    if es != [] {
      ExistingIsFiled(Front(es), r);
      FiledHasFile(Front(es), PathOf(r));
    }
  }

  lemma FiledProper(es: History, p: Path)
    requires Settled(es) && Filed(es, p).Some?
    ensures Proper(Filed(es, p).value)
  {
    FiledHasFile(es, p);
    var i :| 0 <= i < |es| && es[i] == Filed(es, p).value;
    SettledFiled(es, i);
  }

  /** A commit keeps the store settled and never rewrites history. */
  lemma OutcomeSettled(v: History, q: Request)
    requires Settled(v)
    ensures Settled(Outcome(v, q).1) && v <= Outcome(v, q).1 && |Outcome(v, q).1| <= |v| + 1
  {
    FiledHasFile(v, PathOf(q.record));
    if Filed(v, PathOf(q.record)).None? && Refusal(q).None? {
      SettledGrows(v, q.timestamp, q.record);
    }
  }

  /** Committing what is already there changes nothing; different content under a used identity is refused;
      so is a second identity that collapses to a used file name. */
  lemma OutcomeOnUsedPath(v: History, q: Request, i: nat)
    requires Settled(v) && Refusal(q).None?
    requires i < |v| && PathOf(v[i].payload) == PathOf(q.record)
    ensures Outcome(v, q).1 == v
    ensures v[i].payload == q.record ==> Outcome(v, q).0 == Ok(v[i])
    ensures v[i].payload != q.record ==>
              Outcome(v, q).0 == Err(if v[i].payload.id == q.record.id then RecordExists else RecordStorageConflict)
  {
    SettledFiled(v, i);
    FiledHasFile(v, PathOf(q.record));
    var j :| 0 <= j < |v| && v[j] == Filed(v, PathOf(q.record)).value;
    SettledDistinct(v, i, j);
  }

  /** A request with nothing wrong in it: one type throughout, current schema, a usable identity, sizes within the
      limits. */
  predicate InOrder(q: Request, k: Kind) {
    && q.group == k && q.kind == k && KindOf(q.record) == k && q.currentSchema
    && q.record.id != "" && q.record.id != "." && q.record.id != ".."
    && q.recordBytes <= 4_000_000 && q.lineBytes <= 16_000_000
  }

  /** Ordinary records are stored: a request in order, under a portable identity no entry of its kind bears, is appended
      as the next entry, whatever else the ledger holds. */
  lemma PortableCommits(v: History, q: Request, k: Kind)
    requires Settled(v) && InOrder(q, k) && Portable(q.record.id)
    requires forall i :: 0 <= i < |v| && v[i].kind == k ==> Portable(v[i].payload.id)
    requires forall i :: 0 <= i < |v| && v[i].kind == k ==> v[i].payload.id != q.record.id
    ensures Outcome(v, q).0.Ok?
    ensures var e := Outcome(v, q).0.value;
            && Outcome(v, q).1 == v + [e] && e.sequence == |v| + 1 && e.timestamp == q.timestamp && e.kind == k
            && e.previous == (if v == [] then Genesis else v[|v| - 1].hash) && e.payload == q.record
            && e.hash == Sha(e.sequence, e.timestamp, e.kind, e.previous, e.payload)
  {
    var p := PathOf(q.record);
    FiledHasFile(v, p);
    SafeNameKeeps(q.record.id);
    if Filed(v, p).Some? {
      var e := Filed(v, p).value;
      FiledProper(v, p);
      var i :| 0 <= i < |v| && v[i] == e;
      SafeNameKeeps(e.payload.id);
    }
  }

  /** Every defect is refused with its own error, and the ledger stays as it was. */
  lemma DefectsRefused(v: History, q: Request)
    ensures q.group != q.kind ==> Outcome(v, q) == (Err(RecordContext), v)
    ensures q.group == q.kind && KindOf(q.record) != q.kind ==> Outcome(v, q) == (Err(RecordTypeMismatch), v)
    ensures q.group == q.kind == KindOf(q.record) && !q.currentSchema ==> Outcome(v, q) == (Err(RecordVersionWrite), v)
    ensures q.group == q.kind == KindOf(q.record) && q.currentSchema ==>
              && (q.record.id in {"", ".", ".."} ==> Outcome(v, q) == (Err(RecordIdentity), v))
              && (q.record.id !in {"", ".", ".."} ==> q.recordBytes > 4_000_000 ==>
                    Outcome(v, q) == (Err(RecordSize), v))
  {
  }

  /** A ledger line over its limit is refused too, where nothing is filed yet. */
  lemma LongLineRefused(v: History, q: Request, k: Kind)
    requires InOrder(q.(lineBytes := 0), k) && q.lineBytes > 16_000_000
    requires forall i :: 0 <= i < |v| ==> PathOf(v[i].payload) != PathOf(q.record)
    ensures Outcome(v, q) == (Err(RecordSize), v)
  {
    FiledHasFile(v, PathOf(q.record));
  }

  ghost function CountOf(es: History, r: Record): nat {
    if es == [] then 0 else CountOf(Front(es), r) + if Last(es).payload == r then 1 else 0
  }

  /** A successful commit leaves exactly one entry for its record. */
  lemma OutcomeHoldsOnce(v: History, q: Request)
    requires Settled(v) && Outcome(v, q).0.Ok?
    ensures CountOf(Outcome(v, q).1, q.record) == 1
    ensures Outcome(v, q).0.value in Outcome(v, q).1 && Outcome(v, q).0.value.payload == q.record
  {
    FiledHasFile(v, PathOf(q.record));
    CountOnce(v, q.record);
    if Outcome(v, q).1 != v {
      SettledGrows(v, q.timestamp, q.record);
    }
  }

  lemma {:induction false} CountOnce(es: History, r: Record)
    requires Settled(es)
    ensures CountOf(es, r) == if PathOf(r) in Files(es) && Files(es)[PathOf(r)] == Document(r) then 1 else 0
  {
    if es != [] {
      CountOnce(Front(es), r);
    }
  }

  predicate Normal(es: seq<Entry>) {
    forall i :: 0 <= i < |es| ==> es[i].kind == KindOf(es[i].payload)
  }
}
