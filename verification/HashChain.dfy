/** The hash-linked ledger: raw entries, the verification loop, and the verified-head cache. */
module HashChain {
  import opened Records

  /** SHA-256 of an entry body, as a free constructor: injective, and never the genesis hash. */
  datatype Hash =
    | Genesis
    | Sha(sequence: int, timestamp: string, kind: Kind, previous: Hash, payload: Record)

  datatype Entry = Entry(sequence: int, timestamp: string, kind: Kind, previous: Hash, payload: Record, hash: Hash)

  function BodyHash(e: Entry): Hash {
    Sha(e.sequence, e.timestamp, e.kind, e.previous, e.payload)
  }

  datatype ChainError = BadSequence(at: nat) | BadLink(at: nat) | BadHash(at: nat)

  /** What an intact ledger is, entry by entry. */
  ghost predicate Linked(es: seq<Entry>) {
    forall i :: 0 <= i < |es| ==> LinkedAt(es, i)
  }

  ghost predicate LinkedAt(es: seq<Entry>, i: int)
    requires 0 <= i < |es|
  {
    && es[i].sequence == i + 1
    && es[i].previous == Head(es[..i])
    && es[i].hash == BodyHash(es[i])
  }

  function Head(es: seq<Entry>): Hash {
    if es == [] then Genesis else es[|es| - 1].hash
  }

  /** The outcome of the verification loop: the head of an intact ledger, or the first fault, with the
      sequence number tested before the link and the link before the hash. */
  ghost predicate Verdicts(es: seq<Entry>, r: Result<Hash, ChainError>) {
    match r
    case Ok(head) => Linked(es) && head == Head(es)
    case Err(fault) =>
      var at := fault.at;
      && 1 <= at <= |es|
      && Linked(es[..at - 1])
      && var e := es[at - 1];
         match fault
         case BadSequence(_) => e.sequence != at
         case BadLink(_) => e.sequence == at && e.previous != Head(es[..at - 1])
         case BadHash(_) => e.sequence == at && e.previous == Head(es[..at - 1]) && e.hash != BodyHash(e)
  }

  /** `Verdicts` fixes the outcome: a ledger has exactly one. */
  lemma VerdictUnique(es: seq<Entry>, r: Result<Hash, ChainError>, s: Result<Hash, ChainError>)
    requires Verdicts(es, r) && Verdicts(es, s)
    ensures r == s
  {
    if r.Err? {
      Broken(es, r.error.at - 1, s);
    }
    if s.Err? {
      Broken(es, s.error.at - 1, r);
    }
  }

  lemma Broken(es: seq<Entry>, k: nat, s: Result<Hash, ChainError>)
    requires k < |es| && !LinkedAt(es, k) && Verdicts(es, s)
    ensures s.Err? && s.error.at <= k + 1
  {
    if s.Err? && k < s.error.at - 1 {
      LinkedBelow(es, s.error.at - 1, k);
    }
  }

  lemma LinkedBelow(es: seq<Entry>, n: nat, k: nat)
    requires k < n <= |es| && Linked(es[..n])
    ensures LinkedAt(es, k)
  {
    assert LinkedAt(es[..n], k);
    assert es[..n][..k] == es[..k];
  }

  /** The verification loop. */
  method VerifyLoop(es: seq<Entry>) returns (r: Result<Hash, ChainError>)
    ensures Verdicts(es, r)
  {
    var previous := Genesis;
    for i := 0 to |es|
      invariant Linked(es[..i])
      invariant previous == Head(es[..i])
    {
      var e := es[i];
      var expected := BodyHash(e);
      if e.sequence != i + 1 {
        return Err(BadSequence(i + 1));
      }
      if e.previous != previous {
        return Err(BadLink(i + 1));
      }
      if e.hash != expected {
        return Err(BadHash(i + 1));
      }
      LinkedExtends(es[..i], e);
      assert es[..i] + [e] == es[..i + 1];
      previous := expected;
    }
    assert es[..|es|] == es;
    r := Ok(previous);
  }

  /** The next entry for a ledger. */
  function Build(es: seq<Entry>, timestamp: string, payload: Record): (e: Entry)
    ensures e.payload == payload
  {
    var n := |es| + 1;
    var k := KindOf(payload);
    Entry(n, timestamp, k, Head(es), payload, Sha(n, timestamp, k, Head(es), payload))
  }

  lemma LinkedExtends(es: seq<Entry>, e: Entry)
    requires e.sequence == |es| + 1 && e.previous == Head(es) && e.hash == BodyHash(e)
    ensures Linked(es + [e]) <==> Linked(es)
  {
    var all := es + [e];
    forall i | 0 <= i < |es| ensures LinkedAt(all, i) <==> LinkedAt(es, i) {
      assert all[..i] == es[..i];
    }
    assert all[..|es|] == es;
    if Linked(all) {
      forall i | 0 <= i < |es| ensures LinkedAt(es, i) { assert LinkedAt(all, i); }
    }
  }

  lemma LinkedPrefix(es: seq<Entry>, n: nat)
    requires Linked(es) && n <= |es|
    ensures Linked(es[..n])
  {
    forall i | 0 <= i < n ensures LinkedAt(es[..n], i) {
      assert es[..n][..i] == es[..i];
      assert LinkedAt(es, i);
    }
  }

  /** The head pins the whole history: two intact ledgers with one head hash are the same ledger. */
  lemma {:induction false} HeadDetermines(a: seq<Entry>, b: seq<Entry>)
    requires Linked(a) && Linked(b) && Head(a) == Head(b)
    ensures a == b
    decreases |a|
  {
    assert a != [] ==> LinkedAt(a, |a| - 1);
    assert b != [] ==> LinkedAt(b, |b| - 1);
    if a != [] && b != [] {
      var m, n := |a| - 1, |b| - 1;
      LinkedPrefix(a, m);
      LinkedPrefix(b, n);
      HeadDetermines(a[..m], b[..n]);
      assert a == a[..m] + [a[m]] && b == b[..n] + [b[n]];
    }
  }

  /** File contents. A stage that a crash cut short is an arbitrary value of this type. */
  datatype Bytes = Lines(entries: seq<Entry>) | Document(record: Record) | Truncated(junk: nat) | Garbled(junk: nat)

  /** SHA-256 of file contents, injective. */
  datatype Digest = DigestOf(bytes: Bytes)

  datatype LedgerError = RecoveryRequired | LedgerTruncated | LedgerMalformed | Chain(fault: ChainError)

  function Parse(b: Bytes): Result<seq<Entry>, LedgerError> {
    match b
    case Lines(es) => Ok(es)
    case Truncated(_) => Err(LedgerTruncated)
    case Document(_) => Err(LedgerMalformed)
    case Garbled(_) => Err(LedgerMalformed)
  }

  /** A Python list object: compared by reference in the fast path. */
  class RawList {
    const entries: seq<Entry>

    constructor (entries: seq<Entry>)
      ensures this.entries == entries
    {
      this.entries := entries;
    }
  }

  /** What reading and verifying the given file contents must return, without any cache. */
  ghost predicate VerifiedRead(b: Bytes, r: Result<seq<Entry>, LedgerError>) {
    match Parse(b)
    case Err(e) => r == Err(e)
    case Ok(es) => if Linked(es) then r == Ok(es) else r.Err? && r.error.Chain? && Verdicts(es, Err(r.error.fault))
  }

  /** The ledger reader with its parsed-history cache and its verified-head cache. */
  class Ledger {
    var cachedDigest: Option<Digest>
    var cachedRaw: RawList?
    var verifiedDigest: Option<Digest>
    var verifiedHead: Option<Hash>

    /** The caches describe the contents whose digest they carry. */
    ghost predicate Valid()
      reads this
    {
      && (cachedRaw != null ==> cachedDigest.Some? && Parse(cachedDigest.value.bytes) == Ok(cachedRaw.entries))
      && (verifiedHead.Some? ==>
            && verifiedDigest.Some?
            && Parse(verifiedDigest.value.bytes).Ok?
            && Verdicts(Parse(verifiedDigest.value.bytes).value, Ok(verifiedHead.value)))
    }

    constructor ()
      ensures Valid()
    {
      cachedDigest, cachedRaw, verifiedDigest, verifiedHead := None, null, None, None;
    }

    /** Read the ledger; `disk` is the file now on disk, or `None` when there is no file. */
    method ReadRaw(disk: Option<Bytes>) returns (r: Result<RawList, LedgerError>)
      requires Valid()
      modifies this
      ensures Valid()
      ensures verifiedDigest == old(verifiedDigest) && verifiedHead == old(verifiedHead)
      ensures var b := if disk.Some? then disk.value else Lines([]);
              match Parse(b)
              case Err(e) => r == Err(e) && cachedDigest == old(cachedDigest) && cachedRaw == old(cachedRaw)
              case Ok(es) => r.Ok? && r.value == cachedRaw && r.value.entries == es && cachedDigest == Some(DigestOf(b))
    {
      if disk.None? {
        cachedDigest := Some(DigestOf(Lines([])));
        cachedRaw := new RawList([]);
        return Ok(cachedRaw);
      }
      var digest := DigestOf(disk.value);
      if Some(digest) == cachedDigest && cachedRaw != null {
        return Ok(cachedRaw);
      }
      var parsed := Parse(disk.value);
      if parsed.Err? {
        return Err(parsed.error);
      }
      cachedDigest := Some(digest);
      cachedRaw := new RawList(parsed.value);
      return Ok(cachedRaw);
    }

    /** Verify any list object, fast path included: the outcome is always the one the full loop gives. */
    method VerifyRaw(records: RawList) returns (r: Result<Hash, ChainError>)
      requires Valid()
      modifies this`verifiedDigest, this`verifiedHead
      ensures Valid()
      ensures Verdicts(records.entries, r)
    {
      if records == cachedRaw && cachedDigest == verifiedDigest && verifiedHead.Some? {
        return Ok(verifiedHead.value);
      }
      r := VerifyLoop(records.entries);
      if r.Err? {
        return;
      }
      if records == cachedRaw {
        verifiedDigest := cachedDigest;
        verifiedHead := Some(r.value);
      }
    }

    /** Read then verify, as every caller does under the ledger lock. Whatever was read or verified before,
        and whatever other processes did to the file, the answer is that of an uncached reader. */
    method ReadVerified(disk: Option<Bytes>) returns (r: Result<seq<Entry>, LedgerError>)
      requires Valid()
      modifies this
      ensures Valid()
      ensures VerifiedRead(if disk.Some? then disk.value else Lines([]), r)
    {
      var raw := ReadRaw(disk);
      if raw.Err? {
        return Err(raw.error);
      }
      var head := VerifyRaw(raw.value);
      if head.Err? {
        VerdictNotLinked(raw.value.entries, head.error);
        return Err(Chain(head.error));
      }
      return Ok(raw.value.entries);
    }

    /** `verify_chain`: refuse while a transaction directory exists, else report the entry count and head. */
    method VerifyChain(disk: Option<Bytes>, unresolved: bool) returns (r: Result<(nat, Hash), LedgerError>)
      requires Valid()
      modifies this
      ensures Valid()
      ensures unresolved ==> r == Err(RecoveryRequired)
      ensures !unresolved ==>
                var b := if disk.Some? then disk.value else Lines([]);
                && (r.Ok? <==> Parse(b).Ok? && Linked(Parse(b).value))
                && (r.Ok? ==> r.value == (|Parse(b).value|, Head(Parse(b).value)))
    {
      if unresolved {
        return Err(RecoveryRequired);
      }
      var raw := ReadRaw(disk);
      if raw.Err? {
        return Err(raw.error);
      }
      var head := VerifyRaw(raw.value);
      if head.Err? {
        VerdictNotLinked(raw.value.entries, head.error);
        return Err(Chain(head.error));
      }
      return Ok((|raw.value.entries|, head.value));
    }
  }

  lemma VerdictNotLinked(es: seq<Entry>, fault: ChainError)
    requires Verdicts(es, Err(fault))
    ensures !Linked(es)
  {
    assert !LinkedAt(es, fault.at - 1);
  }
}
