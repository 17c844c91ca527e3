/** The derived index over the ledger, and kind selection through it. */
module LedgerIndex {
  import opened Records
  import opened HashChain

  datatype Item = Number(n: int) | NotNumber

  datatype Sequences = SequenceList(items: seq<Item>) | NotList

  /** Whatever the index file may hold; `Broken` is text that is not a JSON object. */
  datatype IndexFile =
    | Broken
    | Fields(schema: Option<int>, ledger: Option<Digest>, head: Option<Hash>, count: Option<int>,
             byKind: Option<map<Kind, Sequences>>, identities: map<(Kind, Id), int>)

  type ByKind = map<Kind, seq<int>>

  function SequencesByKind(es: seq<Entry>): ByKind {
    if es == [] then map[]
    else
      var m, e := SequencesByKind(es[..|es| - 1]), es[|es| - 1];
      m[e.kind := (if e.kind in m then m[e.kind] else []) + [e.sequence]]
  }

  function IdentitySequences(es: seq<Entry>): map<(Kind, Id), int> {
    if es == [] then map[]
    else
      var e := es[|es| - 1];
      IdentitySequences(es[..|es| - 1])[(e.kind, e.payload.id) := e.sequence]
  }

  function Listed(s: seq<int>): Sequences {
    SequenceList(seq(|s|, i requires 0 <= i < |s| => Number(s[i])))
  }

  /** The index Forge writes for a ledger. */
  function IndexData(es: seq<Entry>): IndexFile {
    var m := SequencesByKind(es);
    Fields(Some(1), Some(DigestOf(Lines(es))), Some(Head(es)), Some(|es|),
           Some(map k | k in m :: Listed(m[k])), IdentitySequences(es))
  }

  method BuildIndex(es: seq<Entry>) returns (index: IndexFile)
    ensures index == IndexData(es)
  {
    var byKind: ByKind, identities: map<(Kind, Id), int> := map[], map[];
    for i := 0 to |es|
      invariant byKind == SequencesByKind(es[..i])
      invariant identities == IdentitySequences(es[..i])
    {
      var e := es[i];
      byKind := byKind[e.kind := (if e.kind in byKind then byKind[e.kind] else []) + [e.sequence]];
      identities := identities[(e.kind, e.payload.id) := e.sequence];
      assert es[..i + 1][..i] == es[..i];
    }
    assert es[..|es|] == es;
    index := Fields(Some(1), Some(DigestOf(Lines(es))), Some(Head(es)), Some(|es|),
                    Some(map k | k in byKind :: Listed(byKind[k])), identities);
  }

  /** The index names, for each kind, exactly the positions of that kind. */
  lemma {:induction false} IndexNamesPositions(es: seq<Entry>, k: Kind, n: int)
    requires Linked(es)
    ensures var m := SequencesByKind(es); (k in m && n in m[k]) <==> (1 <= n <= |es| && es[n - 1].kind == k)
  {
    if es != [] {
      var i := |es| - 1;
      assert LinkedAt(es, i);
      LinkedPrefix(es, i);
      IndexNamesPositions(es[..i], k, n);
    }
  }

  /** The index names, for each kind and identity, the last entry that bears them. */
  lemma {:induction false} IndexNamesIdentities(es: seq<Entry>, k: Kind, id: Id, i: nat)
    requires Linked(es) && i < |es| && es[i].kind == k && es[i].payload.id == id
    requires forall j :: i < j < |es| ==> es[j].kind != k || es[j].payload.id != id
    ensures (k, id) in IdentitySequences(es) && IdentitySequences(es)[(k, id)] == i + 1
  {
    var n := |es| - 1;
    assert LinkedAt(es, n);
    if i < n {
      LinkedPrefix(es, n);
      IndexNamesIdentities(es[..n], k, id, i);
      assert es[n].kind != k || es[n].payload.id != id;
    }
  }

  /** The plain scan: the entries of the wanted kinds, in ledger order. */
  function Filter(es: seq<Entry>, kinds: set<Kind>): seq<Entry> {
    if es == [] then []
    else
      var e := es[|es| - 1];
      Filter(es[..|es| - 1], kinds) + if e.kind in kinds then [e] else []
  }

  /** The entries at the given sequence numbers, in ascending order. */
  function Pick(es: seq<Entry>, chosen: set<int>): seq<Entry> {
    if es == [] then []
    else Pick(es[..|es| - 1], chosen) + if |es| in chosen then [es[|es| - 1]] else []
  }

  predicate Binds(index: IndexFile, es: seq<Entry>, digest: Digest) {
    && index.Fields?
    && index.schema == Some(1) && index.ledger == Some(digest)
    && index.head == Some(Head(es)) && index.count == Some(|es|) && index.byKind.Some?
  }

  /** The list the index holds for one kind passes the per-item checks. */
  predicate Accepts(byKind: map<Kind, Sequences>, es: seq<Entry>, k: Kind) {
    k in byKind ==>
      && byKind[k].SequenceList?
      && forall i :: 0 <= i < |byKind[k].items| ==> AcceptsItem(byKind[k].items[i], es, k)
  }

  predicate AcceptsItem(item: Item, es: seq<Entry>, k: Kind) {
    item.Number? && 1 <= item.n <= |es| && es[item.n - 1].kind == k
  }

  predicate Usable(index: Option<IndexFile>, es: seq<Entry>, digest: Digest, kinds: set<Kind>) {
    && index.Some?
    && Binds(index.value, es, digest)
    && forall k :: k in kinds ==> Accepts(index.value.byKind.value, es, k)
  }

  /** A selection that keeps ledger order, repeats nothing and holds only entries of the wanted kinds. */
  ghost predicate OrderedSelection(out: seq<Entry>, es: seq<Entry>, kinds: set<Kind>) {
    && (forall i :: 0 <= i < |out| ==>
          1 <= out[i].sequence <= |es| && es[out[i].sequence - 1] == out[i] && out[i].kind in kinds)
    && (forall i, j :: 0 <= i < j < |out| ==> out[i].sequence < out[j].sequence)
  }

  /** An index some ledger state produced. */
  ghost predicate Genuine(index: IndexFile) {
    && index.Fields? && index.ledger.Some? && index.ledger.value.bytes.Lines?
    && Linked(index.ledger.value.bytes.entries)
    && index == IndexData(index.ledger.value.bytes.entries)
  }

  /** Selection through the index, with the fall-back to the scan. For any index content at all the answer is
      an ordered selection; with no index, a rejected one, or one Forge wrote, it is exactly the scan. */
  method Select(es: seq<Entry>, index: Option<IndexFile>, kinds: set<Kind>) returns (out: seq<Entry>)
    requires Linked(es)
    ensures OrderedSelection(out, es, kinds)
    ensures !Usable(index, es, DigestOf(Lines(es)), kinds) ==> out == Filter(es, kinds)
    ensures index in {None, Some(Broken)} ==> out == Filter(es, kinds)
    ensures index.Some? && index.value.Fields? ==>
              var f := index.value;
              && (f.schema != Some(1) || f.ledger != Some(DigestOf(Lines(es))) ==> out == Filter(es, kinds))
              && (f.byKind.None? ==> out == Filter(es, kinds))
              && (f.head != Some(Head(es)) || f.count != Some(|es|) ==> out == Filter(es, kinds))
    ensures index.Some? && Genuine(index.value) ==> out == Filter(es, kinds)
  {
    FilterIsPick(es, kinds);
    PickOrdered(es, Matching(es, kinds), kinds);
    var digest := DigestOf(Lines(es));
    if index.None? || !Binds(index.value, es, digest) {
      return Filter(es, kinds);
    }
    var byKind := index.value.byKind.value;
    var chosen: set<int>, rest := {}, kinds;
    while rest != {}
      invariant rest <= kinds
      invariant forall k :: k in kinds - rest ==> Accepts(byKind, es, k)
      invariant chosen <= Matching(es, kinds)
      invariant Genuine(index.value) ==> Matching(es, kinds - rest) <= chosen
    {
      var k :| k in rest;
      if k in byKind {
        if byKind[k].NotList? {
          GenuineUsable(es, index.value, k);
          return Filter(es, kinds);
        }
        var items := byKind[k].items;
        ghost var before := chosen;
        for i := 0 to |items|
          invariant forall j :: 0 <= j < i ==> AcceptsItem(items[j], es, k)
          invariant chosen <= Matching(es, kinds)
          invariant before <= chosen
          invariant forall j :: 0 <= j < i && items[j].Number? ==> items[j].n in chosen
        {
          if !AcceptsItem(items[i], es, k) {
            GenuineUsable(es, index.value, k);
            return Filter(es, kinds);
          }
          chosen := chosen + {items[i].n};
        }
      }
      if Genuine(index.value) {
        GenuineCovers(es, index.value, k, kinds - rest, chosen);
        assert kinds - (rest - {k}) == (kinds - rest) + {k};
      }
      rest := rest - {k};
    }
    PickOrdered(es, chosen, kinds);
    assert kinds - rest == kinds;
    assert Genuine(index.value) ==> chosen == Matching(es, kinds);
    out := Pick(es, chosen);
  }

  ghost function Matching(es: seq<Entry>, kinds: set<Kind>): set<int> {
    set n | 1 <= n <= |es| && Wanted(es, n, kinds)
  }

  ghost predicate Wanted(es: seq<Entry>, n: int, kinds: set<Kind>) {
    1 <= n <= |es| && es[n - 1].kind in kinds
  }

  lemma GenuineUsable(es: seq<Entry>, index: IndexFile, k: Kind)
    requires Linked(es) && Binds(index, es, DigestOf(Lines(es)))
    ensures Genuine(index) ==> Accepts(index.byKind.value, es, k)
  {
    if Genuine(index) && k in index.byKind.value {
      var s := SequencesByKind(es)[k];
      forall i | 0 <= i < |s| ensures AcceptsItem(index.byKind.value[k].items[i], es, k) {
        IndexNamesPositions(es, k, s[i]);
      }
    }
  }

  lemma GenuineCovers(es: seq<Entry>, index: IndexFile, k: Kind, done: set<Kind>, chosen: set<int>)
    requires Linked(es) && Binds(index, es, DigestOf(Lines(es))) && Genuine(index)
    requires Matching(es, done) <= chosen
    requires var m := index.byKind.value;
             k in m ==> m[k].SequenceList? &&
                        forall j :: 0 <= j < |m[k].items| && m[k].items[j].Number? ==> m[k].items[j].n in chosen
    ensures Matching(es, done + {k}) <= chosen
  {
    forall n | n in Matching(es, done + {k}) ensures n in chosen {
      if n !in Matching(es, done) {
        IndexNamesPositions(es, k, n);
        var s := SequencesByKind(es)[k];
        var j :| 0 <= j < |s| && s[j] == n;
        assert index.byKind.value[k].items[j] == Number(n);
      }
    }
  }

  lemma {:induction false} FilterIsPick(es: seq<Entry>, kinds: set<Kind>)
    ensures Filter(es, kinds) == Pick(es, Matching(es, kinds))
  {
    if es != [] {
      var front := es[..|es| - 1];
      FilterIsPick(front, kinds);
      PickCongruent(front, Matching(front, kinds), Matching(es, kinds));
    }
  }

  lemma {:induction false} PickCongruent(es: seq<Entry>, a: set<int>, b: set<int>)
    requires forall n :: 1 <= n <= |es| ==> (n in a <==> n in b)
    ensures Pick(es, a) == Pick(es, b)
  {
    if es != [] {
      PickCongruent(es[..|es| - 1], a, b);
    }
  }

  lemma {:induction false} PickOrdered(es: seq<Entry>, chosen: set<int>, kinds: set<Kind>)
    requires Linked(es) && forall n :: n in chosen && 1 <= n <= |es| ==> es[n - 1].kind in kinds
    ensures OrderedSelection(Pick(es, chosen), es, kinds)
  {
    if es != [] {
      var i := |es| - 1;
      assert LinkedAt(es, i);
      LinkedPrefix(es, i);
      PickOrdered(es[..i], chosen, kinds);
    }
  }
}
