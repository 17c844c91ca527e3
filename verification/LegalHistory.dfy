/** What every history grown through the gates looks like, and what the projection says of it. */
module LegalHistory {
  import opened Records
  import opened Readiness
  import opened Lifecycle

  /** The candidates registered since the last epoch began, in registration order. */
  function Trail(log: Log): seq<CandidateRecord> {
    if log == [] || End(log).Epoch? then []
    else if End(log).Candidate? then Trail(Init(log)) + [End(log)]
    else Trail(Init(log))
  }

  function Newest(log: Log): Option<Id> {
    if Trail(log) == [] then None else Some(End(Trail(log)).id)
  }

  function ActiveId(log: Log): Option<Id> {
    if Epochs(log) == [] then None else Some(End(Epochs(log)).id)
  }

  predicate IsFrozen(log: Log) {
    Newest(log).Some? && FreezesOf(log, Newest(log).value) != []
  }

  /** The part of the one-step discipline the gates enforce: what a record appended to `log` has to satisfy. */
  predicate Gated(log: Log, r: Record) {
    match r
    case Epoch(_, parent, _, _) => parent == ActiveId(log)
    case Candidate(_, parent, source, _) => ActiveId(log) == Some(source) && parent == Newest(log) && !IsFrozen(log)
    case Disposition(_, c, verdict, _, evidence, _) =>
      Newest(log) == Some(c) && DispositionsOf(log, c) == [] && (verdict == Selected ==> evidence == Pass)
    case Freeze(_, c, selection, _, _) =>
      && Newest(log) == Some(c) && FreezesOf(log, c) == [] && |DispositionsOf(log, c)| == 1
      && var d := DispositionsOf(log, c)[0]; d.verdict == Selected && d.evidence == Pass && d.id == selection
    case Evaluation(_, c, _, _) => Newest(log) == Some(c) && IsFrozen(log)
    case VerifierAction(_, _, mode, c, freeze, _, _, _, _) =>
      && Newest(log) == Some(c)
      && (mode == Development ==> !IsFrozen(log) && freeze == None)
      && (mode == Evaluator ==> IsFrozen(log) && freeze == Some(FreezesOf(log, c)[0].id))
    case WorkflowResult(_, c, projectScoped, _, _, _, _) => !projectScoped ==> Newest(log) == Some(c) && !IsFrozen(log)
    case Bundle(_, c, _, _) => Newest(log) == Some(c)
    case VerifierResult(_, _, _, _, _, _, _, _, _, _, _) => true
    case Other(_, _, _) => true
  }

  /** The part the store enforces: no epoch or candidate identity comes twice. */
  predicate NewIdentity(log: Log, r: Record) {
    && (r.Epoch? ==> r.id !in Ids(Epochs(log)))
    && (r.Candidate? ==> r.id !in Ids(Candidates(log)))
  }

  predicate Allowed(log: Log, r: Record) {
    NewIdentity(log, r) && Gated(log, r)
  }

  predicate Legal(log: Log) {
    log == [] || (Legal(Init(log)) && Allowed(Init(log), End(log)))
  }

  /* ---- Epochs ---- */

  lemma {:induction false} LegalEpochs(log: Log)
    requires Legal(log)
    ensures EpochsCoherent(Epochs(log))
  {
    if log != [] {
      var es := Epochs(Init(log));
      LegalEpochs(Init(log));
      if End(log).Epoch? {
        assert Init(es + [End(log)]) == es;
      }
    }
  }

  lemma {:induction false} IdsOfSnoc(rs: seq<Record>, r: Record)
    ensures Ids(rs + [r]) == Ids(rs) + [r.id]
  {
    assert Init(rs + [r]) == rs;
  }

  /** Every candidate names an epoch already begun. */
  lemma {:induction false} LegalSources(log: Log, c: CandidateRecord)
    requires Legal(log) && c in Candidates(log)
    ensures c.sourceEpoch in Ids(Epochs(log))
  {
    var front := Init(log);
    if c in Candidates(front) {
      LegalSources(front, c);
    }
    if End(log).Epoch? {
      IdsOfSnoc(Epochs(front), End(log));
    }
    if Epochs(front) != [] {
      IdsOfSnoc(Init(Epochs(front)), End(Epochs(front)));
      assert Init(Epochs(front)) + [End(Epochs(front))] == Epochs(front);
    }
  }

  lemma {:induction false} OfEpochNone(cs: seq<CandidateRecord>, epoch: Id)
    requires forall c :: c in cs ==> c.sourceEpoch != epoch
    ensures OfEpoch(cs, epoch) == []
  {
    if cs != [] {
      OfEpochNone(Init(cs), epoch);
    }
  }

  /** The candidates naming the active epoch are exactly those registered since it began. */
  lemma {:induction false} LegalTrail(log: Log)
    requires Legal(log)
    ensures Epochs(log) == [] ==> Candidates(log) == [] && Trail(log) == []
    ensures Epochs(log) != [] ==> OfEpoch(Candidates(log), End(Epochs(log)).id) == Trail(log)
  {
    if log != [] {
      var front, r := Init(log), End(log);
      LegalTrail(front);
      if r.Epoch? {
        forall c | c in Candidates(front) ensures c.sourceEpoch != r.id {
          LegalSources(front, c);
        }
        OfEpochNone(Candidates(front), r.id);
      } else if r.Candidate? {
        assert Init(Candidates(log)) == Candidates(front);
      }
    }
  }

  lemma {:induction false} NotBegunNotStraggling(log: Log, epoch: Id)
    requires epoch !in Ids(Epochs(log))
    ensures !Straggles(log, epoch)
  {
    if log != [] {
      if End(log).Epoch? {
        IdsOfSnoc(Epochs(Init(log)), End(log));
      }
      NotBegunNotStraggling(Init(log), epoch);
    }
  }

  lemma {:induction false} LegalNoStraggler(log: Log)
    requires Legal(log) && Epochs(log) != []
    ensures !Straggles(log, End(Epochs(log)).id)
  {
    var front := Init(log);
    if End(log).Epoch? {
      NotBegunNotStraggling(front, End(log).id);
    } else {
      LegalNoStraggler(front);
    }
  }

  /* ---- Lineage ---- */

  predicate DistinctIds(cs: seq<CandidateRecord>) {
    cs == [] || (DistinctIds(Init(cs)) && End(cs).id !in Ids(Init(cs)))
  }

  lemma {:induction false} IdsMember(rs: seq<Record>, id: Id)
    ensures id in Ids(rs) <==> exists r :: r in rs && r.id == id
  {
    if rs != [] {
      IdsMember(Init(rs), id);
      assert forall r :: r in rs <==> r in Init(rs) || r == End(rs);
    }
  }

  lemma {:induction false} LegalDistinct(log: Log)
    requires Legal(log)
    ensures DistinctIds(Candidates(log))
  {
    if log != [] {
      LegalDistinct(Init(log));
      if End(log).Candidate? {
        assert Init(Candidates(log)) == Candidates(Init(log));
      }
    }
  }

  /** With no identity repeated, looking a candidate up by identity finds that candidate. */
  lemma {:induction false} DistinctKnown(cs: seq<CandidateRecord>, c: CandidateRecord)
    requires DistinctIds(cs) && c in cs
    ensures c.id in Known(cs) && Known(cs)[c.id] == c
  {
    if c in Init(cs) {
      DistinctKnown(Init(cs), c);
      IdsMember(Init(cs), c.id);
    }
  }

  /** A chain of parents: the first candidate has none, every other one names its predecessor. */
  predicate Chain(cs: seq<CandidateRecord>) {
    cs == [] || (Chain(Init(cs)) && End(cs).parent == (if Init(cs) == [] then None else Some(End(Init(cs)).id)))
  }

  lemma {:induction false} TrailWithin(log: Log)
    requires Legal(log)
    ensures forall c :: c in Trail(log) ==> c in Candidates(log) && ActiveId(log) == Some(c.sourceEpoch)
  {
    if log != [] {
      TrailWithin(Init(log));
    }
  }

  lemma {:induction false} LegalChain(log: Log)
    requires Legal(log)
    ensures Chain(Trail(log)) && DistinctIds(Trail(log))
  {
    if log != [] {
      var front, r := Init(log), End(log);
      LegalChain(front);
      if r.Candidate? {
        assert Init(Trail(front) + [r]) == Trail(front);
        TrailWithin(front);
        IdsMember(Trail(front), r.id);
        IdsMember(Candidates(front), r.id);
      }
    }
  }

  /** Following the parents from the newest candidate visits the whole chain and never comes back. */
  lemma {:induction false} WalkChain(known: map<Id, CandidateRecord>, cs: seq<CandidateRecord>, seen: set<Id>)
    requires WellKnown(known) && cs != [] && Chain(cs) && DistinctIds(cs)
    requires forall c :: c in cs ==> c.id in known && known[c.id] == c && c.id !in seen
    ensures Walk(known, Some(End(cs)), seen) == (Ids(cs), false)
  {
    var front, c := Init(cs), End(cs);
    assert c in cs;
    if front != [] {
      forall b | b in front ensures b.id in known && known[b.id] == b && b.id !in seen + {c.id} {
        IdsMember(front, b.id);
      }
      WalkChain(known, front, seen + {c.id});
      assert ParentOf(known, c) == Some(End(front));
    }
  }

  lemma {:induction false} ChainCoherent(known: map<Id, CandidateRecord>, cs: seq<CandidateRecord>, epoch: Id)
    requires Chain(cs) && DistinctIds(cs)
    requires forall c :: c in cs ==> c.id in known && known[c.id] == c && c.sourceEpoch == epoch
    ensures LineageCoherent(cs, known, epoch)
  {
    if cs != [] {
      ChainCoherent(known, Init(cs), epoch);
      if Init(cs) != [] {
        assert End(Init(cs)) in cs;
        IdsMember(Init(cs), End(Init(cs)).id);
      }
    }
  }

  /* ---- Dispositions and freezes ---- */

  lemma {:induction false} LegalAtMostOne(log: Log, c: Id)
    requires Legal(log)
    ensures |DispositionsOf(log, c)| <= 1 && |FreezesOf(log, c)| <= 1
  {
    if log != [] {
      LegalAtMostOne(Init(log), c);
    }
  }

  /* ---- The projection of a legal history ---- */

  /** Every legal history has one reading: the candidate projection finds no conflict, its current candidate is the
      newest one, and its lineage is the registrations since the epoch began, in order. */
  lemma LegalView(log: Log, observed: Id)
    requires Legal(log)
    ensures var v := CandidatesSeen(log, LastOf(Epochs(log)), observed);
            && v.limitations == [] && v.coherent && v.lineage == Ids(Trail(log)) && v.candidate == LastOf(Trail(log))
            && v.freshness == (if v.candidate.None? then Unclear
                               else if v.candidate.value.id == observed then Current else Stale)
  {
    LegalTrail(log);
    if Epochs(log) != [] {
      var epoch, all, mine := End(Epochs(log)).id, Candidates(log), Trail(log);
      LegalNoStraggler(log);
      LegalChain(log);
      TrailWithin(log);
      LegalDistinct(log);
      KnownWell(all);
      forall c | c in mine ensures c.id in Known(all) && Known(all)[c.id] == c && c.sourceEpoch == epoch {
        DistinctKnown(all, c);
      }
      ChainCoherent(Known(all), mine, epoch);
      if mine != [] {
        WalkChain(Known(all), mine, {});
      }
    }
  }

  lemma AssembleClean(active: Option<EpochRecord>, superseded: seq<Id>, view: CandidateView, evidence: Evidence,
                      ds: seq<DispositionRecord>, fs: seq<FreezeRecord>, evaluated: bool, bundled: bool)
    requires view.limitations == [] && |ds| <= 1 && |fs| <= 1
    ensures var p := Assemble(active, superseded, true, view, evidence, ds, fs, evaluated, bundled);
            && p.stage != AmbiguousHistory && p.disposition == LastOf(ds) && p.freeze == LastOf(fs)
            && p.disposed == (if ds == [] then Undisposed else Disposed(End(ds).verdict))
  {
    var p := Assemble(active, superseded, true, view, evidence, ds, fs, evaluated, bundled);
    assert p.limitations == if evidence.present != {} then [EvidenceComparabilityLimited] else [];
  }

  /** The machine reads its history as a legal one does: what the gates consult, in terms of the history alone. */
  ghost predicate Reads(m: Machine) {
    && Legal(m.log) && m.p.stage != AmbiguousHistory
    && m.p.active == LastOf(Epochs(m.log)) && m.p.superseded == Superseded(m.log)
    && m.p.lineage == Ids(Trail(m.log)) && m.p.candidate == LastOf(Trail(m.log))
    && match Newest(m.log)
       case None => m.p.disposition.None? && m.p.freeze.None? && m.p.disposed == Undisposed && m.p.freshness == Unclear
       case Some(c) =>
         && m.p.disposition == LastOf(DispositionsOf(m.log, c)) && m.p.freeze == LastOf(FreezesOf(m.log, c))
         && m.p.disposed == (if m.p.disposition.None? then Undisposed else Disposed(m.p.disposition.value.verdict))
         && m.p.freshness == (if c == m.env.candidate then Current else Stale)
  }

  /** No environment makes a legal history ambiguous. */
  lemma LegalProjection(log: Log, env: Env)
    requires Legal(log)
    ensures Reads(Observe(log, env))
    ensures Project(log, env).evidence == EvidenceOf(log, env, LastOf(Trail(log)), env.required, env.policyError)
  {
    LegalView(log, env.candidate);
    LegalEpochs(log);
    var view := CandidatesSeen(log, LastOf(Epochs(log)), env.candidate);
    var some := view.candidate.Some?;
    var c := if some then view.candidate.value.id else "";
    LegalAtMostOne(log, c);
    AssembleClean(LastOf(Epochs(log)), Superseded(log), view,
                  EvidenceOf(log, env, view.candidate, env.required, env.policyError),
                  if some then DispositionsOf(log, c) else [], if some then FreezesOf(log, c) else [],
                  some && Evaluated(log, c), some && Bundled(log, c));
  }

  /* ---- Why the store has to refuse a repeated identity ---- */

  /** A walk that has passed `r` and climbs a chain holding an older candidate of the same identity meets `r` again. */
  lemma {:induction false} WalkMeetsAgain(known: map<Id, CandidateRecord>, cs: seq<CandidateRecord>, seen: set<Id>,
                                          r: CandidateRecord)
    requires WellKnown(known) && cs != [] && Chain(cs) && DistinctIds(cs) && r.id in Ids(cs) && r.id in seen
    requires forall c :: c in cs ==> c.id in known && (c.id != r.id ==> known[c.id] == c && c.id !in seen)
    ensures Walk(known, Some(known[End(cs).id]), seen).1
  {
    var front, c := Init(cs), End(cs);
    assert c in cs;
    if c.id != r.id {
      forall b | b in front && b.id != r.id ensures known[b.id] == b && b.id !in seen + {c.id} {
        IdsMember(front, b.id);
      }
      WalkMeetsAgain(known, front, seen + {c.id}, r);
      assert End(front) in cs;
    }
  }

  /** The registration gate alone would not do: a candidate it lets through whose identity repeats one of its own
      lineage makes the history ambiguous under every observation. */
  lemma RepeatIsAmbiguous(log: Log, r: CandidateRecord, env: Env)
    requires Legal(log) && Gated(log, r) && r.id in Ids(Trail(log))
    ensures Project(log + [r], env).stage == AmbiguousHistory
  {
    var epoch, cs, all := r.sourceEpoch, Trail(log), Candidates(log) + [r];
    LegalTrail(log);
    SnocLists(log, r, epoch);
    LegalChain(log);
    LegalDistinct(log);
    TrailWithin(log);
    KnownWell(all);
    RepeatConflicts(cs, Candidates(log), r, epoch);
    assert Trail(log) != [];
    assert End(cs + [r]) == r;
    ConflictShows(log + [r], env);
  }

  lemma SnocLists(log: Log, r: CandidateRecord, epoch: Id)
    ensures Epochs(log + [r]) == Epochs(log) && Candidates(log + [r]) == Candidates(log) + [r]
    ensures r.sourceEpoch == epoch ==> OfEpoch(Candidates(log) + [r], epoch) == OfEpoch(Candidates(log), epoch) + [r]
  {
    assert Init(log + [r]) == log && Init(Candidates(log) + [r]) == Candidates(log);
  }

  lemma RepeatConflicts(cs: seq<CandidateRecord>, older: seq<CandidateRecord>, r: CandidateRecord, epoch: Id)
    requires cs != [] && Chain(cs) && DistinctIds(cs) && DistinctIds(older) && r.id in Ids(cs)
    requires r.parent == Some(End(cs).id)
    requires forall c :: c in cs ==> c in older
    requires WellKnown(Known(older + [r]))
    ensures r.id in Known(older + [r])
    ensures !LineageCoherent(cs + [r], Known(older + [r]), epoch) || Walk(Known(older + [r]), Some(r), {}).1
  {
    var known := Known(older + [r]);
    assert Init(older + [r]) == older && End(older + [r]) == r;
    assert known == Known(older)[r.id := r];
    forall c | c in cs ensures c.id in known && (c.id != r.id ==> known[c.id] == c) {
      DistinctKnown(older, c);
    }
    assert End(cs) in cs;
    if End(cs).id == r.id {
      SelfParentConflicts(cs, r, known, epoch);
    } else {
      WalkMeetsAgain(known, cs, {r.id}, r);
      assert {} + {r.id} == {r.id};
    }
  }

  lemma SelfParentConflicts(cs: seq<CandidateRecord>, r: CandidateRecord, known: map<Id, CandidateRecord>, epoch: Id)
    requires r.parent == Some(r.id)
    ensures !LineageCoherent(cs + [r], known, epoch)
  {
    assert End(cs + [r]) == r;
  }

  /** A lineage conflict of the active epoch is a limitation that makes the stage ambiguous. */
  lemma ConflictShows(log: Log, env: Env)
    requires Epochs(log) != []
    requires var all, epoch := Candidates(log), End(Epochs(log)).id;
             && OfEpoch(all, epoch) != []
             && (!LineageCoherent(OfEpoch(all, epoch), Known(all), epoch) || LineageWalk(log, epoch).1)
    ensures Project(log, env).stage == AmbiguousHistory
  {
    var active := LastOf(Epochs(log));
    var view := CandidatesSeen(log, active, env.candidate);
    assert CandidateLineageConflict in view.limitations;
    AssembleConflict(active, Superseded(log), EpochsCoherent(Epochs(log)), view,
                     EvidenceOf(log, env, view.candidate, env.required, env.policyError),
                     DispositionsOf(log, view.candidate.value.id), FreezesOf(log, view.candidate.value.id),
                     Evaluated(log, view.candidate.value.id), Bundled(log, view.candidate.value.id));
  }

  lemma AssembleConflict(active: Option<EpochRecord>, superseded: seq<Id>, coherent: bool, view: CandidateView,
                         evidence: Evidence, ds: seq<DispositionRecord>, fs: seq<FreezeRecord>,
                         evaluated: bool, bundled: bool)
    requires CandidateLineageConflict in view.limitations
    ensures Assemble(active, superseded, coherent, view, evidence, ds, fs, evaluated, bundled).stage == AmbiguousHistory
  {
    var p := Assemble(active, superseded, coherent, view, evidence, ds, fs, evaluated, bundled);
    assert CandidateLineageConflict in p.limitations;
    var i :| 0 <= i < |p.limitations| && p.limitations[i] == CandidateLineageConflict;
    assert IsConflict(p.limitations[i]);
  }
}
