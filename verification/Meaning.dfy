/** What the projection and the gates say, in terms of the records a history holds. */
module Meaning {
  import opened Records
  import opened Readiness
  import opened Lifecycle
  import opened LegalHistory
  import opened Gates

  /* ---- The reading functions, by position ---- */

  lemma {:induction false} EvaluatedIff(log: Log, c: Id)
    ensures Evaluated(log, c) <==> exists r :: r in log && r.Evaluation? && r.candidate == c
    ensures Bundled(log, c) <==> exists r :: r in log && r.Bundle? && r.candidate == c
  {
    if log != [] {
      EvaluatedIff(Init(log), c);
      assert forall r :: r in log <==> r in Init(log) || r == End(log);
    }
  }

  lemma {:induction false} CandidateByIdIff(log: Log, id: Id)
    ensures CandidateById(log, id).Some? <==> exists r :: r in log && r.Candidate? && r.id == id
  {
    if log != [] {
      CandidateByIdIff(Init(log), id);
      assert forall r :: r in log <==> r in Init(log) || r == End(log);
    }
  }

  lemma {:induction false} EpochIdsIff(log: Log, id: Id)
    ensures id in Ids(Epochs(log)) <==> exists r :: r in log && r.Epoch? && r.id == id
  {
    if log != [] {
      EpochIdsIff(Init(log), id);
      assert forall r :: r in log <==> r in Init(log) || r == End(log);
      if End(log).Epoch? {
        IdsOfSnoc(Epochs(Init(log)), End(log));
      }
    }
  }

  /** A candidate straggles when it was recorded after the epoch began and names another one. */
  lemma {:induction false} StragglesIff(log: Log, epoch: Id)
    ensures Straggles(log, epoch) <==> exists j :: 0 <= j < |log| && StragglerAt(log, j, epoch)
  {
    if log != [] {
      var front, n := Init(log), |log| - 1;
      StragglesIff(front, epoch);
      EpochIdsIff(front, epoch);
      assert log[..n] == front;
      if Straggles(front, epoch) {
        var j :| 0 <= j < n && StragglerAt(front, j, epoch);
        assert log[..j] == front[..j];
        assert StragglerAt(log, j, epoch);
      } else if Straggles(log, epoch) {
        assert StragglerAt(log, n, epoch);
      }
      if j :| 0 <= j < |log| && StragglerAt(log, j, epoch) {
        if j < n {
          assert log[..j] == front[..j];
          assert StragglerAt(front, j, epoch);
        }
      }
    }
  }

  ghost predicate StragglerAt(log: Log, j: nat, epoch: Id)
    requires j < |log|
  {
    log[j].Candidate? && log[j].sourceEpoch != epoch && exists r :: r in log[..j] && r.Epoch? && r.id == epoch
  }

  /** The superseded epochs are all but the last. */
  lemma SupersededIff(log: Log, i: nat)
    ensures |Superseded(log)| == if Epochs(log) == [] then 0 else |Epochs(log)| - 1
    ensures i < |Superseded(log)| ==> Superseded(log)[i] == Epochs(log)[i].id
  {
    var es := Epochs(log);
    if es != [] {
      IdsAt(es[..|es| - 1], i);
    }
  }

  lemma {:induction false} IdsAt(rs: seq<Record>, i: nat)
    ensures |Ids(rs)| == |rs| && (i < |rs| ==> Ids(rs)[i] == rs[i].id)
  {
    if rs != [] {
      IdsAt(Init(rs), i);
    }
  }

  /** The newest candidate is the last one recorded, with no epoch begun since. */
  lemma {:induction false} NewestIff(log: Log, c: Id)
    ensures Newest(log) == Some(c) <==> exists i :: 0 <= i < |log| && NewestAt(log, i, c)
  {
    if log != [] {
      var front, n := Init(log), |log| - 1;
      NewestIff(front, c);
      if End(log).Candidate? || End(log).Epoch? {
        assert End(log).Candidate? && End(log).id == c ==> NewestAt(log, n, c);
      } else {
        if i :| 0 <= i < n && NewestAt(front, i, c) {
          assert NewestAt(log, i, c);
        }
        if i :| 0 <= i < |log| && NewestAt(log, i, c) {
          assert NewestAt(front, i, c);
        }
      }
    }
  }

  ghost predicate NewestAt(log: Log, i: nat, c: Id)
    requires i < |log|
  {
    log[i].Candidate? && log[i].id == c && forall j :: i < j < |log| ==> !log[j].Candidate? && !log[j].Epoch?
  }

  ghost predicate Follows(es: seq<EpochRecord>, i: nat)
    requires i < |es|
  {
    es[i].parent == (if i == 0 then None else Some(es[i - 1].id)) && forall j :: 0 <= j < i ==> es[j].id != es[i].id
  }

  lemma {:induction false} EpochsCoherentIff(es: seq<EpochRecord>)
    ensures EpochsCoherent(es) <==> forall i :: 0 <= i < |es| ==> Follows(es, i)
  {
    if es != [] {
      var front, n := Init(es), |es| - 1;
      EpochsCoherentIff(front);
      IdsMember(front, End(es).id);
      forall i | 0 <= i < n ensures Follows(front, i) <==> Follows(es, i) {
        assert forall j :: 0 <= j <= i ==> front[j] == es[j];
      }
      assert Follows(es, n) <==>
             End(es).id !in Ids(front) && End(es).parent == if front == [] then None else Some(End(front).id);
    }
  }

  ghost predicate Descends(cs: seq<CandidateRecord>, i: nat, known: map<Id, CandidateRecord>, epoch: Id)
    requires i < |cs|
  {
    && cs[i].parent != Some(cs[i].id) && cs[i].parent == (if i == 0 then None else Some(cs[i - 1].id))
    && (cs[i].parent.Some? ==> cs[i].parent.value in known && known[cs[i].parent.value].sourceEpoch == epoch)
  }

  lemma {:induction false} LineageCoherentIff(cs: seq<CandidateRecord>, known: map<Id, CandidateRecord>, epoch: Id)
    ensures LineageCoherent(cs, known, epoch) <==> forall i :: 0 <= i < |cs| ==> Descends(cs, i, known, epoch)
  {
    if cs != [] {
      var front, n := Init(cs), |cs| - 1;
      LineageCoherentIff(front, known, epoch);
      assert forall i :: 0 <= i < n ==> (Descends(front, i, known, epoch) <==> Descends(cs, i, known, epoch));
      assert Descends(cs, n, known, epoch) || !LineageCoherent(cs, known, epoch);
    }
  }

  lemma {:induction false} HasResultIff(log: Log, action: Id)
    ensures HasResult(log, action) <==> exists r :: r in log && r.VerifierResult? && r.action == action
  {
    if log != [] {
      HasResultIff(Init(log), action);
      assert forall r :: r in log <==> r in Init(log) || r == End(log);
    }
  }

  /** A result ends a recorded action that has none, with the action's own bindings. */
  lemma TerminalIff(a: ActionRecord, results: Log, id: Id, candidate: Id, freeze: Option<Id>, mode: Mode)
    ensures AuthorizeTerminal(a, results, id, candidate, freeze, mode) ==
            if id != a.id then Err(ActionBindingMismatch)
            else if exists r :: r in results && r.VerifierResult? && r.action == a.id then Err(ActionAlreadyTerminated)
            else if candidate == a.candidate && freeze == a.freeze && mode == a.mode then Ok(a)
            else Err(ActionBindingMismatch)
  {
    HasResultIff(results, a.id);
  }

  /* ---- Ambiguity, on any history ---- */

  ghost predicate LineageBroken(log: Log) {
    && Epochs(log) != []
    && var all, epoch := Candidates(log), End(Epochs(log)).id;
       || Straggles(log, epoch) || !LineageCoherent(OfEpoch(all, epoch), Known(all), epoch)
       || (OfEpoch(all, epoch) != [] && LineageWalk(log, epoch).1)
  }

  ghost predicate Doubled(log: Log) {
    && Epochs(log) != []
    && var mine := OfEpoch(Candidates(log), End(Epochs(log)).id);
       mine != [] && (|DispositionsOf(log, End(mine).id)| > 1 || |FreezesOf(log, End(mine).id)| > 1)
  }

  /** A history is ambiguous exactly when its epochs or its lineage do not cohere, or its current candidate was disposed
      of or frozen more than once. Evidence never makes it so. */
  lemma AmbiguousIff(log: Log, env: Env)
    ensures Project(log, env).stage == AmbiguousHistory <==>
            !EpochsCoherent(Epochs(log)) || LineageBroken(log) || Doubled(log)
  {
    var active := LastOf(Epochs(log));
    var view := CandidatesSeen(log, active, env.candidate);
    var some := view.candidate.Some?;
    AssembleStage(active, Superseded(log), EpochsCoherent(Epochs(log)), view,
                  EvidenceOf(log, env, view.candidate, env.required, env.policyError),
                  if some then DispositionsOf(log, view.candidate.value.id) else [],
                  if some then FreezesOf(log, view.candidate.value.id) else [],
                  some && Evaluated(log, view.candidate.value.id), some && Bundled(log, view.candidate.value.id));
    ViewLimits(log, active, env.candidate);
  }

  /** What the gates answer on an ambiguous history: the first limitation, in the order the projection finds them. */
  lemma AmbiguousCode(log: Log, env: Env)
    requires Project(log, env).stage == AmbiguousHistory
    ensures RequireUnambiguous(Observe(log, env)) == Err(
              if !EpochsCoherent(Epochs(log)) then EpochLineageConflict
              else if Straggles(log, End(Epochs(log)).id) then EpochSuperseded
              else if LineageBroken(log) then CandidateLineageConflict
              else if Project(log, env).evidence.present != {} then EvidenceComparabilityLimited
              else if |DispositionsOf(log, End(OfEpoch(Candidates(log), End(Epochs(log)).id)).id)| > 1
                   then CandidateDispositionConflict
              else FreezeConflict)
  {
    AmbiguousIff(log, env);
  }

  lemma ViewLimits(log: Log, active: Option<EpochRecord>, observed: Id)
    requires active == LastOf(Epochs(log))
    ensures var v := CandidatesSeen(log, active, observed);
            && (Ambiguous(v.limitations) <==> LineageBroken(log))
            && v.candidate == (if active.None? then None else LastOf(OfEpoch(Candidates(log), active.value.id)))
  {
    if active.Some? {
      var all, epoch := Candidates(log), active.value.id;
      var mine := OfEpoch(all, epoch);
      LimitsConflict(Straggles(log, epoch), !LineageCoherent(mine, Known(all), epoch),
                     mine != [] && LineageWalk(log, epoch).1);
    }
  }

  lemma LimitsConflict(late: bool, broken: bool, cycle: bool)
    ensures var limits := (if late then [EpochSuperseded] else [])
                          + (if broken then [CandidateLineageConflict] else []);
            && Ambiguous(limits + if cycle then [CandidateLineageConflict] else []) == (late || broken || cycle)
            && (!cycle ==> Ambiguous(limits) == (late || broken))
  {
    var a := if late then [EpochSuperseded] else [];
    var b := if broken then [CandidateLineageConflict] else [];
    var c := if cycle then [CandidateLineageConflict] else [];
    AmbiguousOne(a, EpochSuperseded);
    AmbiguousOne(b, CandidateLineageConflict);
    AmbiguousOne(c, CandidateLineageConflict);
    AmbiguousJoin(a, b);
    AmbiguousJoin(a + b, c);
  }

  /** The stage in terms of what was assembled. */
  lemma AssembleStage(active: Option<EpochRecord>, superseded: seq<Id>, coherent: bool, view: CandidateView,
                      evidence: Evidence, ds: seq<DispositionRecord>, fs: seq<FreezeRecord>,
                      evaluated: bool, bundled: bool)
    ensures var p := Assemble(active, superseded, coherent, view, evidence, ds, fs, evaluated, bundled);
            p.stage == AmbiguousHistory <==> !coherent || Ambiguous(view.limitations) || |ds| > 1 || |fs| > 1
  {
    var p := Assemble(active, superseded, coherent, view, evidence, ds, fs, evaluated, bundled);
    var a := if coherent then [] else [EpochLineageConflict];
    var c := if evidence.present != {} then [EvidenceComparabilityLimited] else [];
    var d := if |ds| > 1 then [CandidateDispositionConflict] else [];
    var e := if |fs| > 1 then [FreezeConflict] else [];
    AmbiguousJoin(a, view.limitations);
    AmbiguousJoin(a + view.limitations, c);
    AmbiguousJoin(a + view.limitations + c, d);
    AmbiguousJoin(a + view.limitations + c + d, e);
    assert p.limitations == a + view.limitations + c + d + e;
    AmbiguousOne(a, EpochLineageConflict);
    AmbiguousOne(c, EvidenceComparabilityLimited);
    AmbiguousOne(d, CandidateDispositionConflict);
    AmbiguousOne(e, FreezeConflict);
  }

  lemma AmbiguousJoin(a: seq<Code>, b: seq<Code>)
    ensures Ambiguous(a + b) <==> Ambiguous(a) || Ambiguous(b)
  {
    if Ambiguous(a) {
      var i :| 0 <= i < |a| && IsConflict(a[i]);
      assert IsConflict((a + b)[i]);
    }
    if Ambiguous(b) {
      var i :| 0 <= i < |b| && IsConflict(b[i]);
      assert IsConflict((a + b)[|a| + i]);
    }
  }

  lemma AmbiguousOne(a: seq<Code>, c: Code)
    requires a == [] || a == [c]
    requires c in {EpochLineageConflict, EpochSuperseded, CandidateLineageConflict, EvidenceComparabilityLimited,
                   CandidateDispositionConflict, FreezeConflict}
    ensures Ambiguous(a) <==> a == [c] && c != EvidenceComparabilityLimited
  {
    if a == [c] {
      assert a[0] == c;
    }
  }

  /* ---- The stage of a legal history ---- */

  ghost predicate HasBundle(log: Log, c: Id) {
    exists r :: r in log && r.Bundle? && r.candidate == c
  }

  ghost predicate HasEvaluation(log: Log, c: Id) {
    exists r :: r in log && r.Evaluation? && r.candidate == c
  }

  ghost predicate HasFreeze(log: Log, c: Id) {
    exists r :: r in log && r.Freeze? && r.candidate == c
  }

  ghost predicate IsDisposed(log: Log, c: Id, verdict: Verdict) {
    exists r :: r in log && r.Disposition? && r.candidate == c && r.verdict == verdict
  }

  /** Each stage of a legal history, from the records it holds about its newest candidate. */
  lemma StageMeans(log: Log, env: Env)
    requires Legal(log)
    ensures Epochs(log) == [] ==> Project(log, env).stage == NoEpoch
    ensures Epochs(log) != [] && Newest(log).None? ==> Project(log, env).stage == EpochActive
    ensures Newest(log).Some? ==>
              var stage, c := Project(log, env).stage, Newest(log).value;
              && (HasBundle(log, c) ==> stage == BundleComplete)
              && (!HasBundle(log, c) && HasEvaluation(log, c) ==> stage == EvaluationComplete)
              && (!HasBundle(log, c) && !HasEvaluation(log, c) ==>
                    && (HasFreeze(log, c) ==> stage == CandidateFrozen)
                    && (!HasFreeze(log, c) ==>
                          && (IsDisposed(log, c, Selected) ==> stage == CandidateSelected)
                          && (IsDisposed(log, c, Rejected) ==> stage == CandidateRejected)
                          && (!IsDisposed(log, c, Selected) && !IsDisposed(log, c, Rejected) ==>
                                stage == OpenStage(Project(log, env).evidence))))
  {
    LegalProjection(log, env);
    LegalTrail(log);
    if Newest(log).Some? {
      var c := Newest(log).value;
      StageRead(Observe(log, env), c);
      EvaluatedIff(log, c);
      FreezeIff(log, c);
      DisposedIff(log, c, Selected);
      DisposedIff(log, c, Rejected);
      LegalAtMostOne(log, c);
      ReadDisposed(Observe(log, env), c);
      StageCases(Project(log, env), log, c);
    }
  }

  lemma ReadDisposed(m: Machine, c: Id)
    requires Reads(m) && Newest(m.log) == Some(c) && |DispositionsOf(m.log, c)| <= 1
    ensures forall v :: m.p.disposed == Disposed(v) <==> exists d :: d in DispositionsOf(m.log, c) && d.verdict == v
    ensures m.p.freeze.Some? <==> FreezesOf(m.log, c) != []
    ensures m.p.active.Some? && m.p.candidate.Some?
  {
    LegalTrail(m.log);
    if DispositionsOf(m.log, c) != [] {
      assert DispositionsOf(m.log, c)[0] in DispositionsOf(m.log, c);
    }
  }

  lemma StageCases(p: Projection, log: Log, c: Id)
    requires p.stage == StageOf(p) != AmbiguousHistory && p.active.Some? && p.candidate.Some?
    requires (p.bundled <==> HasBundle(log, c)) && (p.evaluated <==> HasEvaluation(log, c))
    requires p.freeze.Some? <==> HasFreeze(log, c)
    requires p.disposed == Disposed(Selected) <==> IsDisposed(log, c, Selected)
    requires p.disposed == Disposed(Rejected) <==> IsDisposed(log, c, Rejected)
    ensures HasBundle(log, c) ==> p.stage == BundleComplete
    ensures !HasBundle(log, c) && HasEvaluation(log, c) ==> p.stage == EvaluationComplete
    ensures !HasBundle(log, c) && !HasEvaluation(log, c) && HasFreeze(log, c) ==> p.stage == CandidateFrozen
    ensures !HasBundle(log, c) && !HasEvaluation(log, c) && !HasFreeze(log, c) ==>
              && (IsDisposed(log, c, Selected) ==> p.stage == CandidateSelected)
              && (IsDisposed(log, c, Rejected) ==> p.stage == CandidateRejected)
              && (!IsDisposed(log, c, Selected) && !IsDisposed(log, c, Rejected) ==> p.stage == OpenStage(p.evidence))
  {
  }

  /** Before any disposition the evidence decides. */
  function OpenStage(e: Evidence): Stage {
    if e.ready then CandidateReady else if e.present != {} then EvidenceIncomplete else CandidateRegistered
  }

  lemma StageRead(m: Machine, c: Id)
    requires Reads(m) && Newest(m.log) == Some(c) && m.p == Project(m.log, m.env)
    ensures m.p.evaluated == Evaluated(m.log, c) && m.p.bundled == Bundled(m.log, c) && m.p.stage == StageOf(m.p)
  {
  }

  lemma {:induction false} FreezeIff(log: Log, c: Id)
    ensures FreezesOf(log, c) != [] <==> HasFreeze(log, c)
  {
    if log != [] {
      FreezeIff(Init(log), c);
      assert forall r :: r in log <==> r in Init(log) || r == End(log);
    }
  }

  lemma DisposedIff(log: Log, c: Id, v: Verdict)
    ensures IsDisposed(log, c, v) <==> exists d :: d in DispositionsOf(log, c) && d.verdict == v
  {
    DispositionsNameTheirCandidate(log, c);
    if IsDisposed(log, c, v) {
      var r :| r in log && r.Disposition? && r.candidate == c && r.verdict == v;
      var i :| 0 <= i < |log| && log[i] == r;
      Found(log, i, c);
    }
  }

  /* ---- Drift, name by name ---- */

  /** Every observed name is bound in the freeze, to the observed value. */
  ghost predicate BindingsHold(observed: map<string, Id>, frozen: map<string, Id>) {
    forall name :: name in observed ==> name in frozen && frozen[name] == observed[name]
  }

  /** Evaluator entry opens only where the observed bindings are those the freeze recorded. */
  lemma EvaluatorAgrees(m: Machine, id: Option<Id>)
    requires Reads(m) && AuthorizeEvaluator(m, id).Ok?
    ensures Newest(m.log) == Some(m.env.candidate) && HasFreeze(m.log, m.env.candidate)
    ensures var f := AuthorizeEvaluator(m, id).value.0;
            f in m.log && f.candidate == m.env.candidate && BindingsHold(m.env.bindings, f.bindings)
  {
    EvaluatorGate(m, id);
    var c := m.env.candidate;
    FreezeIff(m.log, c);
    FreezesNameTheirCandidate(m.log, c);
    assert FreezesOf(m.log, c)[0] in FreezesOf(m.log, c);
    var f := AuthorizeEvaluator(m, id).value.0;
    forall name | name in m.env.bindings ensures name in f.bindings && f.bindings[name] == m.env.bindings[name] {
      assert !Drifted(m.env, f);
    }
  }

  /** One name missing or bound to another value is drift, and is reported as such. */
  lemma EvaluatorErrors(m: Machine, id: Option<Id>)
    requires Reads(m)
    ensures m.env.mode == Development ==> AuthorizeEvaluator(m, id) == Err(ModeForbidden)
    ensures m.env.mode == Evaluator && !IsFrozen(m.log) ==> AuthorizeEvaluator(m, id) == Err(NoFreeze)
    ensures m.env.mode == Evaluator && IsFrozen(m.log) && id.Some? && id != Newest(m.log) ==>
              AuthorizeEvaluator(m, id) == Err(EvaluatorMismatch)
    ensures m.env.mode == Evaluator && IsFrozen(m.log) && (id.Some? ==> id == Newest(m.log)) ==>
              var f := FreezesOf(m.log, Newest(m.log).value)[0];
              && (!BindingsHold(m.env.bindings, f.bindings) ==> AuthorizeEvaluator(m, id) == Err(FreezeDrift))
              && (BindingsHold(m.env.bindings, f.bindings) && Newest(m.log) != Some(m.env.candidate) ==>
                    AuthorizeEvaluator(m, id) == Err(StaleCandidate))
  {
    if IsFrozen(m.log) {
      var c := Newest(m.log).value;
      FreezeBindsSelection(m.log, c);
      DriftIff(m.env, FreezesOf(m.log, c)[0]);
    }
  }

  lemma DriftIff(env: Env, f: FreezeRecord)
    ensures Drifted(env, f) <==> !BindingsHold(env.bindings, f.bindings)
  {
    if !BindingsHold(env.bindings, f.bindings) {
      var name :| name in env.bindings && !(name in f.bindings && f.bindings[name] == env.bindings[name]);
      assert name in env.bindings && (name !in f.bindings || f.bindings[name] != env.bindings[name]);
    }
  }

  /* ---- What each gate answers when it stays shut ---- */

  lemma EpochErrors(m: Machine, parent: Option<Id>)
    requires Reads(m)
    ensures m.env.mode == Evaluator ==> AuthorizeEpochBegin(m, parent) == Err(ModeForbidden)
    ensures m.env.mode == Development && Epochs(m.log) == [] && parent.Some? ==>
              AuthorizeEpochBegin(m, parent) == Err(EpochParentInvalid)
    ensures m.env.mode == Development && Epochs(m.log) != [] && parent.None? ==>
              AuthorizeEpochBegin(m, parent) == Err(EpochParentRequired)
    ensures m.env.mode == Development && Epochs(m.log) != [] && parent.Some? && parent != ActiveId(m.log) ==>
              AuthorizeEpochBegin(m, parent) ==
              Err(if exists r :: r in m.log && r.Epoch? && r.id == parent.value
                  then EpochSuperseded else EpochParentInvalid)
  {
    if Epochs(m.log) != [] && parent.Some? && parent != ActiveId(m.log) {
      var es := Epochs(m.log);
      EpochIdsIff(m.log, parent.value);
      IdsOfSnoc(Init(es), End(es));
      assert Init(es) + [End(es)] == es;
    }
  }

  lemma RegisterErrors(m: Machine, parent: Option<Id>, proposed: Id)
    requires Reads(m)
    ensures m.env.mode == Evaluator ==> AuthorizeRegister(m, parent, proposed) == Err(ModeForbidden)
    ensures m.env.mode == Development && Epochs(m.log) == [] ==>
              AuthorizeRegister(m, parent, proposed) == Err(NoActiveEpoch)
    ensures m.env.mode == Development && Epochs(m.log) != [] && End(Epochs(m.log)).authority != m.env.authority ==>
              AuthorizeRegister(m, parent, proposed) == Err(StaleBaseline)
    ensures m.env.mode == Development && Epochs(m.log) != [] && End(Epochs(m.log)).authority == m.env.authority ==>
              && (IsFrozen(m.log) ==> AuthorizeRegister(m, parent, proposed) == Err(EpochFrozen))
              && (!IsFrozen(m.log) && parent.None? && Newest(m.log).Some? ==>
                    AuthorizeRegister(m, parent, proposed) == Err(CandidateParentRequired))
              && (!IsFrozen(m.log) && parent == Some(proposed) && Newest(m.log).Some? ==>
                    AuthorizeRegister(m, parent, proposed) == Err(CandidateParentInvalid))
              && (!IsFrozen(m.log) && parent.Some? && parent != Newest(m.log) && parent != Some(proposed) ==>
                    AuthorizeRegister(m, parent, proposed) ==
                    Err(if exists r :: r in m.log && r.Candidate? && r.id == parent.value
                        then CandidateLineageConflict else CandidateParentInvalid))
  {
    if parent.Some? {
      CandidateByIdIff(m.log, parent.value);
    }
  }

  lemma WorkErrors(m: Machine, id: Option<Id>)
    requires Reads(m)
    ensures m.env.mode == Evaluator ==> AuthorizeWork(m, id, false) == Err(ModeForbidden) == AuthorizeWork(m, id, true)
    ensures m.env.mode == Development ==>
              && AuthorizeWork(m, id, true) == (if id.Some? then Err(WorkflowSubject) else Ok(None))
              && (IsFrozen(m.log) ==> AuthorizeWork(m, id, false) == Err(EpochFrozen))
              && (Newest(m.log).None? ==> AuthorizeWork(m, id, false) == Err(NoCandidate))
              && (!IsFrozen(m.log) && Newest(m.log).Some? && id.Some? && id != Newest(m.log) ==>
                    AuthorizeWork(m, id, false) ==
                    Err(if exists r :: r in m.log && r.Candidate? && r.id == id.value
                        then CandidateNotCurrent else RecordNotFound))
              && (!IsFrozen(m.log) && id == Newest(m.log) != Some(m.env.candidate) && id.Some? ==>
                    AuthorizeWork(m, id, false) == Err(StaleCandidate))
  {
    if id.Some? {
      CandidateByIdIff(m.log, id.value);
    }
  }

  lemma DispositionErrors(m: Machine, id: Id, choice: string)
    requires Reads(m)
    ensures m.env.mode == Evaluator ==> AuthorizeDisposition(m, id, choice) == Err(ModeForbidden)
    ensures m.env.mode == Development && choice !in {"selected", "rejected"} ==>
              AuthorizeDisposition(m, id, choice) == Err(InvalidDisposition)
    ensures m.env.mode == Development && choice in {"selected", "rejected"} && Newest(m.log) == Some(id) ==>
              && (m.env.candidate != id ==> AuthorizeDisposition(m, id, choice) == Err(StaleCandidate))
              && (m.env.candidate == id && (exists r :: r in m.log && r.Disposition? && r.candidate == id) ==>
                    AuthorizeDisposition(m, id, choice) == Err(CandidateAlreadyDisposed))
              && (m.env.candidate == id && DispositionsOf(m.log, id) == [] && choice == "selected" ==>
                    forall b :: BlockerOf(m.p.evidence) == Some(b) ==>
                      AuthorizeDisposition(m, id, choice) == Err(Blocked(b)))
  {
    if r :| r in m.log && r.Disposition? && r.candidate == id {
      var i :| 0 <= i < |m.log| && m.log[i] == r;
      Found(m.log, i, id);
    }
  }

  lemma FreezeErrors(m: Machine, id: Id, plan: Option<seq<string>>)
    requires Reads(m) && Newest(m.log) == Some(id) && m.env.candidate == id && m.env.mode == Development
    requires ActiveId(m.log).Some?
    ensures End(Epochs(m.log)).authority != m.env.authority ==>
              AuthorizeFreeze(m, id, plan) == Err(FreezeAuthorityStale)
    ensures End(Epochs(m.log)).authority == m.env.authority ==>
              && (IsDisposed(m.log, id, Rejected) ==> AuthorizeFreeze(m, id, plan) == Err(RejectedCandidate))
              && (!IsDisposed(m.log, id, Rejected) && !IsDisposed(m.log, id, Selected) ==>
                    AuthorizeFreeze(m, id, plan) == Err(FreezeNotSelected))
              && (IsDisposed(m.log, id, Selected) && HasFreeze(m.log, id) ==>
                    AuthorizeFreeze(m, id, plan) == Err(FreezeAlreadyExists))
  {
    LegalTrail(m.log);
    LegalAtMostOne(m.log, id);
    DisposedIff(m.log, id, Selected);
    DisposedIff(m.log, id, Rejected);
    FreezeIff(m.log, id);
    ReadDisposed(m, id);
  }

  /** The later refusals of a freeze: open evidence first, then a changed policy, then a missing or open plan. */
  lemma FreezeLateErrors(m: Machine, id: Id, plan: Option<seq<string>>)
    requires Reads(m) && Newest(m.log) == Some(id) && m.env.candidate == id && m.env.mode == Development
    requires ActiveId(m.log).Some?
    requires End(Epochs(m.log)).authority == m.env.authority && FreezesOf(m.log, id) == []
    requires |DispositionsOf(m.log, id)| == 1 && DispositionsOf(m.log, id)[0].verdict == Selected
    ensures BlockerOf(m.p.evidence).Some? ==>
              AuthorizeFreeze(m, id, plan) == Err(Blocked(BlockerOf(m.p.evidence).value))
    ensures BlockerOf(m.p.evidence).None? && DispositionsOf(m.log, id)[0].policy != m.env.policyId ==>
              AuthorizeFreeze(m, id, plan) == Err(FreezeSelectionStale)
    ensures BlockerOf(m.p.evidence).None? && DispositionsOf(m.log, id)[0].policy == m.env.policyId
            && DispositionsOf(m.log, id)[0].evidence == Pass && (plan == None || plan == Some([])) ==>
              AuthorizeFreeze(m, id, plan) == Err(FreezePlanInvalid)
  {
    LegalTrail(m.log);
    LateErrors(m, id, PlanBlocker(m, plan));
  }

  lemma LateErrors(m: Machine, id: Id, planned: Option<Option<Blocker>>)
    requires Reads(m) && Newest(m.log) == Some(id) && m.env.candidate == id && m.env.mode == Development
    requires m.p.active.Some? && m.p.active.value.authority == m.env.authority && FreezesOf(m.log, id) == []
    requires |DispositionsOf(m.log, id)| == 1 && DispositionsOf(m.log, id)[0].verdict == Selected
    ensures BlockerOf(m.p.evidence).Some? ==> FreezeUnder(m, id, planned) == Err(Blocked(BlockerOf(m.p.evidence).value))
    ensures BlockerOf(m.p.evidence).None? && DispositionsOf(m.log, id)[0].policy != m.env.policyId ==>
              FreezeUnder(m, id, planned) == Err(FreezeSelectionStale)
    ensures BlockerOf(m.p.evidence).None? && DispositionsOf(m.log, id)[0].policy == m.env.policyId
            && DispositionsOf(m.log, id)[0].evidence == Pass && planned == None ==>
              FreezeUnder(m, id, planned) == Err(FreezePlanInvalid)
  {
  }
}
