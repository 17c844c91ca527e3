/** When exactly each gate opens on a legal history, and the order of events every legal history keeps. */
module Gates {
  import opened Records
  import opened Readiness
  import opened Lifecycle
  import opened LegalHistory

  /* ---- Each gate, both directions ---- */

  /** The active epoch is not among the superseded ones. */
  lemma ActiveNotSuperseded(log: Log)
    requires Legal(log) && Epochs(log) != []
    ensures End(Epochs(log)).id !in Superseded(log)
  {
    LegalEpochs(log);
  }

  lemma EpochGate(m: Machine, parent: Option<Id>)
    requires Reads(m)
    ensures AuthorizeEpochBegin(m, parent).Ok? <==> m.env.mode == Development && parent == ActiveId(m.log)
  {
    if Epochs(m.log) != [] {
      ActiveNotSuperseded(m.log);
    }
  }

  lemma RegisterGate(m: Machine, parent: Option<Id>, proposed: Id)
    requires Reads(m)
    ensures AuthorizeRegister(m, parent, proposed).Ok? <==>
            && m.env.mode == Development && ActiveId(m.log).Some? && End(Epochs(m.log)).authority == m.env.authority
            && !IsFrozen(m.log) && parent == Newest(m.log) && parent != Some(proposed)
    ensures AuthorizeRegister(m, parent, proposed).Ok? ==>
            AuthorizeRegister(m, parent, proposed).value == End(Epochs(m.log))
  {
  }

  lemma WorkGate(m: Machine, id: Option<Id>)
    requires Reads(m)
    ensures AuthorizeWork(m, id, false).Ok? <==>
            && m.env.mode == Development && Newest(m.log) == Some(m.env.candidate) && !IsFrozen(m.log)
            && (id.Some? ==> id == Newest(m.log))
    ensures AuthorizeWork(m, id, false).Ok? ==> AuthorizeWork(m, id, false).value == LastOf(Trail(m.log))
  {
  }

  lemma DispositionGate(m: Machine, id: Id, choice: string)
    requires Reads(m)
    ensures AuthorizeDisposition(m, id, choice).Ok? <==>
            && m.env.mode == Development && VerdictOf(choice).Some?
            && Newest(m.log) == Some(id) && m.env.candidate == id && DispositionsOf(m.log, id) == []
            && (choice == "selected" ==> BlockerOf(m.p.evidence).None?)
    ensures AuthorizeDisposition(m, id, choice).Ok? ==>
            AuthorizeDisposition(m, id, choice).value == (End(Trail(m.log)), m.p.evidence)
  {
  }

  /** What the history has to hold for a freeze: the newest candidate, under the authority its epoch began with, has one
      disposition, a selection on PASS evidence under the policy now in force, and no freeze. */
  ghost predicate FreezeOpen(log: Log, env: Env, id: Id) {
    && Newest(log) == Some(id) && env.candidate == id
    && ActiveId(log).Some? && End(Epochs(log)).authority == env.authority
    && FreezesOf(log, id) == [] && |DispositionsOf(log, id)| == 1
    && var d := DispositionsOf(log, id)[0]; d.verdict == Selected && d.policy == env.policyId && d.evidence == Pass
  }

  lemma FreezeGate(m: Machine, id: Id, plan: Option<seq<string>>)
    requires Reads(m)
    ensures AuthorizeFreeze(m, id, plan).Ok? <==>
            && m.env.mode == Development && FreezeOpen(m.log, m.env, id)
            && BlockerOf(m.p.evidence).None? && PlanBlocker(m, plan) == Some(None)
    ensures AuthorizeFreeze(m, id, plan).Ok? ==>
            AuthorizeFreeze(m, id, plan).value == (End(Trail(m.log)), DispositionsOf(m.log, id)[0])
  {
    FreezeGateUnder(m, id, PlanBlocker(m, plan));
  }

  lemma FreezeGateUnder(m: Machine, id: Id, planned: Option<Option<Blocker>>)
    requires Reads(m)
    ensures FreezeUnder(m, id, planned).Ok? <==>
            && m.env.mode == Development && FreezeOpen(m.log, m.env, id)
            && BlockerOf(m.p.evidence).None? && planned == Some(None)
    ensures FreezeUnder(m, id, planned).Ok? ==>
            FreezeUnder(m, id, planned).value == (End(Trail(m.log)), DispositionsOf(m.log, id)[0])
  {
    FreezeUnderMeans(m, id, planned);
    LegalAtMostOne(m.log, id);
  }

  lemma FreezeUnderMeans(m: Machine, id: Id, planned: Option<Option<Blocker>>)
    requires m.p.stage != AmbiguousHistory
    ensures FreezeUnder(m, id, planned).Ok? <==>
            && m.env.mode == Development && m.p.freshness == Current
            && m.p.candidate.Some? && m.p.candidate.value.id == id
            && m.p.active.Some? && m.p.active.value.authority == m.env.authority
            && m.p.disposed == Disposed(Selected) && m.p.disposition.Some? && m.p.freeze.None?
            && m.p.disposition.value.policy == m.env.policyId && m.p.disposition.value.evidence == Pass
            && BlockerOf(m.p.evidence).None? && planned == Some(None)
    ensures FreezeUnder(m, id, planned).Ok? ==>
            FreezeUnder(m, id, planned).value == (m.p.candidate.value, m.p.disposition.value)
  {
  }

  /** A freeze in a legal history binds the one selection of its candidate. */
  lemma {:induction false} FreezeBindsSelection(log: Log, c: Id)
    requires Legal(log) && FreezesOf(log, c) != []
    ensures |FreezesOf(log, c)| == 1 && |DispositionsOf(log, c)| == 1
    ensures var f, d := FreezesOf(log, c)[0], DispositionsOf(log, c)[0];
            f.candidate == c && d.verdict == Selected && d.evidence == Pass && f.selection == d.id
  {
    LegalAtMostOne(log, c);
    if FreezesOf(Init(log), c) != [] {
      FreezeBindsSelection(Init(log), c);
    }
  }

  /** On a legal history the selection checks of the evaluator gate can no longer fail. */
  lemma EvaluatorGate(m: Machine, id: Option<Id>)
    requires Reads(m)
    ensures AuthorizeEvaluator(m, id).Ok? <==>
            && m.env.mode == Evaluator && IsFrozen(m.log) && (id.Some? ==> id == Newest(m.log))
            && Newest(m.log) == Some(m.env.candidate) && !Drifted(m.env, FreezesOf(m.log, m.env.candidate)[0])
    ensures AuthorizeEvaluator(m, id).Ok? ==>
            AuthorizeEvaluator(m, id).value == (FreezesOf(m.log, m.env.candidate)[0], End(Trail(m.log)))
  {
    if IsFrozen(m.log) {
      FreezeBindsSelection(m.log, Newest(m.log).value);
    }
  }

  lemma BundleGate(m: Machine, id: Option<Id>)
    requires Reads(m)
    ensures AuthorizeBundle(m, id).Ok? <==>
            && Newest(m.log) == Some(m.env.candidate) && (id.Some? ==> id == Newest(m.log))
            && (m.env.mode == Evaluator ==> IsFrozen(m.log) && !Drifted(m.env, FreezesOf(m.log, m.env.candidate)[0]))
    ensures AuthorizeBundle(m, id).Ok? ==> AuthorizeBundle(m, id).value == End(Trail(m.log))
  {
    EvaluatorGate(m, id);
  }

  /* ---- A verifier reads only four kinds of record ---- */

  predicate Structural(r: Record) {
    r.Epoch? || r.Candidate? || r.Disposition? || r.Freeze?
  }

  function Keep(log: Log): Log {
    if log == [] then [] else if Structural(End(log)) then Keep(Init(log)) + [End(log)] else Keep(Init(log))
  }

  lemma {:induction false} KeepAgrees(log: Log, c: Id)
    ensures Epochs(Keep(log)) == Epochs(log) && Candidates(Keep(log)) == Candidates(log)
    ensures Trail(Keep(log)) == Trail(log)
    ensures DispositionsOf(Keep(log), c) == DispositionsOf(log, c) && FreezesOf(Keep(log), c) == FreezesOf(log, c)
    ensures CandidateById(Keep(log), c) == CandidateById(log, c)
  {
    if log != [] {
      KeepAgrees(Init(log), c);
      if Structural(End(log)) {
        assert Init(Keep(log)) == Keep(Init(log)) && End(Keep(log)) == End(log);
      }
    }
  }

  lemma {:induction false} KeepLegal(log: Log)
    requires Legal(log)
    ensures Legal(Keep(log))
  {
    if log != [] {
      var front, r := Init(log), End(log);
      KeepLegal(front);
      if Structural(r) {
        assert Init(Keep(log)) == Keep(front) && End(Keep(log)) == r;
        KeepAgrees(front, if r.Disposition? || r.Freeze? then r.candidate else r.id);
        if Newest(front).Some? {
          KeepAgrees(front, Newest(front).value);
        }
      }
    }
  }

  /** Projecting over the filtered history gates verifier work exactly as the whole history would, errors included. */
  lemma FilteredGatesAgree(log: Log, env: Env, id: Option<Id>)
    requires Legal(log)
    ensures AuthorizeWork(Observe(Keep(log), env), id, false) == AuthorizeWork(Observe(log, env), id, false)
    ensures AuthorizeEvaluator(Observe(Keep(log), env), id) == AuthorizeEvaluator(Observe(log, env), id)
  {
    KeepLegal(log);
    LegalProjection(log, env);
    LegalProjection(Keep(log), env);
    FilteredAgree(Observe(log, env), Observe(Keep(log), env), id);
  }

  lemma FilteredAgree(m: Machine, k: Machine, id: Option<Id>)
    requires Reads(m) && Reads(k) && k.log == Keep(m.log) && k.env == m.env
    ensures AuthorizeWork(k, id, false) == AuthorizeWork(m, id, false)
    ensures AuthorizeEvaluator(k, id) == AuthorizeEvaluator(m, id)
  {
    FilteredReads(m, k);
    KeepAgrees(m.log, if id.Some? then id.value else "");
    if m.p.freeze.Some? {
      KeepAgrees(m.log, m.p.freeze.value.candidate);
    }
    SameGates(m, k, id);
  }

  lemma SameGates(m: Machine, k: Machine, id: Option<Id>)
    requires k.env == m.env && k.p.stage != AmbiguousHistory && m.p.stage != AmbiguousHistory
    requires k.p.candidate == m.p.candidate && k.p.freshness == m.p.freshness && k.p.freeze == m.p.freeze
    requires k.p.disposition == m.p.disposition && k.p.disposed == m.p.disposed
    requires id.Some? ==> CandidateById(k.log, id.value) == CandidateById(m.log, id.value)
    requires m.p.freeze.Some? ==>
               CandidateById(k.log, m.p.freeze.value.candidate) == CandidateById(m.log, m.p.freeze.value.candidate)
    ensures AuthorizeWork(k, id, false) == AuthorizeWork(m, id, false)
    ensures AuthorizeEvaluator(k, id) == AuthorizeEvaluator(m, id)
  {
  }

  lemma FilteredReads(m: Machine, k: Machine)
    requires Reads(m) && Reads(k) && k.log == Keep(m.log) && k.env == m.env
    ensures k.p.candidate == m.p.candidate && k.p.freshness == m.p.freshness && k.p.freeze == m.p.freeze
    ensures k.p.disposition == m.p.disposition && k.p.disposed == m.p.disposed
  {
    KeepAgrees(m.log, if Newest(m.log).Some? then Newest(m.log).value else "");
  }

  /* ---- Evidence is sticky; selection means evidence ---- */

  /** Once a required check has a FAIL or UNKNOWN record for a candidate, no longer history lets it be selected while
      the check stays required. Holds for every history, legal or not. */
  lemma StickySelect(log: Log, more: Log, env: Env, c: Id, q: string, r: Record)
    requires q in env.required && r in log && SpeaksFor(r, c, q) && StatusOf(r) != Pass
    ensures AuthorizeDisposition(Observe(log + more, env), c, "selected").Err?
  {
    var m := Observe(log + more, env);
    if m.p.candidate.Some? && m.p.candidate.value.id == c {
      FailureIsSticky(log, more, env, m.p.candidate.value, env.required, env.policyError, q, r);
    }
    BlockedNotSelected(m, c);
  }

  lemma BlockedNotSelected(m: Machine, c: Id)
    requires m.p.candidate.Some? && m.p.candidate.value.id == c ==> BlockerOf(m.p.evidence).Some?
    ensures AuthorizeDisposition(m, c, "selected").Err?
  {
  }

  /** Nor frozen, while either the policy or the freeze's own plan requires the check. */
  lemma StickyFreeze(log: Log, more: Log, env: Env, c: Id, plan: Option<seq<string>>, q: string, r: Record)
    requires q in env.required || (plan.Some? && q in plan.value)
    requires r in log && SpeaksFor(r, c, q) && StatusOf(r) != Pass
    ensures AuthorizeFreeze(Observe(log + more, env), c, plan).Err?
  {
    var m := Observe(log + more, env);
    if m.p.candidate.Some? && m.p.candidate.value.id == c {
      if q in env.required {
        FailureIsSticky(log, more, env, m.p.candidate.value, env.required, env.policyError, q, r);
      } else {
        FailureIsSticky(log, more, env, m.p.candidate.value, plan.value, false, q, r);
      }
    }
    BlockedNotFrozen(m, c, PlanBlocker(m, plan));
  }

  lemma BlockedNotFrozen(m: Machine, c: Id, planned: Option<Option<Blocker>>)
    requires m.p.candidate.Some? && m.p.candidate.value.id == c ==>
               BlockerOf(m.p.evidence).Some? || planned != Some(None)
    ensures FreezeUnder(m, c, planned).Err?
  {
  }

  /** Every required check has a record for the candidate, and all of them are PASS, current and comparable. */
  ghost predicate Proven(log: Log, env: Env, candidate: CandidateRecord, required: seq<string>) {
    AuthorityMatches(log, env, candidate) &&
    forall q :: q in required ==>
      && Matches(log, candidate.id, q) != []
      && forall r :: r in log && SpeaksFor(r, candidate.id, q) ==> Acceptable(env, candidate.id, q, r)
  }

  predicate Acceptable(env: Env, c: Id, q: string, r: Record) {
    && IsEvidence(r) && StatusOf(r) == Pass && FreshnessOf(env, c, r) == Current
    && DeclaredComparable(env, r) && EnvironmentMatches(env, q, r) && PolicyMatches(env, q, r)
  }

  lemma NoBlockerProven(log: Log, env: Env, candidate: CandidateRecord, required: seq<string>, policyError: bool)
    requires required != [] && BlockerOf(EvidenceOf(log, env, Some(candidate), required, policyError)).None?
    ensures Proven(log, env, candidate, required)
  {
    NoBlockerMeans(log, env, candidate, required, policyError, required[0]);
    forall q | q in required
      ensures Matches(log, candidate.id, q) != []
      ensures forall r :: r in log && SpeaksFor(r, candidate.id, q) ==> Acceptable(env, candidate.id, q, r)
    {
      NoBlockerMeans(log, env, candidate, required, policyError, q);
    }
  }

  /** An authorised selection, on any history, rests on complete evidence and records PASS. */
  lemma SelectionMeans(log: Log, env: Env, c: Id)
    requires AuthorizeDisposition(Observe(log, env), c, "selected").Ok?
    ensures var (candidate, evidence) := AuthorizeDisposition(Observe(log, env), c, "selected").value;
            candidate.id == c == env.candidate && !env.policyError && evidence.ready && evidence.status == Pass
            && (env.required != [] ==> Proven(log, env, candidate, env.required))
  {
    var p := Project(log, env);
    if env.required != [] {
      NoBlockerProven(log, env, p.candidate.value, env.required, env.policyError);
    }
    CurrentMeansObserved(log, env);
  }

  lemma CurrentMeansObserved(log: Log, env: Env)
    ensures var p := Project(log, env);
            p.candidate.Some? && p.freshness == Current ==> p.candidate.value.id == env.candidate
  {
  }

  /** An authorised freeze rests on complete evidence for both the policy and the plan. */
  lemma FreezeMeans(log: Log, env: Env, c: Id, plan: Option<seq<string>>)
    requires AuthorizeFreeze(Observe(log, env), c, plan).Ok?
    ensures var (candidate, selection) := AuthorizeFreeze(Observe(log, env), c, plan).value;
            && candidate.id == c == env.candidate && !env.policyError
            && selection.candidate == c && selection.verdict == Selected && selection.evidence == Pass
            && plan.Some? && Proven(log, env, candidate, plan.value)
            && (env.required != [] ==> Proven(log, env, candidate, env.required))
  {
    var m := Observe(log, env);
    CurrentMeansObserved(log, env);
    DispositionsNameTheirCandidate(log, c);
    FreezeMeansUnder(m, c, PlanBlocker(m, plan));
    if env.required != [] {
      NoBlockerProven(log, env, m.p.candidate.value, env.required, env.policyError);
    }
    NoBlockerProven(log, env, m.p.candidate.value, plan.value, false);
  }

  lemma FreezeMeansUnder(m: Machine, c: Id, planned: Option<Option<Blocker>>)
    requires FreezeUnder(m, c, planned).Ok?
    ensures m.p.candidate.Some? && m.p.candidate.value.id == c && m.p.freshness == Current
    ensures m.p.disposed == Disposed(Selected) && m.p.disposition.Some? && m.p.disposition.value.evidence == Pass
    ensures FreezeUnder(m, c, planned).value == (m.p.candidate.value, m.p.disposition.value)
    ensures BlockerOf(m.p.evidence).None? && planned == Some(None)
  {
  }

  lemma {:induction false} DispositionsNameTheirCandidate(log: Log, c: Id)
    ensures forall d :: d in DispositionsOf(log, c) ==> d.candidate == c && d in log
  {
    if log != [] {
      DispositionsNameTheirCandidate(Init(log), c);
    }
  }

  /* ---- The order of events ---- */

  lemma {:induction false} LegalStep(log: Log, n: nat)
    requires Legal(log) && n < |log|
    ensures Legal(log[..n]) && Allowed(log[..n], log[n])
  {
    if n < |log| - 1 {
      LegalStep(Init(log), n);
      assert Init(log)[..n] == log[..n];
    }
  }

  lemma {:induction false} Found(log: Log, n: nat, c: Id)
    requires n < |log|
    ensures log[n].Disposition? && log[n].candidate == c ==> log[n] in DispositionsOf(log, c)
    ensures log[n].Freeze? && log[n].candidate == c ==> log[n] in FreezesOf(log, c)
  {
    if n < |log| - 1 {
      Found(Init(log), n, c);
    }
  }

  lemma {:induction false} FreezesNameTheirCandidate(log: Log, c: Id)
    ensures forall f :: f in FreezesOf(log, c) ==> f.candidate == c && f in log
  {
    if log != [] {
      FreezesNameTheirCandidate(Init(log), c);
    }
  }

  /** A candidate is disposed of at most once ... */
  lemma DisposedOnce(log: Log, i: nat, j: nat)
    requires Legal(log) && i < |log| && j < |log|
    requires log[i].Disposition? && log[j].Disposition? && log[i].candidate == log[j].candidate
    ensures i == j
  {
    if i < j {
      LegalStep(log, j);
      Found(log[..j], i, log[j].candidate);
    } else if j < i {
      LegalStep(log, i);
      Found(log[..i], j, log[i].candidate);
    }
  }

  /** ... and each freeze follows exactly one disposition of its candidate, a selection on PASS evidence, which it
      binds as its selection record. */
  lemma FreezeFollowsSelection(log: Log, i: nat) returns (j: nat)
    requires Legal(log) && i < |log| && log[i].Freeze?
    ensures j < i && log[j].Disposition? && log[j].candidate == log[i].candidate
    ensures log[j].verdict == Selected && log[j].evidence == Pass && log[j].id == log[i].selection
    ensures forall k :: 0 <= k < |log| && log[k].Disposition? && log[k].candidate == log[i].candidate ==> k == j
  {
    var c, before := log[i].candidate, log[..i];
    LegalStep(log, i);
    DispositionsNameTheirCandidate(before, c);
    assert DispositionsOf(before, c)[0] in DispositionsOf(before, c);
    j :| 0 <= j < |before| && before[j] == DispositionsOf(before, c)[0];
    forall k | 0 <= k < |log| && log[k].Disposition? && log[k].candidate == c ensures k == j {
      DisposedOnce(log, k, j);
    }
  }

  /** A rejected candidate is never frozen, before or after its rejection. */
  lemma RejectedNeverFrozen(log: Log, i: nat, j: nat)
    requires Legal(log) && i < |log| && j < |log|
    requires log[i].Disposition? && log[i].verdict == Rejected && log[j].Freeze?
    ensures log[i].candidate != log[j].candidate
  {
    var k := FreezeFollowsSelection(log, j);
  }

  /** Each final evaluation follows a freeze of the same candidate. */
  lemma EvaluationFollowsFreeze(log: Log, i: nat) returns (j: nat)
    requires Legal(log) && i < |log| && log[i].Evaluation?
    ensures j < i && log[j].Freeze? && log[j].candidate == log[i].candidate
  {
    LegalStep(log, i);
    var before, c := log[..i], log[i].candidate;
    FreezesNameTheirCandidate(before, c);
    assert FreezesOf(before, c)[0] in FreezesOf(before, c);
    j :| 0 <= j < |before| && before[j] == FreezesOf(before, c)[0];
  }

  predicate NoEpochWithin(log: Log, i: nat, n: nat)
    requires n <= |log|
  {
    forall k :: i < k < n ==> !log[k].Epoch?
  }

  lemma {:induction false} StaysFrozen(log: Log, i: nat, n: nat)
    requires Legal(log) && i < n <= |log| && log[i].Freeze? && NoEpochWithin(log, i, n)
    ensures IsFrozen(log[..n]) && Newest(log[..n]) == Some(log[i].candidate)
    decreases n
  {
    LegalStep(log, n - 1);
    assert Init(log[..n]) == log[..n - 1] && End(log[..n]) == log[n - 1];
    if i < n - 1 {
      StaysFrozen(log, i, n - 1);
    }
  }

  /** After a freeze nothing is registered, no development verifier starts and no candidate check is recorded until a
      successor epoch; evaluations concern the frozen candidate. */
  lemma QuietAfterFreeze(log: Log, i: nat, j: nat)
    requires Legal(log) && i < j < |log| && log[i].Freeze? && NoEpochWithin(log, i, j)
    ensures !log[j].Candidate? && !log[j].Disposition? && !log[j].Freeze?
    ensures log[j].VerifierAction? ==> log[j].mode == Evaluator && log[j].freeze == Some(log[i].id)
    ensures log[j].WorkflowResult? ==> log[j].projectScoped
    ensures log[j].Evaluation? ==> log[j].candidate == log[i].candidate
  {
    LegalStep(log, j);
    StaysFrozen(log, i, j);
    Found(log[..j], i, log[i].candidate);
    FrozenAllows(log[..j], log[i], log[j]);
  }

  lemma FrozenAllows(before: Log, f: FreezeRecord, r: Record)
    requires Legal(before) && Newest(before) == Some(f.candidate) && f in FreezesOf(before, f.candidate)
    requires Allowed(before, r)
    ensures !r.Candidate? && !r.Disposition? && !r.Freeze?
    ensures r.VerifierAction? ==> r.mode == Evaluator && r.freeze == Some(f.id)
    ensures r.WorkflowResult? ==> r.projectScoped
    ensures r.Evaluation? ==> r.candidate == f.candidate
  {
    FreezeBindsSelection(before, f.candidate);
  }
}
