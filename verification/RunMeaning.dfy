/** What the operations of a run write, and what they open for one another. */
module RunMeaning {
  import opened Records
  import opened Readiness
  import opened Lifecycle
  import opened LegalHistory
  import opened Gates
  import opened Meaning
  import opened StoreSpec
  import opened Runs

  /* ---- What is written ---- */

  /** An operation that commits one record leaves the history as it was, or with exactly the record its caller and its
      observations call for. */
  lemma SingleCommits(v: History, op: Op)
    ensures var a, b := Payloads(v), Payloads(Step(v, op).1);
            && (op.BeginEpoch? && Step(v, op).1 != v ==> b == a + [Epoch(op.id, op.parent, op.authority, op.rest)])
            && (op.Note? && Step(v, op).1 != v ==> b == a + [op.note.record])
            && (op.FinishVerifier? && Step(v, op).1 != v ==> b == a + [op.result])
  {
    match op
    case BeginEpoch(_, _, _, _, _, _) => StoredGrows(v, Epoch(op.id, op.parent, op.authority, op.rest), op.ticket);
    case Note(note) => StoredGrows(v, note.record, note.ticket);
    case FinishVerifier(_, _, result, t) => StoredGrows(v, result, t);
    case _ =>
  }

  lemma RegisterWrites(v: History, op: Op)
    requires op.Register? && Step(v, op).1 != v
    ensures Epochs(Payloads(v)) != [] && (op.expected.Some? ==> op.expected == Some(op.current)) && op.filesValid
    ensures Payloads(Step(v, op).1)
         == Payloads(v) + [Candidate(op.current, op.parent, End(Epochs(Payloads(v))).id, op.rest)]
  {
    var m := Observe(Payloads(v), op.env);
    RegisteredIs(m, op.parent, op.current);
    StoredGrows(v, Candidate(op.current, op.parent, m.p.active.value.id, op.rest), op.ticket);
  }

  lemma RegisteredIs(m: Machine, parent: Option<Id>, proposed: Id)
    ensures AuthorizeRegister(m, parent, proposed).Ok? ==>
              m.p.active.Some? && AuthorizeRegister(m, parent, proposed).value == m.p.active.value
  {
  }

  lemma DisposeWrites(v: History, op: Op)
    requires op.Dispose? && Step(v, op).1 != v
    ensures op.choice in {"selected", "rejected"} && (op.choice == "selected" ==> op.rightsHeld)
    ensures var e := Project(Payloads(v), op.env).evidence;
            Payloads(Step(v, op).1) == Payloads(v) + [Disposition(
              op.id, op.candidate, if op.choice == "selected" then Selected else Rejected, op.env.policyId, e.status,
              op.rest)]
  {
    var m := Observe(Payloads(v), op.env);
    DisposedIs(m, op.candidate, op.choice);
    StoredGrows(v, Disposition(op.id, op.candidate, if op.choice == "selected" then Selected else Rejected,
                               op.env.policyId, m.p.evidence.status, op.rest), op.ticket);
  }

  lemma DisposedIs(m: Machine, id: Id, choice: string)
    ensures AuthorizeDisposition(m, id, choice).Ok? ==>
              AuthorizeDisposition(m, id, choice).value.1 == m.p.evidence && choice in {"selected", "rejected"}
  {
  }

  lemma FreezeWrites(v: History, op: Op)
    requires op.FreezeCandidate? && Step(v, op).1 != v
    ensures var d := Project(Payloads(v), op.env).disposition;
            && d.Some?
            && Payloads(Step(v, op).1) == Payloads(v) + [Freeze(op.id, op.candidate, d.value.id, op.bindings, op.rest)]
  {
    var m := Observe(Payloads(v), op.env);
    FreezeMeansUnder(m, op.candidate, PlanBlocker(m, op.plan));
    StoredGrows(v, Freeze(op.id, op.candidate, m.p.disposition.value.id, op.bindings, op.rest), op.ticket);
  }

  /** A verifier action carries the mode, the candidate and, for an evaluator, the freeze it was authorised under, and
      starts exactly where the gates stand open for what was observed. */
  lemma StartIff(v: History, op: Op)
    requires Lawful(v) && op.StartVerifier?
    ensures var log, a := Payloads(v), Step(v, op).0;
            && (op.env.mode == Development ==>
                  ((a.Ok? || a.error.Unstored?) <==>
                   && op.permitted && Newest(log) == Some(op.env.candidate) && !IsFrozen(log)
                   && (op.subject.Some? ==> op.subject == Newest(log))))
            && (op.env.mode == Evaluator ==>
                  ((a.Ok? || a.error.Unstored?) <==>
                   && IsFrozen(log) && Newest(log) == Some(op.env.candidate)
                   && (op.subject.Some? ==> op.subject == Newest(log))
                   && BindingsHold(op.env.bindings, FreezesOf(log, op.env.candidate)[0].bindings)))
  {
    var log, env := Payloads(v), VerifierEnv(op.env);
    var m := Observe(log, env);
    Look(v, env);
    FilteredGatesAgree(log, env, op.subject);
    SameVerifierGate(m, Observe(Keep(log), env), op.permitted, op.subject, op.draft);
    StartGate(m, op.permitted, op.subject, op.draft);
  }

  lemma StartGate(m: Machine, permitted: bool, subject: Option<Id>, draft: ActionRecord)
    requires Reads(m)
    ensures m.env.mode == Development ==>
              (VerifierGate(m, permitted, subject, draft).Ok? <==>
               && permitted && Newest(m.log) == Some(m.env.candidate) && !IsFrozen(m.log)
               && (subject.Some? ==> subject == Newest(m.log)))
    ensures m.env.mode == Evaluator ==>
              (VerifierGate(m, permitted, subject, draft).Ok? <==>
               && IsFrozen(m.log) && Newest(m.log) == Some(m.env.candidate)
               && (subject.Some? ==> subject == Newest(m.log))
               && BindingsHold(m.env.bindings, FreezesOf(m.log, m.env.candidate)[0].bindings))
  {
    WorkGate(m, subject);
    EvaluatorGate(m, subject);
    if IsFrozen(m.log) && Newest(m.log) == Some(m.env.candidate) {
      DriftIff(m.env, FreezesOf(m.log, m.env.candidate)[0]);
    }
  }

  lemma StartWrites(v: History, op: Op)
    requires Lawful(v) && op.StartVerifier? && Step(v, op).1 != v
    ensures var log, d := Payloads(v), op.draft;
            && Newest(log) == Some(op.env.candidate)
            && Payloads(Step(v, op).1) == log + [VerifierAction(
                 d.id, d.verifier, op.env.mode, op.env.candidate,
                 if op.env.mode == Evaluator && IsFrozen(log)
                 then Some(FreezesOf(log, op.env.candidate)[0].id) else None,
                 Some(op.env.candidate), d.environment, d.policy, d.rest)]
  {
    var log, env := Payloads(v), VerifierEnv(op.env);
    var m := Observe(log, env);
    Look(v, env);
    FilteredGatesAgree(log, env, op.subject);
    SameVerifierGate(m, Observe(Keep(log), env), op.permitted, op.subject, op.draft);
    WorkGate(m, op.subject);
    EvaluatorGate(m, op.subject);
    StoredGrows(v, VerifierGate(m, op.permitted, op.subject, op.draft).value, op.ticket);
  }

  /* ---- When an operation gets as far as the store ---- */

  /** Nothing but the store stands between the operation and its record. */
  predicate Open(a: Answer) {
    a.Ok? || a.error.Unstored?
  }

  lemma BeginIff(v: History, op: Op)
    requires Lawful(v) && op.BeginEpoch?
    ensures Open(Step(v, op).0) <==> op.env.mode == Development && op.parent == ActiveId(Payloads(v))
  {
    Look(v, op.env);
    EpochGate(Observe(Payloads(v), op.env), op.parent);
  }

  lemma RegisterIff(v: History, op: Op)
    requires Lawful(v) && op.Register?
    ensures var log := Payloads(v);
            Open(Step(v, op).0) <==>
            && (op.expected.Some? ==> op.expected == Some(op.current)) && op.filesValid && op.env.mode == Development
            && Epochs(log) != [] && End(Epochs(log)).authority == op.env.authority
            && !IsFrozen(log) && op.parent == Newest(log) && op.parent != Some(op.current)
  {
    Look(v, op.env);
    RegisterGate(Observe(Payloads(v), op.env), op.parent, op.current);
  }

  lemma DisposeIff(v: History, op: Op)
    requires Lawful(v) && op.Dispose?
    ensures var log := Payloads(v);
            Open(Step(v, op).0) <==>
            && op.choice in {"selected", "rejected"} && op.env.mode == Development
            && Newest(log) == Some(op.candidate) && op.env.candidate == op.candidate
            && DispositionsOf(log, op.candidate) == []
            && (op.choice == "selected" ==> op.rightsHeld && BlockerOf(Project(log, op.env).evidence).None?)
  {
    Look(v, op.env);
    DispositionGate(Observe(Payloads(v), op.env), op.candidate, op.choice);
  }

  lemma FreezeCandidateIff(v: History, op: Op)
    requires Lawful(v) && op.FreezeCandidate?
    ensures var log, env := Payloads(v), op.env;
            Open(Step(v, op).0) <==>
            && env.mode == Development && FreezeOpen(log, env, op.candidate)
            && BlockerOf(Project(log, env).evidence).None? && op.plan.Some? && op.plan.value != []
            && BlockerOf(EvidenceOf(log, env, Project(log, env).candidate, op.plan.value, false)).None?
  {
    Look(v, op.env);
    FreezeGate(Observe(Payloads(v), op.env), op.candidate, op.plan);
  }

  /** Refreshing returns the newest candidate while the tree still is that candidate, and otherwise registers its
      successor as `Register` would. */
  lemma RefreshMeans(v: History, op: Op)
    requires Lawful(v) && op.Refresh?
    ensures var log := Payloads(v);
            match Newest(log)
            case None => Step(v, op) == (Err(Refused(NoCandidate)), v)
            case Some(c) =>
              && (op.env.candidate == c == op.current ==>
                    Step(v, op).1 == v && Step(v, op).0 == Ok(Some(End(Trail(log)))) && End(Trail(log)).id == c)
              && (!(op.env.candidate == c == op.current) ==>
                    Step(v, op) ==
                    if !op.files then (Err(Refused(ChangedFileInvalid)), v)
                    else Step(v, Register(op.again, op.currentAgain, None, Some(c), op.filesValid, op.rest, op.ticket)))
  {
    Look(v, op.env);
  }

  /** A verifier result gets as far as the store exactly when the snapshot shows no result of its action and it carries
      the action's own candidate, freeze and mode. */
  lemma FinishIff(v: History, op: Op)
    requires op.FinishVerifier?
    ensures var a, r := op.action, op.result;
            Open(Step(v, op).0) <==>
            && r.VerifierResult? && r.candidate == a.candidate && r.freeze == a.freeze && r.mode == a.mode
            && forall x :: x in op.seen && x.VerifierResult? ==> x.action != a.id
  {
    if op.result.VerifierResult? {
      TerminalIff(op.action, op.seen, op.action.id, op.result.candidate, op.result.freeze, op.result.mode);
    }
  }

  /** A bundle run gets as far as persisting exactly for the newest, current candidate, from an evaluator only where it
      is frozen and nothing drifted. */
  lemma BundleIff(v: History, op: Op)
    requires Lawful(v) && op.BuildBundle?
    ensures var log, c := Payloads(v), op.env.candidate;
            if && op.category && Newest(log) == Some(c) && (op.subject.Some? ==> op.subject == Newest(log))
               && (op.env.mode == Evaluator ==>
                     IsFrozen(log) && BindingsHold(op.env.bindings, FreezesOf(log, c)[0].bindings))
            then Step(v, op) == Persisted(v, op.trial, Bundle(op.trial.id, c, op.trial.status, op.trial.rest))
            else Step(v, op).0.Err? && Step(v, op).1 == v
  {
    var m := Observe(Payloads(v), op.env);
    Look(v, op.env);
    BundleGate(m, op.subject);
    if IsFrozen(m.log) && Newest(m.log) == Some(op.env.candidate) {
      DriftIff(op.env, FreezesOf(m.log, op.env.candidate)[0]);
    }
  }

  /** A bundle is written for the newest candidate, from either mode. */
  lemma BundleWrites(v: History, op: Op, r: Record)
    requires Lawful(v) && op.BuildBundle? && r in Payloads(Step(v, op).1) && r !in Payloads(v)
    ensures op.category && Newest(Payloads(v)) == Some(op.env.candidate)
    ensures IsNote(r, op.trial.notes) || r == Bundle(op.trial.id, op.env.candidate, op.trial.status, op.trial.rest)
  {
    var m := Observe(Payloads(v), op.env);
    Look(v, op.env);
    BundleGate(m, op.subject);
    PersistedWrites(v, op.trial, Bundle(op.trial.id, op.env.candidate, op.trial.status, op.trial.rest));
  }

  /* ---- The loops ---- */

  ghost predicate IsNote(r: Record, ds: seq<Drafted>) {
    exists i :: 0 <= i < |ds| && ds[i].record == r
  }

  lemma {:induction false} StoredAllWrites(v: History, ds: seq<Drafted>)
    ensures forall r :: r in Payloads(v) ==> r in Payloads(StoredAll(v, ds).1)
    ensures forall r :: r in Payloads(StoredAll(v, ds).1) ==> r in Payloads(v) || IsNote(r, ds)
    ensures StoredAll(v, ds).0.Ok? ==> forall r :: IsNote(r, ds) ==> r in Payloads(StoredAll(v, ds).1)
    decreases |ds|
  {
    if ds != [] {
      var (a, w) := Stored(v, ds[0].record, ds[0].ticket);
      StoredGrows(v, ds[0].record, ds[0].ticket);
      assert IsNote(ds[0].record, ds);
      if a.Ok? {
        StoredAllWrites(w, ds[1..]);
        NotesSplit(ds);
      }
    }
  }

  lemma NotesSplit(ds: seq<Drafted>)
    requires ds != []
    ensures forall r :: IsNote(r, ds) <==> r == ds[0].record || IsNote(r, ds[1..])
  {
    forall r ensures IsNote(r, ds) <==> r == ds[0].record || IsNote(r, ds[1..]) {
      if IsNote(r, ds[1..]) {
        var i :| 0 <= i < |ds[1..]| && ds[1..][i].record == r;
        assert ds[i + 1].record == r;
      }
      if IsNote(r, ds) && r != ds[0].record {
        var i :| 0 <= i < |ds| && ds[i].record == r;
        assert ds[1..][i - 1].record == r;
      }
    }
  }

  /** One execution writes its notes and, if it produced one, its result; success means all of them are there. */
  lemma PersistedWrites(v: History, t: Trial, result: Record)
    ensures forall r :: r in Payloads(v) ==> r in Payloads(Persisted(v, t, result).1)
    ensures forall r :: r in Payloads(Persisted(v, t, result).1) ==>
              r in Payloads(v) || IsNote(r, t.notes) || (r == result && t.produced)
    ensures Persisted(v, t, result).0.Ok? ==>
              && t.produced && result in Payloads(Persisted(v, t, result).1)
              && forall r :: IsNote(r, t.notes) ==> r in Payloads(Persisted(v, t, result).1)
  {
    StoredAllWrites(v, t.notes);
    StoredGrows(StoredAll(v, t.notes).1, result, t.ticket);
  }

  /** The result comes after the action and the receipt it rests on. */
  lemma PersistedLast(v: History, t: Trial, result: Record)
    requires Persisted(v, t, result).0.Ok? && result !in Payloads(v) && !IsNote(result, t.notes)
    ensures var log := Payloads(Persisted(v, t, result).1); log != [] && End(log) == result
    ensures forall r :: IsNote(r, t.notes) ==> r in Init(Payloads(Persisted(v, t, result).1))
  {
    StoredAllWrites(v, t.notes);
    var w := StoredAll(v, t.notes).1;
    StoredGrows(w, result, t.ticket);
    assert Init(Payloads(w) + [result]) == Payloads(w);
  }

  function EvaluationOf(t: Trial, freeze: FreezeRecord): Record {
    Evaluation(t.id, freeze.candidate, t.status, t.rest)
  }

  /** Some execution of the list wrote the record: as a note, or as the evaluation it produced. */
  ghost predicate WrittenBy(r: Record, freeze: FreezeRecord, ts: seq<Trial>) {
    exists i :: 0 <= i < |ts| && (IsNote(r, ts[i].notes) || (ts[i].produced && r == EvaluationOf(ts[i], freeze)))
  }

  /** An evaluator run writes nothing but the notes and evaluations of its trials, for the frozen candidate. */
  lemma {:induction false} EvaluationRunWrites(v: History, freeze: FreezeRecord, ts: seq<Trial>, r: Record)
    ensures r in Payloads(v) ==> r in Payloads(EvaluationRun(v, freeze, ts).1)
    ensures r in Payloads(EvaluationRun(v, freeze, ts).1) ==> r in Payloads(v) || WrittenBy(r, freeze, ts)
    decreases |ts|
  {
    if ts != [] {
      var t := ts[0];
      PersistedWrites(v, t, EvaluationOf(t, freeze));
      EvaluationRunWrites(Persisted(v, t, EvaluationOf(t, freeze)).1, freeze, ts[1..], r);
      WrittenLater(freeze, ts);
      assert IsNote(r, t.notes) ==> WrittenBy(r, freeze, ts);
      assert t.produced ==> WrittenBy(EvaluationOf(t, freeze), freeze, ts);
    }
  }

  /** The candidate in hand is frozen, and by this freeze. */
  ghost predicate FrozenBy(v: History, freeze: FreezeRecord) {
    Lawful(v) && Newest(Payloads(v)) == Some(freeze.candidate) && FreezesOf(Payloads(v), freeze.candidate) == [freeze]
  }

  /** Where a trial is gone past, it produced a result, nothing drifted, and the bindings observed after it were those
      of the freeze. */
  ghost predicate Passed(t: Trial, freeze: FreezeRecord, log: Log) {
    && t.produced && !t.drifted && EvaluationOf(t, freeze) in log
    && t.after.candidate == freeze.candidate && BindingsHold(t.after.bindings, freeze.bindings)
  }

  lemma TrialPassed(v: History, freeze: FreezeRecord, ts: seq<Trial>) returns (w: History)
    requires FrozenBy(v, freeze) && ts != [] && OnlyNotes(ts[0].notes) && EvaluationRun(v, freeze, ts).0.Ok?
    ensures EvaluationRun(v, freeze, ts) == EvaluationRun(w, freeze, ts[1..])
    ensures FrozenBy(w, freeze) && Passed(ts[0], freeze, Payloads(w))
  {
    var t := ts[0];
    w := Persisted(v, t, EvaluationOf(t, freeze)).1;
    PersistedWrites(v, t, EvaluationOf(t, freeze));
    PersistedLawful(v, t, EvaluationOf(t, freeze));
    var env := t.after.(authority := map[]);
    Look(w, env);
    EvaluatorGate(Observe(Payloads(w), env), None);
    EvaluatorAgrees(Observe(Payloads(w), env), None);
  }

  lemma FirstPassed(v: History, freeze: FreezeRecord, ts: seq<Trial>) returns (w: History)
    requires FrozenBy(v, freeze) && ts != [] && OnlyNotes(ts[0].notes) && EvaluationRun(v, freeze, ts).0.Ok?
    ensures EvaluationRun(v, freeze, ts) == EvaluationRun(w, freeze, ts[1..])
    ensures FrozenBy(w, freeze) && Passed(ts[0], freeze, Payloads(EvaluationRun(v, freeze, ts).1))
  {
    w := TrialPassed(v, freeze, ts);
    EvaluationRunWrites(w, freeze, ts[1..], EvaluationOf(ts[0], freeze));
  }

  ghost predicate AllNotes(ts: seq<Trial>) {
    ts != [] ==> OnlyNotes(ts[0].notes) && AllNotes(ts[1..])
  }

  /** If an evaluator run succeeds, every trial has its evaluation in the history, under bindings that held. */
  lemma {:induction false} EvaluationRunMeans(v: History, freeze: FreezeRecord, ts: seq<Trial>, i: nat)
    requires FrozenBy(v, freeze) && i < |ts| && EvaluationRun(v, freeze, ts).0.Ok? && AllNotes(ts)
    ensures Passed(ts[i], freeze, Payloads(EvaluationRun(v, freeze, ts).1))
    decreases |ts|
  {
    var w := FirstPassed(v, freeze, ts);
    if i > 0 {
      EvaluationRunMeans(w, freeze, ts[1..], i - 1);
    }
  }

  lemma WrittenLater(freeze: FreezeRecord, ts: seq<Trial>)
    requires ts != []
    ensures forall r :: WrittenBy(r, freeze, ts[1..]) ==> WrittenBy(r, freeze, ts)
  {
    forall r | WrittenBy(r, freeze, ts[1..]) ensures WrittenBy(r, freeze, ts) {
      var i :| 0 <= i < |ts[1..]|
               && (IsNote(r, ts[1..][i].notes) || (ts[1..][i].produced && r == EvaluationOf(ts[1..][i], freeze)));
      assert ts[i + 1] == ts[1..][i];
    }
  }

  /** An evaluation enters the history only where the bindings observed agree with those the freeze record holds: at the
      start of the run, and again before every further trial. */
  lemma EvaluationNeedsAgreement(v: History, op: Op)
    requires Lawful(v) && op.Evaluate? && Step(v, op).1 != v
    ensures var log, c := Payloads(v), op.env.candidate;
            && op.env.mode == Evaluator && Newest(log) == Some(c) && |FreezesOf(log, c)| == 1
            && BindingsHold(op.env.bindings, FreezesOf(log, c)[0].bindings)
  {
    var m := Observe(Payloads(v), op.env.(authority := map[]));
    Look(v, m.env);
    EvaluatorGate(m, None);
    EvaluatorAgrees(m, None);
    FreezeBindsSelection(Payloads(v), op.env.candidate);
  }

  lemma NoteIsOther(r: Record, ds: seq<Drafted>)
    requires OnlyNotes(ds) && IsNote(r, ds)
    ensures r.Other?
  {
  }

  lemma {:induction false} AllNotesFrom(ts: seq<Trial>)
    requires forall i :: 0 <= i < |ts| ==> OnlyNotes(ts[i].notes)
    ensures AllNotes(ts)
  {
    if ts != [] {
      AllNotesFrom(ts[1..]);
    }
  }

  lemma {:induction false} CheckedWrites(v: History, m: Machine, subject: Option<Id>, ts: seq<Trial>, r: Record)
    requires AllNotes(ts) && r in Payloads(Checked(v, m, subject, ts).1) && r !in Payloads(v)
    ensures r.WorkflowResult? || r.Other?
    decreases |ts|
  {
    if ts != [] && AuthorizeWork(m, subject, ts[0].projectScoped).Ok? {
      var x := CheckResult(ts[0], AuthorizeWork(m, subject, ts[0].projectScoped).value);
      var w := Persisted(v, ts[0], x).1;
      PersistedWrites(v, ts[0], x);
      if r !in Payloads(w) {
        CheckedWrites(w, m, subject, ts[1..], r);
      } else if IsNote(r, ts[0].notes) {
        NoteIsOther(r, ts[0].notes);
      }
    }
  }

  /** Nothing but an evaluation writes evaluations. */
  lemma OnlyEvaluateEvaluates(v: History, op: Op, r: Record)
    requires Lawful(v) && WellTyped(op) && r.Evaluation? && r in Payloads(Step(v, op).1) && r !in Payloads(v)
    ensures op.Evaluate?
  {
    match op
    case Check(env, subject, ts) =>
      AllNotesFrom(ts);
      CheckedWrites(v, Observe(Payloads(v), env), subject, ts, r);
    case BuildBundle(_, _, _, trial) =>
      BundleWrites(v, op, r);
      if IsNote(r, trial.notes) {
        NoteIsOther(r, trial.notes);
      }
    case Evaluate(_, _) =>
    case _ => OneRecordElsewhere(v, op, r);
  }

  lemma OneRecordElsewhere(v: History, op: Op, r: Record)
    requires Lawful(v) && WellTyped(op) && !op.Evaluate? && !op.Check? && !op.BuildBundle?
    requires r in Payloads(Step(v, op).1) && r !in Payloads(v)
    ensures !r.Evaluation?
  {
    match op
    case Refresh(_, _, _, again, current, filesValid, rest, t) =>
      RefreshMeans(v, op);
      RegisterWrites(v, Register(again, current, None, Newest(Payloads(v)), filesValid, rest, t));
    case Register(_, _, _, _, _, _, _) => RegisterWrites(v, op);
    case Dispose(_, _, _, _, _, _, _) => DisposeWrites(v, op);
    case FreezeCandidate(_, _, _, _, _, _, _) => FreezeWrites(v, op);
    case StartVerifier(_, _, _, _, _) => StartWrites(v, op);
    case FinishVerifier(_, _, _, _) =>
      SingleCommits(v, op);
      FinishedIsResult(v, op);
    case _ => SingleCommits(v, op);
  }

  lemma FinishedIsResult(v: History, op: Op)
    requires op.FinishVerifier? && Step(v, op).1 != v
    ensures op.result.VerifierResult?
  {
  }

  /** Over every run, an evaluation entered the history only under the one freeze of its candidate, where the bindings
      observed agreed with those the freeze record holds. */
  lemma EvaluationsAgree(ops: seq<Op>, n: nat, r: Record)
    requires n < |ops| && forall i :: 0 <= i < |ops| ==> WellTyped(ops[i])
    requires r.Evaluation? && r in Payloads(Reached(ops[..n + 1])) && r !in Payloads(Reached(ops[..n]))
    ensures ops[n].Evaluate?
    ensures var log, env := Payloads(Reached(ops[..n])), ops[n].env;
            && env.mode == Evaluator && r.candidate == env.candidate && Newest(log) == Some(env.candidate)
            && |FreezesOf(log, env.candidate)| == 1
            && BindingsHold(env.bindings, FreezesOf(log, env.candidate)[0].bindings)
  {
    var v := Reached(ops[..n]);
    assert Init(ops[..n + 1]) == ops[..n] && End(ops[..n + 1]) == ops[n];
    ReachedLawful(ops[..n]);
    OnlyEvaluateEvaluates(v, ops[n], r);
    EvaluationNeedsAgreement(v, ops[n]);
    EvaluationIsOf(v, ops[n].env, ops[n].trials, r);
  }

  lemma EvaluationIsOf(v: History, env: Env, ts: seq<Trial>, r: Record)
    requires Lawful(v) && WellTyped(Evaluate(env, ts)) && r.Evaluation? && r !in Payloads(v)
    requires r in Payloads(Step(v, Evaluate(env, ts)).1)
    ensures r.candidate == env.candidate
  {
    var observed := env.(authority := map[]);
    EvaluatorFreeze(v, observed);
    var f := FreezesOf(Payloads(v), env.candidate)[0];
    EvaluationRunWrites(v, f, ts, r);
    var i :| 0 <= i < |ts| && (IsNote(r, ts[i].notes) || (ts[i].produced && r == EvaluationOf(ts[i], f)));
    if IsNote(r, ts[i].notes) {
      NoteIsOther(r, ts[i].notes);
    }
  }

  /** An evaluation that succeeds ran under the one freeze of the newest candidate, and left every trial's result. */
  lemma EvaluateMeans(v: History, op: Op, i: nat)
    requires Lawful(v) && op.Evaluate? && AllNotes(op.trials) && i < |op.trials| && Step(v, op).0.Ok?
    ensures var c := op.env.candidate;
            && Newest(Payloads(v)) == Some(c) && |FreezesOf(Payloads(v), c)| == 1
            && Passed(op.trials[i], FreezesOf(Payloads(v), c)[0], Payloads(Step(v, op).1))
  {
    var env := op.env.(authority := map[]);
    EvaluatorFreeze(v, env);
    EvaluatedMeans(v, Observe(Payloads(v), env), FreezesOf(Payloads(v), env.candidate)[0], op.trials, i);
  }

  lemma EvaluatorFreeze(v: History, env: Env)
    requires Lawful(v) && AuthorizeEvaluator(Observe(Payloads(v), env), None).Ok?
    ensures |FreezesOf(Payloads(v), env.candidate)| == 1
    ensures var f := FreezesOf(Payloads(v), env.candidate)[0];
            && f.candidate == env.candidate && FrozenBy(v, f)
            && AuthorizeEvaluator(Observe(Payloads(v), env), None).value.0 == f
  {
    Look(v, env);
    EvaluatorGate(Observe(Payloads(v), env), None);
    FreezeBindsSelection(Payloads(v), env.candidate);
  }

  lemma EvaluatedMeans(v: History, m: Machine, freeze: FreezeRecord, ts: seq<Trial>, i: nat)
    requires FrozenBy(v, freeze) && AllNotes(ts) && i < |ts| && EvaluatedUnder(v, m, ts).0.Ok?
    requires AuthorizeEvaluator(m, None).Ok? && AuthorizeEvaluator(m, None).value.0 == freeze
    ensures Passed(ts[i], freeze, Payloads(EvaluatedUnder(v, m, ts).1))
  {
    EvaluationRunMeans(v, freeze, ts, i);
  }

  lemma NextTrialNeedsAgreement(v: History, freeze: FreezeRecord, ts: seq<Trial>)
    requires FrozenBy(v, freeze) && ts != [] && OnlyNotes(ts[0].notes)
    requires EvaluationRun(v, freeze, ts).1 != Persisted(v, ts[0], EvaluationOf(ts[0], freeze)).1
    ensures !ts[0].drifted && BindingsHold(ts[0].after.bindings, freeze.bindings)
  {
    var t := ts[0];
    var w := Persisted(v, t, EvaluationOf(t, freeze)).1;
    PersistedLawful(v, t, EvaluationOf(t, freeze));
    var env := t.after.(authority := map[]);
    Look(w, env);
    EvaluatorGate(Observe(Payloads(w), env), None);
    EvaluatorAgrees(Observe(Payloads(w), env), None);
  }

  /** A development run keeps what is there. */
  lemma {:induction false} CheckedKeeps(v: History, m: Machine, subject: Option<Id>, ts: seq<Trial>, r: Record)
    requires r in Payloads(v)
    ensures r in Payloads(Checked(v, m, subject, ts).1)
    decreases |ts|
  {
    if ts != [] && AuthorizeWork(m, subject, ts[0].projectScoped).Ok? {
      var x := CheckResult(ts[0], AuthorizeWork(m, subject, ts[0].projectScoped).value);
      PersistedWrites(v, ts[0], x);
      CheckedKeeps(Persisted(v, ts[0], x).1, m, subject, ts[1..], r);
    }
  }

  /** One workflow of a development run that succeeds: its result is written, and the run goes on. */
  lemma CheckPassed(v: History, m: Machine, subject: Option<Id>, ts: seq<Trial>) returns (w: History)
    requires Reads(m) && ts != [] && Checked(v, m, subject, ts).0.Ok?
    ensures Checked(v, m, subject, ts) == Checked(w, m, subject, ts[1..])
    ensures AuthorizeWork(m, subject, ts[0].projectScoped).Ok?
    ensures CheckWritten(ts[0], Newest(m.log), Payloads(Checked(v, m, subject, ts).1))
  {
    WorkGate(m, subject);
    var r := CheckResult(ts[0], AuthorizeWork(m, subject, ts[0].projectScoped).value);
    PersistedWrites(v, ts[0], r);
    w := Persisted(v, ts[0], r).1;
    CheckedKeeps(w, m, subject, ts[1..], r);
  }

  /** A development run that succeeds has written a result for each of its workflows, about the candidate it was
      authorised for, or about the project. */
  lemma {:induction false} CheckedMeans(v: History, m: Machine, subject: Option<Id>, ts: seq<Trial>, i: nat)
    requires Reads(m) && i < |ts| && Checked(v, m, subject, ts).0.Ok?
    ensures AuthorizeWork(m, subject, ts[i].projectScoped).Ok?
    ensures CheckWritten(ts[i], Newest(m.log), Payloads(Checked(v, m, subject, ts).1))
    decreases |ts|
  {
    var w := CheckPassed(v, m, subject, ts);
    if i > 0 {
      CheckedMeans(w, m, subject, ts[1..], i - 1);
    }
  }

  /** The same for the operation: what was asked for is what was checked, on an unfrozen candidate the tree still is. */
  lemma CheckMeans(v: History, op: Op, i: nat)
    requires Lawful(v) && op.Check? && i < |op.trials| && Step(v, op).0.Ok?
    ensures CheckWritten(op.trials[i], Newest(Payloads(v)), Payloads(Step(v, op).1)) && op.env.mode == Development
    ensures !op.trials[i].projectScoped ==>
              && Newest(Payloads(v)) == Some(op.env.candidate) && !IsFrozen(Payloads(v))
              && (op.subject.Some? ==> op.subject == Newest(Payloads(v)))
  {
    var m := Observe(Payloads(v), op.env);
    Look(v, op.env);
    CheckedMeans(v, m, op.subject, op.trials, i);
    WorkGate(m, op.subject);
    WorkErrors(m, op.subject);
  }

  predicate CheckWritten(t: Trial, newest: Option<Id>, log: Log) {
    t.produced && (!t.projectScoped ==> newest.Some?) && CheckOf(t, newest) in log
  }

  function CheckOf(t: Trial, newest: Option<Id>): Record {
    WorkflowResult(t.id, if t.projectScoped || newest.None? then t.project else newest.value, t.projectScoped,
                   t.workflow, t.status, t.keys, t.rest)
  }

  /* ---- What a selection and a freeze rest on ---- */

  /** The check has a record of the candidate, and every one of them vouches for it. */
  ghost predicate Vouched(log: Log, env: Env, c: Id, q: string) {
    && (exists r :: r in log && Concerns(r, c, q))
    && (forall r :: r in log && Concerns(r, c, q) ==> Vouches(env, c, q, r))
  }

  /** A selection that entered the history rests, for every required check, on records of that very candidate that are
      PASS and agree with what was observed in every field. */
  lemma SelectionVouched(v: History, op: Op, q: string)
    requires Lawful(v) && op.Dispose? && op.choice == "selected" && Step(v, op).1 != v && q in op.env.required
    ensures Vouched(Payloads(v), op.env, op.candidate, q)
  {
    DisposeIff(v, op);
    LegalProjection(Payloads(v), op.env);
    UnblockedFields(Payloads(v), op.env, End(Trail(Payloads(v))), op.env.required, op.env.policyError, q);
  }

  /** So does a freeze, for the policy in force and for its own plan. */
  lemma FreezeVouched(v: History, op: Op, q: string)
    requires Lawful(v) && op.FreezeCandidate? && Step(v, op).1 != v
    requires q in op.env.required || (op.plan.Some? && q in op.plan.value)
    ensures Vouched(Payloads(v), op.env, op.candidate, q)
  {
    var log, env := Payloads(v), op.env;
    FreezeCandidateIff(v, op);
    LegalProjection(log, env);
    if q in env.required {
      UnblockedFields(log, env, End(Trail(log)), env.required, env.policyError, q);
    } else {
      UnblockedFields(log, env, End(Trail(log)), op.plan.value, false, q);
    }
  }

  /* ---- What stood where a record entered ---- */

  /** At every position of every run, what the records before it were. */
  lemma RunPositions(ops: seq<Op>, i: nat)
    requires (forall k :: 0 <= k < |ops| ==> WellTyped(ops[k])) && i < |Payloads(Reached(ops))|
    ensures var before, r := Payloads(Reached(ops))[..i], Payloads(Reached(ops))[i];
            && (r.Epoch? ==> r.parent == (if Epochs(before) == [] then None else Some(End(Epochs(before)).id)))
            && (r.Candidate? ==>
                  && Epochs(before) != [] && r.sourceEpoch == End(Epochs(before)).id && r.parent == Newest(before)
                  && (r.parent.Some? ==> !HasFreeze(before, r.parent.value)))
            && (r.Disposition? ==>
                  && Newest(before) == Some(r.candidate)
                  && !IsDisposed(before, r.candidate, Selected) && !IsDisposed(before, r.candidate, Rejected)
                  && (r.verdict == Selected ==> r.evidence == Pass))
            && (r.Freeze? ==> Newest(before) == Some(r.candidate) && !HasFreeze(before, r.candidate))
            && (r.Evaluation? ==> Newest(before) == Some(r.candidate) && HasFreeze(before, r.candidate))
            && (r.VerifierAction? ==>
                  && Newest(before) == Some(r.candidate) && (r.mode == Evaluator <==> HasFreeze(before, r.candidate))
                  && (r.mode == Development <==> r.freeze.None?))
            && (r.WorkflowResult? && !r.projectScoped ==>
                  Newest(before) == Some(r.candidate) && !HasFreeze(before, r.candidate))
            && (r.Bundle? ==> Newest(before) == Some(r.candidate))
  {
    var log := Payloads(Reached(ops));
    ReachedLawful(ops);
    LegalStep(log, i);
    if Newest(log[..i]).Some? {
      var c := Newest(log[..i]).value;
      FreezeIff(log[..i], c);
      DisposedIff(log[..i], c, Selected);
      DisposedIff(log[..i], c, Rejected);
    }
  }

  /* ---- From selection to evaluation ---- */

  /** A selection opens the way to a freeze: under the same observation and with a proven plan, only the store can
      refuse it, and it binds that selection. */
  lemma SelectThenFreeze(v: History, op: Op, f: Op)
    requires Lawful(v) && op.Dispose? && op.choice == "selected" && Step(v, op).1 != v
    requires f.FreezeCandidate? && f.env == op.env && f.candidate == op.candidate && f.plan.Some? && f.plan.value != []
    requires var log := Payloads(v);
             && Epochs(log) != [] && End(Epochs(log)).authority == op.env.authority
             && BlockerOf(EvidenceOf(log, op.env, Project(log, op.env).candidate, f.plan.value, false)).None?
    ensures var w := Step(v, op).1;
            Step(w, f) == Stored(w, Freeze(f.id, f.candidate, op.id, f.bindings, f.rest), f.ticket)
  {
    var log, w := Payloads(v), Step(v, op).1;
    var m, n := Observe(log, op.env), Observe(Payloads(w), op.env);
    Look(v, op.env);
    DispositionGate(m, op.candidate, op.choice);
    DisposeWrites(v, op);
    DisposeLawful(v, op);
    UnblockedPasses(log, op.env);
    var d := Disposition(op.id, op.candidate, Selected, op.env.policyId, m.p.evidence.status, op.rest);
    AppendsDisposition(log, d);
    if FreezesOf(log, op.candidate) != [] {
      FreezeBindsSelection(log, op.candidate);
    }
    Look(w, op.env);
    EvidenceIsolated(log, op.env, End(Trail(log)), op.env.required, op.env.policyError, d);
    EvidenceIsolated(log, op.env, End(Trail(log)), f.plan.value, false, d);
    FreezeGate(n, f.candidate, f.plan);
    LegalProjection(log, op.env);
    LegalProjection(Payloads(w), op.env);
  }

  lemma AppendsDisposition(log: Log, d: DispositionRecord)
    ensures Epochs(log + [d]) == Epochs(log) && Trail(log + [d]) == Trail(log)
    ensures FreezesOf(log + [d], d.candidate) == FreezesOf(log, d.candidate)
    ensures DispositionsOf(log + [d], d.candidate) == DispositionsOf(log, d.candidate) + [d]
  {
    assert Init(log + [d]) == log;
  }

  /** A freeze opens the way to evaluation, exactly for bindings that agree with the ones it recorded. */
  lemma FreezeThenEvaluate(v: History, f: Op, env: Env)
    requires Lawful(v) && f.FreezeCandidate? && Step(v, f).1 != v
    requires env.mode == Evaluator && env.candidate == f.candidate
    ensures var entry := AuthorizeEvaluator(Observe(Payloads(Step(v, f).1), env), None);
            if BindingsHold(env.bindings, f.bindings)
            then entry.Ok? && entry.value.0.id == f.id && entry.value.1.id == f.candidate
            else entry == Err(FreezeDrift)
  {
    var log, w := Payloads(v), Step(v, f).1;
    var m, n := Observe(log, f.env), Observe(Payloads(w), env);
    Look(v, f.env);
    FreezeGate(m, f.candidate, f.plan);
    FreezeWrites(v, f);
    StepLawful(v, f);
    Look(w, env);
    var r := Freeze(f.id, f.candidate, m.p.disposition.value.id, f.bindings, f.rest);
    assert Init(log + [r]) == log;
    EvaluatorGate(n, None);
    EvaluatorErrors(n, None);
    DriftIff(env, r);
  }
}
