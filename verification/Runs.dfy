/** The services as authorise-then-commit steps on the logical store, and what every run of them keeps. */
module Runs {
  import opened Records
  import opened Readiness
  import opened Lifecycle
  import opened LegalHistory
  import opened Gates
  import opened StoreSpec

  /** What a commit takes besides the record: clock reading, random transaction identity and encoded sizes. */
  datatype Ticket = Ticket(timestamp: string, tx: TxId, recordBytes: nat, lineBytes: nat)

  function RequestOf(r: Record, t: Ticket): Request {
    Request(KindOf(r), KindOf(r), r, true, t.recordBytes, t.lineBytes, t.timestamp, t.tx)
  }

  datatype Fault = Refused(code: Code) | Unstored(error: StoreError)

  type Answer = Result<Option<Record>, Fault>

  function Payloads(v: History): Log {
    if v == [] then [] else Payloads(Front(v)) + [Last(v).payload]
  }

  /** Commit one record. */
  ghost function Stored(v: History, r: Record, t: Ticket): (Answer, History) {
    var o := Outcome(v, RequestOf(r, t));
    (if o.0.Ok? then Ok(Some(r)) else Err(Unstored(o.0.error)), o.1)
  }

  /* ---- What the services do ---- */

  datatype Drafted = Drafted(record: Record, ticket: Ticket)

  /** One executed workflow: the action and receipt records it persists, its result if it produced one, and what is
      observed afterwards. */
  datatype Trial = Trial(notes: seq<Drafted>, projectScoped: bool, project: Id, workflow: string, status: Status,
                         keys: Option<seq<string>>, produced: bool, id: Id, rest: nat, ticket: Ticket,
                         drifted: bool, after: Env)

  /** An operation with everything it observes. Each observation may differ from every other. */
  datatype Op =
    | BeginEpoch(env: Env, parent: Option<Id>, id: Id, authority: map<string, Id>, rest: nat, ticket: Ticket)
    | Register(env: Env, current: Id, expected: Option<Id>, parent: Option<Id>, filesValid: bool, rest: nat,
               ticket: Ticket)
    | Refresh(env: Env, current: Id, files: bool, again: Env, currentAgain: Id, filesValid: bool, rest: nat,
              ticket: Ticket)
    | Dispose(env: Env, candidate: Id, choice: string, rightsHeld: bool, id: Id, rest: nat, ticket: Ticket)
    | FreezeCandidate(env: Env, candidate: Id, plan: Option<seq<string>>, id: Id, bindings: map<string, Id>, rest: nat,
                      ticket: Ticket)
    | Evaluate(env: Env, trials: seq<Trial>)
    | Check(env: Env, subject: Option<Id>, trials: seq<Trial>)
    | StartVerifier(env: Env, permitted: bool, subject: Option<Id>, draft: ActionRecord, ticket: Ticket)
    | FinishVerifier(action: ActionRecord, seen: Log, result: Record, ticket: Ticket)
    | BuildBundle(env: Env, subject: Option<Id>, category: bool, trial: Trial)
    | Note(note: Drafted)

  /** Commit records one after another, stopping at the first the store refuses. */
  ghost function StoredAll(v: History, ds: seq<Drafted>): (Answer, History)
    decreases |ds|
  {
    if ds == [] then (Ok(None), v)
    else
      var (r, w) := Stored(v, ds[0].record, ds[0].ticket);
      if r.Err? then (r, w) else StoredAll(w, ds[1..])
  }

  predicate OnlyNotes(ds: seq<Drafted>) {
    forall i :: 0 <= i < |ds| ==> ds[i].record.Other?
  }

  ghost function Registered(v: History, m: Machine, current: Id, parent: Option<Id>, filesValid: bool, rest: nat,
                            t: Ticket)
    : (Answer, History)
  {
    match AuthorizeRegister(m, parent, current)
    case Err(code) => (Err(Refused(code)), v)
    case Ok(epoch) =>
      if !filesValid then (Err(Refused(ChangedFileInvalid)), v)
      else Stored(v, Candidate(current, parent, epoch.id, rest), t)
  }

  /** Persist one execution: action and receipt first, then the result if there is one. */
  ghost function Persisted(v: History, t: Trial, result: Record): (Answer, History) {
    var (r, w) := StoredAll(v, t.notes);
    if r.Err? then (r, w) else if !t.produced then (Err(Refused(NoResult)), w) else Stored(w, result, t.ticket)
  }

  /** The evaluator loop: each result is committed, then drift and the freeze are checked before the next. */
  ghost function EvaluationRun(v: History, freeze: FreezeRecord, ts: seq<Trial>): (Answer, History)
    decreases |ts|
  {
    if ts == [] then (Ok(None), v)
    else
      var t := ts[0];
      var (r, w) := Persisted(v, t, Evaluation(t.id, freeze.candidate, t.status, t.rest));
      if r.Err? then (r, w)
      else if t.drifted then (Err(Refused(EvaluationDrift)), w)
      else
        match AuthorizeEvaluator(Observe(Payloads(w), t.after.(authority := map[])), None)
        case Err(code) => (Err(Refused(code)), w)
        case Ok((current, _)) =>
          if current.id != freeze.id then (Err(Refused(FreezeSuperseded)), w) else EvaluationRun(w, freeze, ts[1..])
  }

  function CheckResult(t: Trial, subject: Option<CandidateRecord>): Record {
    WorkflowResult(t.id, if subject.Some? then subject.value.id else t.project, t.projectScoped, t.workflow, t.status,
                   t.keys, t.rest)
  }

  /** The development loop: one machine authorises every workflow of the call. */
  ghost function Checked(v: History, m: Machine, candidate: Option<Id>, ts: seq<Trial>): (Answer, History)
    decreases |ts|
  {
    if ts == [] then (Ok(None), v)
    else
      match AuthorizeWork(m, candidate, ts[0].projectScoped)
      case Err(code) => (Err(Refused(code)), v)
      case Ok(subject) =>
        var (r, w) := Persisted(v, ts[0], CheckResult(ts[0], subject));
        if r.Err? then (r, w) else Checked(w, m, candidate, ts[1..])
  }

  /** The observations a verifier run makes: no authority, no policy, and freeze bindings only for an evaluator. */
  function VerifierEnv(env: Env): Env {
    env.(authority := map[], bindings := if env.mode == Evaluator then env.bindings else map[], policyId := "",
         required := [], policyError := false, keys := map[], environments := map[], policies := map[])
  }

  function ActionFor(draft: ActionRecord, mode: Mode, c: Id, freeze: Option<Id>): ActionRecord {
    VerifierAction(draft.id, draft.verifier, mode, c, freeze, Some(c), draft.environment, draft.policy, draft.rest)
  }

  /** The action a verifier run may record. */
  function VerifierGate(m: Machine, permitted: bool, candidate: Option<Id>, draft: ActionRecord):
    Result<ActionRecord, Code>
  {
    if m.env.mode == Development then
      if !permitted then Err(VerifierAuthority)
      else
        var c :- AuthorizeWork(m, candidate, false);
        if c.None? then Err(NoCandidate) else Ok(ActionFor(draft, Development, c.value.id, None))
    else
      var entry :- AuthorizeEvaluator(m, candidate);
      Ok(ActionFor(draft, Evaluator, entry.1.id, Some(entry.0.id)))
  }

  ghost function Started(v: History, m: Machine, permitted: bool, candidate: Option<Id>, draft: ActionRecord, t: Ticket)
    : (Answer, History)
  {
    match VerifierGate(m, permitted, candidate, draft)
    case Err(code) => (Err(Refused(code)), v)
    case Ok(action) => Stored(v, action, t)
  }

  ghost function Begun(v: History, m: Machine, op: Op): (Answer, History)
    requires op.BeginEpoch?
  {
    match AuthorizeEpochBegin(m, op.parent)
    case Err(code) => (Err(Refused(code)), v)
    case Ok(_) => Stored(v, Epoch(op.id, op.parent, op.authority, op.rest), op.ticket)
  }

  ghost function Refreshed(v: History, p: Projection, op: Op): (Answer, History)
    requires op.Refresh?
  {
    if p.candidate.None? then (Err(Refused(NoCandidate)), v)
    else if p.freshness == Current && p.candidate.value.id == op.current then (Ok(Some(p.candidate.value)), v)
    else if !op.files then (Err(Refused(ChangedFileInvalid)), v)
    else Registered(v, Observe(Payloads(v), op.again), op.currentAgain, Some(p.candidate.value.id), op.filesValid,
                    op.rest, op.ticket)
  }

  ghost function DisposedOf(v: History, m: Machine, op: Op): (Answer, History)
    requires op.Dispose?
  {
    if op.choice == "selected" && !op.rightsHeld then (Err(Refused(RightsUnresolved)), v)
    else
      match AuthorizeDisposition(m, op.candidate, op.choice)
      case Err(code) => (Err(Refused(code)), v)
      case Ok((_, evidence)) =>
        Stored(v, Disposition(op.id, op.candidate, if op.choice == "selected" then Selected else Rejected,
                              m.env.policyId, evidence.status, op.rest), op.ticket)
  }

  ghost function Frozen(v: History, m: Machine, op: Op): (Answer, History)
    requires op.FreezeCandidate?
  {
    match AuthorizeFreeze(m, op.candidate, op.plan)
    case Err(code) => (Err(Refused(code)), v)
    case Ok((c, selection)) => Stored(v, Freeze(op.id, c.id, selection.id, op.bindings, op.rest), op.ticket)
  }

  ghost function EvaluatedUnder(v: History, m: Machine, trials: seq<Trial>): (Answer, History) {
    match AuthorizeEvaluator(m, None)
    case Err(code) => (Err(Refused(code)), v)
    case Ok((freeze, _)) => EvaluationRun(v, freeze, trials)
  }

  ghost function Finished(v: History, op: Op): (Answer, History)
    requires op.FinishVerifier?
  {
    if !op.result.VerifierResult? then (Err(Refused(ActionNotRecorded)), v)
    else
      match AuthorizeTerminal(op.action, op.seen, op.action.id, op.result.candidate, op.result.freeze, op.result.mode)
      case Err(code) => (Err(Refused(code)), v)
      case Ok(_) => Stored(v, op.result, op.ticket)
  }

  ghost function BundleBuilt(v: History, m: Machine, op: Op): (Answer, History)
    requires op.BuildBundle?
  {
    match AuthorizeBundle(m, op.subject)
    case Err(code) => (Err(Refused(code)), v)
    case Ok(c) =>
      if !op.category then (Err(Refused(WorkflowCategory)), v)
      else Persisted(v, op.trial, Bundle(op.trial.id, c.id, op.trial.status, op.trial.rest))
  }

  /** An operation on the logical store: the answer and the history it leaves. */
  ghost function Step(v: History, op: Op): (Answer, History) {
    match op
    case BeginEpoch(env, _, _, _, _, _) => Begun(v, Observe(Payloads(v), env), op)
    case Register(env, current, expected, parent, filesValid, rest, t) =>
      if expected.Some? && expected.value != current then (Err(Refused(StaleCandidate)), v)
      else Registered(v, Observe(Payloads(v), env), current, parent, filesValid, rest, t)
    case Refresh(env, _, _, _, _, _, _, _) => Refreshed(v, Project(Payloads(v), env), op)
    case Dispose(env, _, _, _, _, _, _) => DisposedOf(v, Observe(Payloads(v), env), op)
    case FreezeCandidate(env, _, _, _, _, _, _) => Frozen(v, Observe(Payloads(v), env), op)
    case Evaluate(env, trials) => EvaluatedUnder(v, Observe(Payloads(v), env.(authority := map[])), trials)
    case Check(env, candidate, trials) => Checked(v, Observe(Payloads(v), env), candidate, trials)
    case StartVerifier(env, permitted, candidate, draft, t) =>
      Started(v, Observe(Keep(Payloads(v)), VerifierEnv(env)), permitted, candidate, draft, t)
    case FinishVerifier(_, _, _, _) => Finished(v, op)
    case BuildBundle(env, _, _, _) => BundleBuilt(v, Observe(Payloads(v), env), op)
    case Note(note) => Stored(v, note.record, note.ticket)
  }

  /** What the services never do: the free-form records they persist are none of the lifecycle kinds. */
  predicate WellTyped(op: Op) {
    match op
    case Evaluate(_, trials) => forall i :: 0 <= i < |trials| ==> OnlyNotes(trials[i].notes)
    case Check(_, _, trials) => forall i :: 0 <= i < |trials| ==> OnlyNotes(trials[i].notes)
    case BuildBundle(_, _, _, trial) => OnlyNotes(trial.notes)
    case Note(draft) => draft.record.Other?
    case _ => true
  }

  /** The ledger a run of operations reaches from the empty one. */
  ghost function Reached(ops: seq<Op>): History {
    if ops == [] then [] else Step(Reached(Init(ops)), End(ops)).1
  }

  /* ---- Every step keeps a lawful history ---- */

  ghost predicate Lawful(v: History) {
    Settled(v) && Legal(Payloads(v))
  }

  lemma {:induction false} PayloadsMember(v: History, r: Record)
    requires r in Payloads(v)
    ensures exists i :: 0 <= i < |v| && v[i].payload == r
  {
    if r in Payloads(Front(v)) {
      PayloadsMember(Front(v), r);
      var i :| 0 <= i < |Front(v)| && Front(v)[i].payload == r;
      assert v[i].payload == r;
    } else {
      assert v[|v| - 1].payload == r;
    }
  }

  lemma {:induction false} EpochsWithin(log: Log)
    ensures forall e :: e in Epochs(log) ==> e in log
    ensures forall c :: c in Candidates(log) ==> c in log
  {
    if log != [] {
      EpochsWithin(Init(log));
    }
  }

  /** The store refuses a second epoch or candidate under a used identity: the history does not grow. */
  lemma StoreRefusesRepeat(v: History, r: Record, t: Ticket)
    requires Settled(v) && !NewIdentity(Payloads(v), r)
    ensures Stored(v, r, t).1 == v
  {
    var log, q := Payloads(v), RequestOf(r, t);
    EpochsWithin(log);
    IdsMember(Epochs(log), r.id);
    IdsMember(Candidates(log), r.id);
    var s :| s in log && s.id == r.id && KindOf(s) == KindOf(r);
    PayloadsMember(v, s);
    var i :| 0 <= i < |v| && v[i].payload == s;
    if Refusal(q).None? {
      OutcomeOnUsedPath(v, q, i);
    }
  }

  /** A commit appends its record or nothing; an accepted one is in the ledger. */
  lemma StoredGrows(v: History, r: Record, t: Ticket)
    ensures var w := Stored(v, r, t).1; w == v || Payloads(w) == Payloads(v) + [r]
    ensures Stored(v, r, t).0.Ok? ==> r in Payloads(Stored(v, r, t).1)
  {
    var w := Stored(v, r, t).1;
    if w != v {
      assert Front(w) == v && Last(w).payload == r;
    } else if Stored(v, r, t).0.Ok? {
      FiledHasFile(v, PathOf(r));
      var i :| 0 <= i < |v| && v[i] == Filed(v, PathOf(r)).value;
      PayloadsAt(v, i);
    }
  }

  lemma {:induction false} PayloadsAt(v: History, i: nat)
    requires i < |v|
    ensures v[i].payload in Payloads(v)
  {
    if i < |v| - 1 {
      PayloadsAt(Front(v), i);
      assert Front(v)[i] == v[i];
    }
  }

  lemma LegalSnoc(log: Log, r: Record)
    requires Legal(log) && Allowed(log, r)
    ensures Legal(log + [r])
  {
    assert Init(log + [r]) == log;
  }

  /** Committing a record the gates let through keeps the history lawful, grown by that record or not at all. */
  lemma StoredLawful(v: History, r: Record, t: Ticket)
    requires Lawful(v) && Gated(Payloads(v), r)
    ensures Lawful(Stored(v, r, t).1)
    ensures Stored(v, r, t).1 == v || Payloads(Stored(v, r, t).1) == Payloads(v) + [r]
  {
    OutcomeSettled(v, RequestOf(r, t));
    StoredGrows(v, r, t);
    if !NewIdentity(Payloads(v), r) {
      StoreRefusesRepeat(v, r, t);
    } else {
      LegalSnoc(Payloads(v), r);
    }
  }

  /** Records of no lifecycle kind leave the newest candidate and its freeze as they were. */
  predicate Undisturbed(a: Log, b: Log) {
    Newest(b) == Newest(a) && (Newest(a).Some? ==> FreezesOf(b, Newest(a).value) == FreezesOf(a, Newest(a).value))
  }

  lemma StoredQuiet(v: History, r: Record, t: Ticket)
    requires Lawful(v) && Gated(Payloads(v), r) && !Structural(r)
    ensures Lawful(Stored(v, r, t).1) && Undisturbed(Payloads(v), Payloads(Stored(v, r, t).1))
  {
    StoredLawful(v, r, t);
    assert Init(Payloads(v) + [r]) == Payloads(v);
  }

  lemma {:induction false} NotesLawful(v: History, ds: seq<Drafted>)
    requires Lawful(v) && OnlyNotes(ds)
    ensures Lawful(StoredAll(v, ds).1) && Undisturbed(Payloads(v), Payloads(StoredAll(v, ds).1))
    decreases |ds|
  {
    if ds != [] {
      StoredQuiet(v, ds[0].record, ds[0].ticket);
      NotesLawful(Stored(v, ds[0].record, ds[0].ticket).1, ds[1..]);
    }
  }

  /** A machine that reads the history of `v`, which is lawful. */
  ghost predicate Sees(m: Machine, v: History) {
    Lawful(v) && Reads(m) && m.log == Payloads(v)
  }

  lemma Look(v: History, env: Env)
    requires Lawful(v)
    ensures Sees(Observe(Payloads(v), env), v)
  {
    LegalProjection(Payloads(v), env);
  }

  lemma RegisteredLawful(v: History, m: Machine, current: Id, parent: Option<Id>, filesValid: bool, rest: nat,
                         t: Ticket)
    requires Sees(m, v)
    ensures Lawful(Registered(v, m, current, parent, filesValid, rest, t).1)
  {
    RegisterGate(m, parent, current);
    var a := AuthorizeRegister(m, parent, current);
    if a.Ok? {
      StoredLawful(v, Candidate(current, parent, a.value.id, rest), t);
    }
  }

  lemma PersistedLawful(v: History, t: Trial, result: Record)
    requires Lawful(v) && OnlyNotes(t.notes) && Gated(Payloads(v), result)
    requires result.Evaluation? || result.WorkflowResult? || result.Bundle?
    ensures var w := Persisted(v, t, result).1; Lawful(w) && Undisturbed(Payloads(v), Payloads(w))
  {
    NotesLawful(v, t.notes);
    var w := StoredAll(v, t.notes).1;
    StoredQuiet(w, result, t.ticket);
  }

  lemma {:induction false} EvaluatedLawful(v: History, freeze: FreezeRecord, ts: seq<Trial>)
    requires Lawful(v) && Newest(Payloads(v)) == Some(freeze.candidate) && IsFrozen(Payloads(v))
    requires forall i :: 0 <= i < |ts| ==> OnlyNotes(ts[i].notes)
    ensures Lawful(EvaluationRun(v, freeze, ts).1)
    decreases |ts|
  {
    if ts != [] {
      var t := ts[0];
      var e := Evaluation(t.id, freeze.candidate, t.status, t.rest);
      PersistedLawful(v, t, e);
      EvaluatedLawful(Persisted(v, t, e).1, freeze, ts[1..]);
    }
  }

  lemma {:induction false} CheckedLawful(v: History, m: Machine, subject: Option<Id>, ts: seq<Trial>)
    requires Lawful(v) && Reads(m) && Undisturbed(m.log, Payloads(v))
    requires forall i :: 0 <= i < |ts| ==> OnlyNotes(ts[i].notes)
    ensures Lawful(Checked(v, m, subject, ts).1)
    decreases |ts|
  {
    if ts != [] && AuthorizeWork(m, subject, ts[0].projectScoped).Ok? {
      var r := CheckResult(ts[0], AuthorizeWork(m, subject, ts[0].projectScoped).value);
      WorkGate(m, subject);
      PersistedLawful(v, ts[0], r);
      CheckedLawful(Persisted(v, ts[0], r).1, m, subject, ts[1..]);
    }
  }

  lemma StartedLawful(v: History, env: Env, permitted: bool, subject: Option<Id>, draft: ActionRecord, t: Ticket)
    requires Lawful(v)
    ensures Lawful(Started(v, Observe(Keep(Payloads(v)), env), permitted, subject, draft, t).1)
  {
    Look(v, env);
    FilteredGatesAgree(Payloads(v), env, subject);
    StartedOn(v, Observe(Payloads(v), env), Observe(Keep(Payloads(v)), env), permitted, subject, draft, t);
  }

  lemma StartedOn(v: History, m: Machine, k: Machine, permitted: bool, subject: Option<Id>, draft: ActionRecord,
                  t: Ticket)
    requires Sees(m, v) && k.env == m.env && AuthorizeWork(k, subject, false) == AuthorizeWork(m, subject, false)
    requires AuthorizeEvaluator(k, subject) == AuthorizeEvaluator(m, subject)
    ensures Lawful(Started(v, k, permitted, subject, draft, t).1)
  {
    SameVerifierGate(m, k, permitted, subject, draft);
    var gate := VerifierGate(m, permitted, subject, draft);
    if gate.Ok? {
      VerifierGated(m, permitted, subject, draft);
      StoredLawful(v, gate.value, t);
    }
  }

  lemma SameVerifierGate(m: Machine, k: Machine, permitted: bool, subject: Option<Id>, draft: ActionRecord)
    requires k.env == m.env && AuthorizeWork(k, subject, false) == AuthorizeWork(m, subject, false)
    requires AuthorizeEvaluator(k, subject) == AuthorizeEvaluator(m, subject)
    ensures VerifierGate(k, permitted, subject, draft) == VerifierGate(m, permitted, subject, draft)
  {
  }

  lemma VerifierGated(m: Machine, permitted: bool, subject: Option<Id>, draft: ActionRecord)
    requires Reads(m) && VerifierGate(m, permitted, subject, draft).Ok?
    ensures Gated(m.log, VerifierGate(m, permitted, subject, draft).value)
  {
    WorkGate(m, subject);
    EvaluatorGate(m, subject);
  }

  lemma BegunLawful(v: History, m: Machine, op: Op)
    requires Sees(m, v) && op.BeginEpoch?
    ensures Lawful(Begun(v, m, op).1)
  {
    EpochGate(m, op.parent);
    if AuthorizeEpochBegin(m, op.parent).Ok? {
      StoredLawful(v, Epoch(op.id, op.parent, op.authority, op.rest), op.ticket);
    }
  }

  lemma RefreshedLawful(v: History, p: Projection, op: Op)
    requires Lawful(v) && op.Refresh?
    ensures Lawful(Refreshed(v, p, op).1)
  {
    if p.candidate.Some? {
      Look(v, op.again);
      RegisteredLawful(v, Observe(Payloads(v), op.again), op.currentAgain, Some(p.candidate.value.id), op.filesValid,
                       op.rest, op.ticket);
    }
  }

  lemma DisposedLawful(v: History, m: Machine, op: Op)
    requires Sees(m, v) && op.Dispose?
    requires m.p.candidate.Some? && BlockerOf(m.p.evidence).None? ==> m.p.evidence.status == Pass
    ensures Lawful(DisposedOf(v, m, op).1)
  {
    DispositionGate(m, op.candidate, op.choice);
    if AuthorizeDisposition(m, op.candidate, op.choice).Ok? {
      StoredLawful(v, Disposition(op.id, op.candidate, if op.choice == "selected" then Selected else Rejected,
                                  m.env.policyId, m.p.evidence.status, op.rest), op.ticket);
    }
  }

  /** Readiness without a blocker is PASS. */
  lemma UnblockedPasses(log: Log, env: Env)
    ensures var p := Project(log, env); p.candidate.Some? && BlockerOf(p.evidence).None? ==> p.evidence.status == Pass
  {
  }

  lemma FrozenLawful(v: History, m: Machine, op: Op)
    requires Sees(m, v) && op.FreezeCandidate?
    ensures Lawful(Frozen(v, m, op).1)
  {
    FreezeGate(m, op.candidate, op.plan);
    if AuthorizeFreeze(m, op.candidate, op.plan).Ok? {
      var selection := DispositionsOf(m.log, op.candidate)[0];
      StoredLawful(v, Freeze(op.id, op.candidate, selection.id, op.bindings, op.rest), op.ticket);
    }
  }

  lemma EvaluateLawful(v: History, m: Machine, trials: seq<Trial>)
    requires Sees(m, v) && forall i :: 0 <= i < |trials| ==> OnlyNotes(trials[i].notes)
    ensures Lawful(EvaluatedUnder(v, m, trials).1)
  {
    EvaluatorGate(m, None);
    if AuthorizeEvaluator(m, None).Ok? {
      FreezesNameTheirCandidate(m.log, m.env.candidate);
      EvaluatedLawful(v, AuthorizeEvaluator(m, None).value.0, trials);
    }
  }

  lemma FinishedLawful(v: History, op: Op)
    requires Lawful(v) && op.FinishVerifier?
    ensures Lawful(Finished(v, op).1)
  {
    if op.result.VerifierResult? {
      StoredLawful(v, op.result, op.ticket);
    }
  }

  lemma BundledLawful(v: History, m: Machine, op: Op)
    requires Sees(m, v) && op.BuildBundle? && OnlyNotes(op.trial.notes)
    ensures Lawful(BundleBuilt(v, m, op).1)
  {
    if AuthorizeBundle(m, op.subject).Ok? {
      BundleGate(m, op.subject);
      PersistedLawful(v, op.trial, Bundle(op.trial.id, m.env.candidate, op.trial.status, op.trial.rest));
    }
  }

  /** No operation, whatever it observes, takes a lawful history to an unlawful one. */
  lemma StepLawful(v: History, op: Op)
    requires Lawful(v) && WellTyped(op)
    ensures Lawful(Step(v, op).1)
  {
    match op
    case BeginEpoch(env, _, _, _, _, _) =>
      Look(v, env);
      BegunLawful(v, Observe(Payloads(v), env), op);
    case Register(env, current, expected, parent, filesValid, rest, t) =>
      Look(v, env);
      RegisteredLawful(v, Observe(Payloads(v), env), current, parent, filesValid, rest, t);
    case Refresh(env, _, _, _, _, _, _, _) => RefreshedLawful(v, Project(Payloads(v), env), op);
    case Dispose(env, _, _, _, _, _, _) => DisposeLawful(v, op);
    case FreezeCandidate(env, _, _, _, _, _, _) =>
      Look(v, env);
      FrozenLawful(v, Observe(Payloads(v), env), op);
    case Evaluate(env, trials) =>
      Look(v, env.(authority := map[]));
      EvaluateLawful(v, Observe(Payloads(v), env.(authority := map[])), trials);
    case Check(env, subject, trials) =>
      Look(v, env);
      CheckedLawful(v, Observe(Payloads(v), env), subject, trials);
    case StartVerifier(env, permitted, subject, draft, t) =>
      StartedLawful(v, VerifierEnv(env), permitted, subject, draft, t);
    case FinishVerifier(_, _, _, _) => FinishedLawful(v, op);
    case BuildBundle(env, _, _, _) =>
      Look(v, env);
      BundledLawful(v, Observe(Payloads(v), env), op);
    case Note(note) => StoredLawful(v, note.record, note.ticket);
  }

  lemma DisposeLawful(v: History, op: Op)
    requires Lawful(v) && op.Dispose?
    ensures Lawful(Step(v, op).1)
  {
    Look(v, op.env);
    UnblockedPasses(Payloads(v), op.env);
    DisposedLawful(v, Observe(Payloads(v), op.env), op);
  }

  /** Every run from the empty ledger. */
  lemma {:induction false} ReachedLawful(ops: seq<Op>)
    requires forall i :: 0 <= i < |ops| ==> WellTyped(ops[i])
    ensures Lawful(Reached(ops))
  {
    if ops != [] {
      ReachedLawful(Init(ops));
      StepLawful(Reached(Init(ops)), End(ops));
    }
  }

  /** No run reaches an ambiguous history, under any later observation; the lineage is always the registrations of the
      active epoch in order. */
  lemma NeverAmbiguous(ops: seq<Op>, env: Env)
    requires forall i :: 0 <= i < |ops| ==> WellTyped(ops[i])
    ensures var log := Payloads(Reached(ops));
            && Project(log, env).stage != AmbiguousHistory
            && Project(log, env).lineage == Ids(Trail(log))
            && (Epochs(log) != [] ==> Trail(log) == OfEpoch(Candidates(log), End(Epochs(log)).id))
  {
    ReachedLawful(ops);
    LegalProjection(Payloads(Reached(ops)), env);
    LegalTrail(Payloads(Reached(ops)));
  }

  /** Two dispositions of one candidate. */
  predicate SameSubject(r: Record, s: Record) {
    r.Disposition? && s.Disposition? && r.candidate == s.candidate
  }

  /** The gate ordering over whole runs: a freeze follows the one disposition of its candidate, a selection on PASS
      evidence that it binds; an evaluation follows a freeze of its candidate; after a freeze no candidate, development
      verifier or candidate check until a successor epoch; a rejected candidate is never frozen. */
  lemma RunOrder(ops: seq<Op>, i: nat)
    requires forall k :: 0 <= k < |ops| ==> WellTyped(ops[k])
    requires i < |Payloads(Reached(ops))|
    ensures var log := Payloads(Reached(ops));
            && (log[i].Freeze? ==>
                  exists j :: 0 <= j < i && log[j].Disposition? && log[j].candidate == log[i].candidate
                              && log[j].verdict == Selected && log[j].evidence == Pass && log[j].id == log[i].selection)
            && (log[i].Evaluation? ==> exists j :: 0 <= j < i && log[j].Freeze? && log[j].candidate == log[i].candidate)
    ensures var log := Payloads(Reached(ops));
            forall j :: 0 <= j < i && log[j].Freeze? && NoEpochWithin(log, j, i) ==>
              && !log[i].Candidate? && (log[i].VerifierAction? ==> log[i].mode == Evaluator)
              && (log[i].WorkflowResult? ==> log[i].projectScoped)
    ensures var log := Payloads(Reached(ops));
            forall j, k :: 0 <= j < |log| && 0 <= k < |log| && SameSubject(log[j], log[k]) ==> j == k
    ensures var log := Payloads(Reached(ops));
            log[i].Freeze? ==>
              forall j :: 0 <= j < |log| && log[j].Disposition? && log[j].candidate == log[i].candidate ==>
                            log[j].verdict == Selected
  {
    var log := Payloads(Reached(ops));
    ReachedLawful(ops);
    if log[i].Freeze? {
      var j := FreezeFollowsSelection(log, i);
    }
    if log[i].Evaluation? {
      var j := EvaluationFollowsFreeze(log, i);
    }
    forall j | 0 <= j < i && log[j].Freeze? && NoEpochWithin(log, j, i)
      ensures && !log[i].Candidate? && (log[i].VerifierAction? ==> log[i].mode == Evaluator)
              && (log[i].WorkflowResult? ==> log[i].projectScoped)
    {
      QuietAfterFreeze(log, j, i);
    }
    forall j, k | 0 <= j < |log| && 0 <= k < |log| && SameSubject(log[j], log[k]) ensures j == k
    {
      DisposedOnce(log, j, k);
    }
  }

  /** Behind the status a freeze or a selection writes stand records: a freeze that grows the history rests on complete,
      current PASS evidence for its plan and for the policy in force. */
  lemma FreezeRestsOnEvidence(v: History, op: Op)
    requires op.FreezeCandidate? && Step(v, op).1 != v
    ensures var log := Payloads(v); var c := Project(log, op.env).candidate;
            && c.Some? && c.value.id == op.candidate == op.env.candidate && !op.env.policyError
            && op.plan.Some? && Proven(log, op.env, c.value, op.plan.value)
            && (op.env.required != [] ==> Proven(log, op.env, c.value, op.env.required))
  {
    var m := Observe(Payloads(v), op.env);
    FreezeMeans(Payloads(v), op.env, op.candidate, op.plan);
    FreezeMeansUnder(m, op.candidate, PlanBlocker(m, op.plan));
  }

  /** So does a selection, for the policy in force. */
  lemma SelectionRestsOnEvidence(v: History, op: Op)
    requires op.Dispose? && op.choice == "selected" && Step(v, op).1 != v
    ensures var log := Payloads(v); var c := Project(log, op.env).candidate;
            && c.Some? && c.value.id == op.candidate == op.env.candidate && !op.env.policyError
            && (op.env.required != [] ==> Proven(log, op.env, c.value, op.env.required))
  {
    SelectionMeans(Payloads(v), op.env, op.candidate);
    SelectedIsCurrent(Observe(Payloads(v), op.env), op.candidate);
  }

  lemma SelectedIsCurrent(m: Machine, c: Id)
    requires AuthorizeDisposition(m, c, "selected").Ok?
    ensures m.p.candidate.Some? && AuthorizeDisposition(m, c, "selected").value.0 == m.p.candidate.value
  {
  }

  /** Over whole runs: wherever a freeze or a selection entered the history, its evidence was there. */
  lemma RunEvidence(ops: seq<Op>, n: nat)
    requires n < |ops| && Step(Reached(ops[..n]), ops[n]).1 != Reached(ops[..n])
    requires ops[n].FreezeCandidate? || (ops[n].Dispose? && ops[n].choice == "selected")
    ensures var log, op := Payloads(Reached(ops[..n])), ops[n];
            var c := Project(log, op.env).candidate;
            && c.Some? && c.value.id == op.candidate == op.env.candidate && !op.env.policyError
            && (op.env.required != [] ==> Proven(log, op.env, c.value, op.env.required))
            && (op.FreezeCandidate? ==> op.plan.Some? && Proven(log, op.env, c.value, op.plan.value))
  {
    var v, op := Reached(ops[..n]), ops[n];
    if op.FreezeCandidate? {
      FreezeRestsOnEvidence(v, op);
    } else {
      SelectionRestsOnEvidence(v, op);
    }
  }
}
