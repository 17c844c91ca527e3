/** The application services over the transactional store: read the history, pass the gate, commit the record. */
module Services {
  import opened Records
  import opened Readiness
  import opened Lifecycle
  import opened Gates
  import opened HashChain
  import opened LedgerIndex
  import opened StoreSpec
  import opened RecordStore
  import opened Runs

  /** A store with nothing pending that stands for `v`. */
  ghost predicate Ready(store: LocalRecordStore, v: History)
    reads store, store.ledger
  {
    store.ledger.Valid() && StandsFor(store.disk, v) && store.disk.txs == []
  }

  /** The disk stands for a ledger between `v` and `w`. */
  ghost predicate Amid(d: Disk, v: History, w: History) {
    exists u :: v <= u <= w && StandsFor(d, u)
  }

  /** The ledger grew from `v` to `w`, and every step since `t0` left a disk that stands for one between them. */
  ghost predicate Spans(t0: seq<Disk>, t: seq<Disk>, v: History, w: History) {
    v <= w && (t == t0 || (t != [] && Spans(t0, Init(t), v, w) && Amid(End(t), v, w)))
  }

  lemma {:induction false} SwitchSpans(t0: seq<Disk>, t: seq<Disk>, n: nat, v: History, w: History, turn: nat)
    requires Switches(t0, t, v, w, turn) && v <= w && |t0| <= n <= |t|
    ensures Spans(t0, t[..n], v, w)
  {
    if n == |t0| {
      assert t[..n] == t0;
    } else {
      SwitchSpans(t0, t, n - 1, v, w, turn);
      assert Init(t[..n]) == t[..n - 1] && End(t[..n]) == t[n - 1];
      assert StandsFor(t[n - 1], if n - 1 < turn then v else w);
    }
  }

  lemma {:induction false} SpansJoin(t0: seq<Disk>, t1: seq<Disk>, t2: seq<Disk>, u: History, v: History, w: History)
    requires Spans(t0, t1, u, v) && Spans(t1, t2, v, w)
    ensures Spans(t0, t2, u, w)
    decreases |t2|
  {
    if t2 == t1 {
      SpansWiden(t0, t1, u, v, w);
    } else {
      SpansJoin(t0, t1, Init(t2), u, v, w);
      AmidWiden(End(t2), v, w, u, w);
    }
  }

  lemma {:induction false} SpansWiden(t0: seq<Disk>, t: seq<Disk>, u: History, v: History, w: History)
    requires Spans(t0, t, u, v) && v <= w
    ensures Spans(t0, t, u, w)
  {
    if t != t0 {
      SpansWiden(t0, Init(t), u, v, w);
      AmidWiden(End(t), u, v, u, w);
    }
  }

  lemma AmidWiden(d: Disk, v: History, w: History, v': History, w': History)
    requires Amid(d, v, w) && v' <= v && w <= w'
    ensures Amid(d, v', w')
  {
    var x :| v <= x <= w && StandsFor(d, x);
    assert v' <= x <= w';
  }

  /** `LifecycleContext.machine`: read the whole history and project it under what is observed. */
  method LookAt(store: LocalRecordStore, env: Env, ghost v: History) returns (m: Machine)
    requires Ready(store, v)
    modifies store.ledger
    ensures Ready(store, v) && m == Observe(Payloads(v), env)
  {
    var entries := store.Entries(None, v);
    m := Observe(Payloads(entries.value), env);
  }

  /** Read the four kinds a verifier's gate looks at, through the index. */
  method ReadStructural(store: LocalRecordStore, ghost v: History) returns (log: Log)
    requires Ready(store, v)
    modifies store.ledger
    ensures Ready(store, v) && log == Keep(Payloads(v))
  {
    var kinds := {KEpoch, KCandidate, KDisposition, KFreeze};
    assert Payloads(Filter(v, kinds)) == Keep(Payloads(v)) by {
      SettledNormal(v);
      KeepIsFilter(v, kinds);
    }
    var entries := store.Entries(Some(kinds), v);
    log := Payloads(entries.value);
  }

  /** Commit one record: it is appended, or nothing is. */
  method Save(store: LocalRecordStore, r: Record, t: Ticket, ghost v: History) returns (a: Answer, ghost w: History)
    requires Ready(store, v)
    modifies store`disk, store`trace, store.ledger
    ensures Ready(store, w) && (a, w) == Stored(v, r, t)
    ensures Spans(old(store.trace), store.trace, v, w) && (w == v || Payloads(w) == Payloads(v) + [r])
  {
    ghost var turn;
    var o;
    o, turn := store.Commit(RequestOf(r, t), v);
    w := Stored(v, r, t).1;
    a := if o.Ok? then Ok(Some(r)) else Err(Unstored(o.error));
    OutcomeSettled(v, RequestOf(r, t));
    SwitchSpans(old(store.trace), store.trace, |store.trace|, v, w, turn);
    assert store.trace[..|store.trace|] == store.trace;
    StoredGrows(v, r, t);
  }

  /** Begin an epoch under the machine just built. */
  method BeginEpoch(store: LocalRecordStore, m: Machine, op: Op, ghost v: History) returns (a: Answer, ghost w: History)
    requires Ready(store, v) && op.BeginEpoch?
    modifies store`disk, store`trace, store.ledger
    ensures Ready(store, w) && (a, w) == Begun(v, m, op)
    ensures Spans(old(store.trace), store.trace, v, w)
  {
    var gate := AuthorizeEpochBegin(m, op.parent);
    if gate.Err? {
      return Err(Refused(gate.error)), v;
    }
    a, w := Save(store, Epoch(op.id, op.parent, op.authority, op.rest), op.ticket, v);
  }

  method Register(store: LocalRecordStore, m: Machine, current: Id, parent: Option<Id>, filesValid: bool, rest: nat,
                  t: Ticket, ghost v: History)
    returns (a: Answer, ghost w: History)
    requires Ready(store, v)
    modifies store`disk, store`trace, store.ledger
    ensures Ready(store, w) && (a, w) == Registered(v, m, current, parent, filesValid, rest, t)
    ensures Spans(old(store.trace), store.trace, v, w)
  {
    var gate := AuthorizeRegister(m, parent, current);
    if gate.Err? {
      return Err(Refused(gate.error)), v;
    }
    if !filesValid {
      return Err(Refused(ChangedFileInvalid)), v;
    }
    a, w := Save(store, Candidate(current, parent, gate.value.id, rest), t, v);
  }

  /** Register a successor when the content drifted; a candidate that still matches is returned unchanged. */
  method Refresh(store: LocalRecordStore, p: Projection, op: Op, ghost v: History) returns (a: Answer, ghost w: History)
    requires Ready(store, v) && op.Refresh?
    modifies store`disk, store`trace, store.ledger
    ensures Ready(store, w) && (a, w) == Refreshed(v, p, op)
    ensures Spans(old(store.trace), store.trace, v, w)
  {
    if p.candidate.None? {
      return Err(Refused(NoCandidate)), v;
    }
    if p.freshness == Current && p.candidate.value.id == op.current {
      return Ok(Some(p.candidate.value)), v;
    }
    if !op.files {
      return Err(Refused(ChangedFileInvalid)), v;
    }
    var m := LookAt(store, op.again, v);
    a, w := Register(store, m, op.currentAgain, Some(p.candidate.value.id), op.filesValid, op.rest, op.ticket, v);
  }

  method Dispose(store: LocalRecordStore, m: Machine, op: Op, ghost v: History) returns (a: Answer, ghost w: History)
    requires Ready(store, v) && op.Dispose?
    modifies store`disk, store`trace, store.ledger
    ensures Ready(store, w) && (a, w) == DisposedOf(v, m, op)
    ensures Spans(old(store.trace), store.trace, v, w)
  {
    if op.choice == "selected" && !op.rightsHeld {
      return Err(Refused(RightsUnresolved)), v;
    }
    var gate := AuthorizeDisposition(m, op.candidate, op.choice);
    if gate.Err? {
      return Err(Refused(gate.error)), v;
    }
    var verdict := if op.choice == "selected" then Selected else Rejected;
    var record := Disposition(op.id, op.candidate, verdict, m.env.policyId, gate.value.1.status, op.rest);
    a, w := Save(store, record, op.ticket, v);
  }

  method FreezeSelected(store: LocalRecordStore, m: Machine, op: Op, ghost v: History)
    returns (a: Answer, ghost w: History)
    requires Ready(store, v) && op.FreezeCandidate?
    modifies store`disk, store`trace, store.ledger
    ensures Ready(store, w) && (a, w) == Frozen(v, m, op)
    ensures Spans(old(store.trace), store.trace, v, w)
  {
    var gate := AuthorizeFreeze(m, op.candidate, op.plan);
    if gate.Err? {
      return Err(Refused(gate.error)), v;
    }
    var (c, selection) := gate.value;
    a, w := Save(store, Freeze(op.id, c.id, selection.id, op.bindings, op.rest), op.ticket, v);
  }

  /** Persist one execution: its notes one after another, then its result. */
  method Persist(store: LocalRecordStore, trial: Trial, result: Record, ghost v: History)
    returns (a: Answer, ghost w: History)
    requires Ready(store, v)
    modifies store`disk, store`trace, store.ledger
    ensures Ready(store, w) && (a, w) == Persisted(v, trial, result)
    ensures Spans(old(store.trace), store.trace, v, w)
  {
    a, w := Ok(None), v;
    var ds := trial.notes;
    for i := 0 to |ds|
      invariant Ready(store, w) && a.Ok? && Spans(old(store.trace), store.trace, v, w)
      invariant StoredAll(v, ds) == StoredAll(w, ds[i..])
    {
      assert ds[i..][0] == ds[i] && ds[i..][1..] == ds[i + 1..];
      ghost var t, u := store.trace, w;
      a, w := Save(store, ds[i].record, ds[i].ticket, w);
      SpansJoin(old(store.trace), t, store.trace, v, u, w);
      if a.Err? {
        return;
      }
    }
    if !trial.produced {
      return Err(Refused(NoResult)), w;
    }
    ghost var t, u := store.trace, w;
    a, w := Save(store, result, trial.ticket, w);
    SpansJoin(old(store.trace), t, store.trace, v, u, w);
  }

  method Evaluate(store: LocalRecordStore, m: Machine, trials: seq<Trial>, ghost v: History)
    returns (a: Answer, ghost w: History)
    requires Ready(store, v)
    modifies store`disk, store`trace, store.ledger
    ensures Ready(store, w) && (a, w) == EvaluatedUnder(v, m, trials)
    ensures Spans(old(store.trace), store.trace, v, w)
  {
    var gate := AuthorizeEvaluator(m, None);
    if gate.Err? {
      return Err(Refused(gate.error)), v;
    }
    a, w := RunEvaluations(store, gate.value.0, trials, v);
  }

  /** The evaluator's loop over its workflows, the freeze re-checked after every result. */
  method RunEvaluations(store: LocalRecordStore, freeze: FreezeRecord, trials: seq<Trial>, ghost v: History)
    returns (a: Answer, ghost w: History)
    requires Ready(store, v)
    modifies store`disk, store`trace, store.ledger
    ensures Ready(store, w) && (a, w) == EvaluationRun(v, freeze, trials)
    ensures Spans(old(store.trace), store.trace, v, w)
  {
    w := v;
    for i := 0 to |trials|
      invariant Ready(store, w) && Spans(old(store.trace), store.trace, v, w)
      invariant EvaluationRun(v, freeze, trials) == EvaluationRun(w, freeze, trials[i..])
    {
      var t := trials[i];
      assert trials[i..][0] == t && trials[i..][1..] == trials[i + 1..];
      ghost var before, u := store.trace, w;
      a, w := Persist(store, t, Evaluation(t.id, freeze.candidate, t.status, t.rest), w);
      SpansJoin(old(store.trace), before, store.trace, v, u, w);
      if a.Err? {
        return;
      }
      if t.drifted {
        return Err(Refused(EvaluationDrift)), w;
      }
      var m := LookAt(store, t.after.(authority := map[]), w);
      var current := AuthorizeEvaluator(m, None);
      if current.Err? {
        return Err(Refused(current.error)), w;
      }
      if current.value.0.id != freeze.id {
        return Err(Refused(FreezeSuperseded)), w;
      }
    }
    a := Ok(None);
  }

  /** The development loop over workflows, all under the machine of the first look. */
  method RunChecks(store: LocalRecordStore, m: Machine, candidate: Option<Id>, trials: seq<Trial>, ghost v: History)
    returns (a: Answer, ghost w: History)
    requires Ready(store, v)
    modifies store`disk, store`trace, store.ledger
    ensures Ready(store, w) && (a, w) == Checked(v, m, candidate, trials)
    ensures Spans(old(store.trace), store.trace, v, w)
  {
    w := v;
    for i := 0 to |trials|
      invariant Ready(store, w) && Spans(old(store.trace), store.trace, v, w)
      invariant Checked(v, m, candidate, trials) == Checked(w, m, candidate, trials[i..])
    {
      var t := trials[i];
      assert trials[i..][0] == t && trials[i..][1..] == trials[i + 1..];
      var gate := AuthorizeWork(m, candidate, t.projectScoped);
      if gate.Err? {
        return Err(Refused(gate.error)), w;
      }
      ghost var before, u := store.trace, w;
      a, w := Persist(store, t, CheckResult(t, gate.value), w);
      SpansJoin(old(store.trace), before, store.trace, v, u, w);
      if a.Err? {
        return;
      }
    }
    a := Ok(None);
  }

  /** A verifier run up to its recorded action: the gate reads four kinds of record through the index. */
  method StartVerifier(store: LocalRecordStore, m: Machine, permitted: bool, candidate: Option<Id>, draft: ActionRecord,
                       t: Ticket, ghost v: History)
    returns (a: Answer, ghost w: History)
    requires Ready(store, v)
    modifies store`disk, store`trace, store.ledger
    ensures Ready(store, w) && (a, w) == Started(v, m, permitted, candidate, draft, t)
    ensures Spans(old(store.trace), store.trace, v, w)
  {
    var gate := VerifierGate(m, permitted, candidate, draft);
    if gate.Err? {
      return Err(Refused(gate.error)), v;
    }
    a, w := Save(store, gate.value, t, v);
  }

  /** The index selection of the four kinds is the filtered history. */
  lemma {:induction false} KeepIsFilter(v: History, kinds: set<Kind>)
    requires Normal(v)
    requires forall k :: k in kinds <==> k == KEpoch || k == KCandidate || k == KDisposition || k == KFreeze
    ensures Payloads(Filter(v, kinds)) == Keep(Payloads(v))
  {
    if v != [] {
      var front, e := Front(v), Last(v);
      KeepIsFilter(front, kinds);
      KeepSnoc(Payloads(front), e.payload);
      PayloadsSnoc(Filter(front, kinds), e);
      FilterSnoc(v, kinds);
      StructuralKinds(e.payload, kinds);
    }
  }

  lemma StructuralKinds(r: Record, kinds: set<Kind>)
    requires forall k :: k in kinds <==> k == KEpoch || k == KCandidate || k == KDisposition || k == KFreeze
    ensures Structural(r) <==> KindOf(r) in kinds
  {
  }

  lemma FilterSnoc(v: History, kinds: set<Kind>)
    requires v != []
    ensures var front := Filter(Front(v), kinds);
            Filter(v, kinds) == if Last(v).kind in kinds then front + [Last(v)] else front
  {
  }

  lemma KeepSnoc(log: Log, r: Record)
    ensures Keep(log + [r]) == if Structural(r) then Keep(log) + [r] else Keep(log)
  {
    assert Init(log + [r]) == log;
  }

  lemma PayloadsSnoc(v: History, e: Entry)
    ensures Payloads(v + [e]) == Payloads(v) + [e.payload]
  {
    assert Front(v + [e]) == v;
  }

  method FinishVerifier(store: LocalRecordStore, op: Op, ghost v: History) returns (a: Answer, ghost w: History)
    requires Ready(store, v) && op.FinishVerifier?
    modifies store`disk, store`trace, store.ledger
    ensures Ready(store, w) && (a, w) == Finished(v, op)
    ensures Spans(old(store.trace), store.trace, v, w)
  {
    if !op.result.VerifierResult? {
      return Err(Refused(ActionNotRecorded)), v;
    }
    var r := op.result;
    var gate := AuthorizeTerminal(op.action, op.seen, op.action.id, r.candidate, r.freeze, r.mode);
    if gate.Err? {
      return Err(Refused(gate.error)), v;
    }
    a, w := Save(store, op.result, op.ticket, v);
  }

  method BuildBundle(store: LocalRecordStore, m: Machine, op: Op, ghost v: History)
    returns (a: Answer, ghost w: History)
    requires Ready(store, v) && op.BuildBundle?
    modifies store`disk, store`trace, store.ledger
    ensures Ready(store, w) && (a, w) == BundleBuilt(v, m, op)
    ensures Spans(old(store.trace), store.trace, v, w)
  {
    var gate := AuthorizeBundle(m, op.subject);
    if gate.Err? {
      return Err(Refused(gate.error)), v;
    }
    if !op.category {
      return Err(Refused(WorkflowCategory)), v;
    }
    a, w := Persist(store, op.trial, Bundle(op.trial.id, gate.value.id, op.trial.status, op.trial.rest), v);
  }

  predicate Managed(op: Op) {
    op.BeginEpoch? || op.Refresh? || op.Dispose? || op.FreezeCandidate? || op.Check? || op.BuildBundle?
  }

  /** The operations that look at the whole history under exactly what was observed. */
  method Manage(store: LocalRecordStore, op: Op, ghost v: History) returns (a: Answer, ghost w: History)
    requires Ready(store, v) && Managed(op)
    modifies store`disk, store`trace, store.ledger
    ensures Ready(store, w) && (a, w) == Step(v, op)
    ensures Spans(old(store.trace), store.trace, v, w)
  {
    var m := LookAt(store, op.env, v);
    if op.BeginEpoch? {
      a, w := BeginEpoch(store, m, op, v);
    } else if op.Refresh? {
      a, w := Refresh(store, m.p, op, v);
    } else if op.Dispose? {
      a, w := Dispose(store, m, op, v);
    } else if op.FreezeCandidate? {
      a, w := FreezeSelected(store, m, op, v);
    } else if op.Check? {
      a, w := RunChecks(store, m, op.subject, op.trials, v);
    } else {
      a, w := BuildBundle(store, m, op, v);
    }
  }

  /** Any operation, on a real store: build the machine it observes, pass the gate, commit. */
  method Serve(store: LocalRecordStore, op: Op, ghost v: History) returns (a: Answer, ghost w: History)
    requires Ready(store, v)
    modifies store`disk, store`trace, store.ledger
    ensures Ready(store, w) && (a, w) == Step(v, op)
    ensures Spans(old(store.trace), store.trace, v, w)
  {
    if Managed(op) {
      a, w := Manage(store, op, v);
    } else if op.Register? {
      if op.expected.Some? && op.expected.value != op.current {
        return Err(Refused(StaleCandidate)), v;
      }
      var m := LookAt(store, op.env, v);
      a, w := Register(store, m, op.current, op.parent, op.filesValid, op.rest, op.ticket, v);
    } else if op.Evaluate? {
      var m := LookAt(store, op.env.(authority := map[]), v);
      a, w := Evaluate(store, m, op.trials, v);
    } else if op.StartVerifier? {
      var log := ReadStructural(store, v);
      a, w := StartVerifier(store, Observe(log, VerifierEnv(op.env)), op.permitted, op.subject, op.draft, op.ticket, v);
    } else if op.FinishVerifier? {
      a, w := FinishVerifier(store, op, v);
    } else {
      a, w := Save(store, op.note.record, op.note.ticket, v);
    }
  }

  /** Whole runs on the disk: whatever operations are tried, in whatever order and whatever they observe, a store that
      started empty stands for the history of the run, which is lawful. */
  method ServeAll(store: LocalRecordStore, ops: seq<Op>) returns (ghost w: History)
    requires Ready(store, []) && forall i :: 0 <= i < |ops| ==> WellTyped(ops[i])
    modifies store`disk, store`trace, store.ledger
    ensures w == Reached(ops) && Ready(store, w) && Lawful(w)
  {
    w := [];
    for i := 0 to |ops|
      invariant Ready(store, w) && w == Reached(ops[..i])
    {
      ghost var v := w;
      var a;
      a, w := Serve(store, ops[i], v);
      assert Init(ops[..i + 1]) == ops[..i] && End(ops[..i + 1]) == ops[i];
    }
    assert ops[..|ops|] == ops;
    ReachedLawful(ops);
  }

  lemma {:induction false} PrefixSettled(w: History, n: nat)
    requires Settled(w) && n <= |w|
    ensures |Payloads(w)| == |w| && Settled(w[..n]) && Payloads(w[..n]) == Payloads(w)[..n]
  {
    if n == |w| {
      assert w[..n] == w;
      PayloadsLength(w);
    } else {
      PrefixSettled(Front(w), n);
      assert Front(w)[..n] == w[..n];
    }
  }

  lemma {:induction false} PayloadsLength(w: History)
    ensures |Payloads(w)| == |w| && Payloads(w)[..|w|] == Payloads(w)
  {
    if w != [] {
      PayloadsLength(Front(w));
    }
  }

  /** A lawful history was lawful at every earlier point. */
  lemma PrefixLawful(u: History, w: History)
    requires Lawful(w) && u <= w
    ensures Lawful(u)
  {
    PrefixSettled(w, |u|);
    assert w[..|u|] == u;
    if |u| < |w| {
      LegalStep(Payloads(w), |u|);
    } else {
      assert u == w;
    }
  }

  lemma {:induction false} Between(t0: seq<Disk>, t: seq<Disk>, k: nat, v: History, w: History) returns (u: History)
    requires Spans(t0, t, v, w) && |t0| <= k < |t|
    ensures v <= u <= w && StandsFor(t[k], u)
  {
    if k == |t| - 1 {
      u :| v <= u <= w && StandsFor(End(t), u);
    } else {
      u := Between(t0, Init(t), k, v, w);
    }
  }

  /** The process died after step `k`, if there was one; a new one recovers, however often it is interrupted. */
  method Resume(store: LocalRecordStore, k: nat, ghost t0: seq<Disk>, ghost v: History, ghost w: History)
    returns (ghost u: History)
    requires Ready(store, w) && Spans(t0, store.trace, v, w) && |t0| <= k
    modifies store, store.ledger
    ensures Ready(store, u) && v <= u <= w && (store.ledger == old(store.ledger) || fresh(store.ledger))
  {
    u := w;
    if k < |store.trace| {
      u := Between(t0, store.trace, k, v, w);
      store.Crash(k);
      RecoverAtLeisure(store, u);
      var recovered := store.Recover(u);
    }
  }

  /** An operation cut short after any of its disk steps, and recovered with recoveries cut short too, leaves a history
      it passes through on the way to its own. */
  method ServeCutShort(store: LocalRecordStore, op: Op, k: nat, ghost v: History) returns (ghost w: History)
    requires Ready(store, v)
    modifies store, store.ledger
    ensures Ready(store, w) && v <= w <= Step(v, op).1 && (store.ledger == old(store.ledger) || fresh(store.ledger))
  {
    ghost var t0 := store.trace;
    var start := |store.trace|;
    var a;
    a, w := Serve(store, op, v);
    w := Resume(store, start + k, t0, v, w);
  }

  lemma CutShortLawful(v: History, op: Op, w: History)
    requires Lawful(v) && WellTyped(op) && w <= Step(v, op).1
    ensures Lawful(w)
  {
    StepLawful(v, op);
    PrefixLawful(w, Step(v, op).1);
  }

  /** Whole runs with a death anywhere in every operation: the history that is left is lawful. */
  method ServeAllCutShort(store: LocalRecordStore, ops: seq<Op>) returns (ghost w: History)
    requires Ready(store, []) && forall i :: 0 <= i < |ops| ==> WellTyped(ops[i])
    modifies store, store.ledger
    ensures Ready(store, w) && Lawful(w)
  {
    w := [];
    for n := 0 to |ops|
      invariant Ready(store, w) && Lawful(w) && (store.ledger == old(store.ledger) || fresh(store.ledger))
    {
      var k: nat := *;
      ghost var u := w;
      w := ServeCutShort(store, ops[n], k, u);
      CutShortLawful(u, ops[n], w);
    }
  }
}
