/** The lifecycle projection over a history, and the transition gates that read it. */
module Lifecycle {
  import opened Records
  import opened Readiness

  type EpochRecord = r: Record | r.Epoch? witness Epoch("", None, map[], 0)
  type CandidateRecord = r: Record | r.Candidate? witness Candidate("", None, "", 0)
  type DispositionRecord = r: Record | r.Disposition? witness Disposition("", "", Rejected, "", Unknown, 0)
  type FreezeRecord = r: Record | r.Freeze? witness Freeze("", "", "", map[], 0)
  type ActionRecord = r: Record | r.VerifierAction?
    witness VerifierAction("", "", Development, "", None, None, "", "", 0)

  datatype Stage =
    | NoEpoch | EpochActive | CandidateRegistered | EvidenceIncomplete | CandidateReady | CandidateSelected
    | CandidateRejected | CandidateFrozen | EvaluationComplete | BundleComplete | AmbiguousHistory

  datatype Code =
    | EpochLineageConflict | EpochSuperseded | CandidateLineageConflict | CandidateDispositionConflict | FreezeConflict
    | EvidenceComparabilityLimited | ModeForbidden | EpochParentInvalid | EpochParentRequired | NoActiveEpoch
    | StaleBaseline | EpochFrozen | CandidateParentInvalid | CandidateParentRequired | WorkflowSubject
    | InvalidDisposition | CandidateAlreadyDisposed | Blocked(blocker: Blocker) | FreezeAuthorityStale
    | RejectedCandidate | FreezeNotSelected | FreezeAlreadyExists | FreezeSelectionStale | FreezePlanInvalid | NoFreeze
    | EvaluatorMismatch | FreezeDrift | NoCandidate | CandidateNotCurrent | StaleCandidate | RecordNotFound
    | ActionNotRecorded | ActionBindingMismatch | ActionAlreadyTerminated | FreezeSuperseded
    | ChangedFileInvalid | RightsUnresolved | VerifierAuthority | WorkflowCategory | NoResult | EvaluationDrift

  datatype Disposed = Undisposed | Disposed(verdict: Verdict) | DisposedTwice

  datatype Projection = Projection(
    stage: Stage, active: Option<EpochRecord>, superseded: seq<Id>, candidate: Option<CandidateRecord>,
    freshness: Freshness, lineage: seq<Id>, evidence: Evidence, disposition: Option<DispositionRecord>,
    disposed: Disposed, freeze: Option<FreezeRecord>, evaluated: bool, bundled: bool, limitations: seq<Code>)

  /* ---- Reading the history ---- */

  function Init<T>(s: seq<T>): seq<T>
    requires s != []
  {
    s[..|s| - 1]
  }

  function End<T>(s: seq<T>): T
    requires s != []
  {
    s[|s| - 1]
  }

  function LastOf<T>(s: seq<T>): Option<T> {
    if s == [] then None else Some(End(s))
  }

  function Ids(rs: seq<Record>): seq<Id> {
    if rs == [] then [] else Ids(Init(rs)) + [End(rs).id]
  }

  function Epochs(log: Log): seq<EpochRecord> {
    if log == [] then [] else if End(log).Epoch? then Epochs(Init(log)) + [End(log)] else Epochs(Init(log))
  }

  function Candidates(log: Log): seq<CandidateRecord> {
    if log == [] then [] else if End(log).Candidate? then Candidates(Init(log)) + [End(log)] else Candidates(Init(log))
  }

  function OfEpoch(cs: seq<CandidateRecord>, epoch: Id): seq<CandidateRecord> {
    if cs == [] then []
    else if End(cs).sourceEpoch == epoch then OfEpoch(Init(cs), epoch) + [End(cs)]
    else OfEpoch(Init(cs), epoch)
  }

  function DispositionsOf(log: Log, c: Id): seq<DispositionRecord> {
    if log == [] then []
    else if End(log).Disposition? && End(log).candidate == c then DispositionsOf(Init(log), c) + [End(log)]
    else DispositionsOf(Init(log), c)
  }

  function FreezesOf(log: Log, c: Id): seq<FreezeRecord> {
    if log == [] then []
    else if End(log).Freeze? && End(log).candidate == c then FreezesOf(Init(log), c) + [End(log)]
    else FreezesOf(Init(log), c)
  }

  /** The last candidate record with this identity. */
  function CandidateById(log: Log, id: Id): Option<CandidateRecord> {
    if log == [] then None
    else if End(log).Candidate? && End(log).id == id then Some(End(log))
    else CandidateById(Init(log), id)
  }

  /** Candidates by identity; a later record replaces an earlier one. */
  function Known(cs: seq<CandidateRecord>): map<Id, CandidateRecord> {
    if cs == [] then map[] else Known(Init(cs))[End(cs).id := End(cs)]
  }

  predicate WellKnown(known: map<Id, CandidateRecord>) {
    forall id :: id in known ==> known[id].id == id
  }

  lemma {:induction false} KnownWell(cs: seq<CandidateRecord>)
    ensures WellKnown(Known(cs))
  {
    if cs != [] {
      KnownWell(Init(cs));
    }
  }

  /* ---- The epoch projection ---- */

  /** One unbranched parent lineage: the first epoch has no parent, every other one names its predecessor, and no
      identity comes twice. */
  predicate EpochsCoherent(es: seq<EpochRecord>) {
    es == [] ||
    (var front := Init(es);
     && EpochsCoherent(front) && End(es).id !in Ids(front)
     && End(es).parent == (if front == [] then None else Some(End(front).id)))
  }

  method EpochProjection(log: Log) returns (active: Option<EpochRecord>, coherent: bool, superseded: seq<Id>)
    ensures active == LastOf(Epochs(log)) && coherent == EpochsCoherent(Epochs(log))
    ensures superseded == Superseded(log)
  {
    var es := Epochs(log);
    coherent := true;
    var previous: Option<Id>, known: set<Id> := None, {};
    for i := 0 to |es|
      invariant coherent == EpochsCoherent(es[..i])
      invariant previous == if i == 0 then None else Some(es[i - 1].id)
      invariant forall id :: id in known <==> id in Ids(es[..i])
    {
      var e := es[i];
      assert Init(es[..i + 1]) == es[..i] && End(es[..i + 1]) == e;
      if e.id in known {
        coherent := false;
      }
      if e.parent != previous {
        coherent := false;
      }
      known := known + {e.id};
      previous := Some(e.id);
    }
    assert es[..|es|] == es;
    active := LastOf(es);
    superseded := Superseded(log);
  }

  function Superseded(log: Log): seq<Id> {
    var es := Epochs(log);
    if es == [] then [] else Ids(Init(es))
  }

  /* ---- The candidate projection ---- */

  /** Some candidate recorded after the epoch began names another epoch. */
  predicate Straggles(log: Log, epoch: Id) {
    log != [] &&
    (|| Straggles(Init(log), epoch)
     || (End(log).Candidate? && End(log).sourceEpoch != epoch && epoch in Ids(Epochs(Init(log)))))
  }

  /** Each candidate of the epoch names its predecessor, the first none, and parents belong to the epoch. */
  predicate LineageCoherent(cs: seq<CandidateRecord>, known: map<Id, CandidateRecord>, epoch: Id) {
    cs == [] ||
    (var front, c := Init(cs), End(cs);
     && LineageCoherent(front, known, epoch) && c.parent != Some(c.id)
     && c.parent == (if front == [] then None else Some(End(front).id))
     && (c.parent.Some? ==> c.parent.value in known && known[c.parent.value].sourceEpoch == epoch))
  }

  function ParentOf(known: map<Id, CandidateRecord>, c: CandidateRecord): Option<CandidateRecord> {
    if c.parent.Some? && c.parent.value in known then Some(known[c.parent.value]) else None
  }

  /** Follow the parents, root first; the flag says the walk came back to a candidate it had seen. */
  function Walk(known: map<Id, CandidateRecord>, cursor: Option<CandidateRecord>, seen: set<Id>): (seq<Id>, bool)
    requires WellKnown(known) && (cursor.Some? ==> cursor.value.id in known)
    decreases known.Keys - seen
  {
    if cursor.None? then ([], false)
    else if cursor.value.id in seen then ([], true)
    else
      assert cursor.value.id in known.Keys - seen;
      var rest := Walk(known, ParentOf(known, cursor.value), seen + {cursor.value.id});
      (rest.0 + [cursor.value.id], rest.1)
  }

  function Reverse<T>(s: seq<T>): seq<T> {
    if s == [] then [] else [End(s)] + Reverse(Init(s))
  }

  datatype CandidateView = CandidateView(candidate: Option<CandidateRecord>, coherent: bool, freshness: Freshness,
                                         lineage: seq<Id>, limitations: seq<Code>)

  function CandidatesSeen(log: Log, active: Option<EpochRecord>, observed: Id): CandidateView {
    if active.None? then CandidateView(None, true, Unclear, [], [])
    else
      var all := Candidates(log);
      var mine := OfEpoch(all, active.value.id);
      var late := if Straggles(log, active.value.id) then [EpochSuperseded] else [];
      var coherent := LineageCoherent(mine, Known(all), active.value.id);
      var broken := if coherent then [] else [CandidateLineageConflict];
      if mine == [] then CandidateView(None, coherent, Unclear, [], late + broken)
      else
        var walk := LineageWalk(log, active.value.id);
        CandidateView(Some(End(mine)), coherent && !walk.1, if End(mine).id == observed then Current else Stale, walk.0,
                      late + broken + if walk.1 then [CandidateLineageConflict] else [])
  }

  /** The walk that starts at the newest candidate of the epoch. */
  function LineageWalk(log: Log, epoch: Id): (seq<Id>, bool)
    requires OfEpoch(Candidates(log), epoch) != []
  {
    var all := Candidates(log);
    OfEpochWithin(all, epoch);
    KnownWell(all);
    Walk(Known(all), Some(End(OfEpoch(all, epoch))), {})
  }

  lemma {:induction false} OfEpochWithin(cs: seq<CandidateRecord>, epoch: Id)
    ensures forall c :: c in OfEpoch(cs, epoch) ==> c in cs && c.sourceEpoch == epoch && c.id in Known(cs)
  {
    if cs != [] {
      OfEpochWithin(Init(cs), epoch);
    }
  }

  method CandidateProjection(log: Log, active: Option<EpochRecord>, observed: Id) returns (v: CandidateView)
    ensures v == CandidatesSeen(log, active, observed)
  {
    if active.None? {
      return CandidateView(None, true, Unclear, [], []);
    }
    var epoch, all := active.value.id, Candidates(log);
    var limitations := if Straggles(log, epoch) then [EpochSuperseded] else [];
    var mine, known := OfEpoch(all, epoch), Known(all);
    var coherent := CheckLineage(mine, known, epoch);
    if !coherent {
      limitations := limitations + [CandidateLineageConflict];
    }
    if mine == [] {
      return CandidateView(None, coherent, Unclear, [], limitations);
    }
    OfEpochWithin(all, epoch);
    KnownWell(all);
    var current := End(mine);
    var lineage, cycle := WalkParents(known, current);
    if cycle {
      coherent := false;
      limitations := limitations + [CandidateLineageConflict];
    }
    v := CandidateView(Some(current), coherent, if current.id == observed then Current else Stale, lineage,
                       limitations);
  }

  method CheckLineage(cs: seq<CandidateRecord>, known: map<Id, CandidateRecord>, epoch: Id) returns (coherent: bool)
    ensures coherent == LineageCoherent(cs, known, epoch)
  {
    coherent := true;
    var previous: Option<Id> := None;
    for i := 0 to |cs|
      invariant coherent == LineageCoherent(cs[..i], known, epoch)
      invariant previous == if i == 0 then None else Some(cs[i - 1].id)
    {
      var c := cs[i];
      assert Init(cs[..i + 1]) == cs[..i] && End(cs[..i + 1]) == c;
      if c.parent == Some(c.id) {
        coherent := false;
      }
      if c.parent != previous {
        coherent := false;
      }
      if c.parent.Some? && (c.parent.value !in known || known[c.parent.value].sourceEpoch != epoch) {
        coherent := false;
      }
      previous := Some(c.id);
    }
    assert cs[..|cs|] == cs;
  }

  /** The parent walk: a cursor, the identities seen, and the lineage collected newest first. */
  method WalkParents(known: map<Id, CandidateRecord>, current: CandidateRecord) returns (lineage: seq<Id>, cycle: bool)
    requires WellKnown(known) && current.id in known
    ensures (lineage, cycle) == Walk(known, Some(current), {})
  {
    var newest: seq<Id>, seen: set<Id>, cursor: Option<CandidateRecord> := [], {}, Some(current);
    cycle := false;
    assert Walk(known, cursor, seen).0 + Reverse(newest) == Walk(known, cursor, seen).0;
    while cursor.Some?
      invariant cursor.Some? ==> cursor.value.id in known
      invariant !cycle
      invariant Walk(known, Some(current), {}) ==
                (Walk(known, cursor, seen).0 + Reverse(newest), Walk(known, cursor, seen).1)
      decreases known.Keys - seen, cursor.Some?
    {
      var c := cursor.value;
      if c.id in seen {
        cycle := true;
        break;
      }
      assert c.id in known.Keys - seen;
      assert Init(newest + [c.id]) == newest;
      assert Walk(known, cursor, seen).0 + Reverse(newest)
          == Walk(known, ParentOf(known, c), seen + {c.id}).0 + Reverse(newest + [c.id]);
      seen := seen + {c.id};
      newest := newest + [c.id];
      cursor := ParentOf(known, c);
    }
    lineage := Reverse(newest);
    assert Walk(known, cursor, seen).0 + lineage == lineage;
  }

  /* ---- The projection ---- */

  predicate IsConflict(c: Code) {
    || c == EpochLineageConflict || c == EpochSuperseded || c == CandidateLineageConflict
    || c == CandidateDispositionConflict || c == FreezeConflict
  }

  predicate Ambiguous(limitations: seq<Code>) {
    exists i :: 0 <= i < |limitations| && IsConflict(limitations[i])
  }

  function Project(log: Log, env: Env): (p: Projection)
    ensures p.stage == AmbiguousHistory ==> p.limitations != []
  {
    var active := LastOf(Epochs(log));
    var view := CandidatesSeen(log, active, env.candidate);
    Assemble(active, Superseded(log), EpochsCoherent(Epochs(log)), view,
             EvidenceOf(log, env, view.candidate, env.required, env.policyError),
             if view.candidate.None? then [] else DispositionsOf(log, view.candidate.value.id),
             if view.candidate.None? then [] else FreezesOf(log, view.candidate.value.id),
             view.candidate.Some? && Evaluated(log, view.candidate.value.id),
             view.candidate.Some? && Bundled(log, view.candidate.value.id))
  }

  function Assemble(active: Option<EpochRecord>, superseded: seq<Id>, coherent: bool, view: CandidateView,
                    evidence: Evidence, ds: seq<DispositionRecord>, fs: seq<FreezeRecord>,
                    evaluated: bool, bundled: bool)
    : (p: Projection)
    ensures p.stage == AmbiguousHistory ==> p.limitations != []
  {
    var limitations := (if coherent then [] else [EpochLineageConflict])
                       + view.limitations
                       + (if evidence.present != {} then [EvidenceComparabilityLimited] else [])
                       + (if |ds| > 1 then [CandidateDispositionConflict] else [])
                       + (if |fs| > 1 then [FreezeConflict] else []);
    var p := Projection(
      NoEpoch, active, superseded, view.candidate, view.freshness, view.lineage, evidence,
      if |ds| == 1 then Some(ds[0]) else None,
      if |ds| > 1 then DisposedTwice else if ds == [] then Undisposed else Disposed(ds[0].verdict),
      if |fs| == 1 then Some(fs[0]) else None, evaluated, bundled, limitations);
    p.(stage := StageOf(p))
  }

  /** The stage the other parts of a projection put it in. */
  function StageOf(p: Projection): Stage {
    if Ambiguous(p.limitations) then AmbiguousHistory
    else if p.active.None? then NoEpoch
    else if p.candidate.None? then EpochActive
    else if p.bundled then BundleComplete
    else if p.evaluated then EvaluationComplete
    else if p.freeze.Some? then CandidateFrozen
    else if p.disposed == Disposed(Selected) then CandidateSelected
    else if p.disposed == Disposed(Rejected) then CandidateRejected
    else if p.evidence.ready then CandidateReady
    else if p.evidence.present != {} then EvidenceIncomplete
    else CandidateRegistered
  }

  predicate Evaluated(log: Log, c: Id) {
    log != [] && ((End(log).Evaluation? && End(log).candidate == c) || Evaluated(Init(log), c))
  }

  predicate Bundled(log: Log, c: Id) {
    log != [] && ((End(log).Bundle? && End(log).candidate == c) || Bundled(Init(log), c))
  }

  /* ---- The gates ---- */

  /** A state machine: the history it was given, what it observed, and its projection. */
  datatype Machine = Machine(log: Log, env: Env, p: Projection)

  function Observe(log: Log, env: Env): Machine {
    Machine(log, env, Project(log, env))
  }

  function RequireMode(m: Machine, mode: Mode): Result<(), Code> {
    if m.env.mode == mode then Ok(()) else Err(ModeForbidden)
  }

  /** An ambiguous history is reported by its first limitation, whichever that is; there always is one. */
  function RequireUnambiguous(m: Machine): Result<(), Code> {
    if m.p.stage == AmbiguousHistory && m.p.limitations != [] then Err(m.p.limitations[0]) else Ok(())
  }

  function RequireCandidate(m: Machine, id: Option<Id>): Result<CandidateRecord, Code> {
    if m.p.candidate.None? then Err(NoCandidate)
    else if id.Some? && m.p.candidate.value.id != id.value then
      Err(if CandidateById(m.log, id.value).Some? then CandidateNotCurrent else RecordNotFound)
    else if m.p.freshness != Current then Err(StaleCandidate)
    else Ok(m.p.candidate.value)
  }

  function AuthorizeEpochBegin(m: Machine, parent: Option<Id>): Result<(), Code> {
    var _ :- RequireMode(m, Development);
    var _ :- RequireUnambiguous(m);
    if m.p.active.None? then if parent.Some? then Err(EpochParentInvalid) else Ok(())
    else if parent.None? then Err(EpochParentRequired)
    else if parent.value in m.p.superseded then Err(EpochSuperseded)
    else if parent.value != m.p.active.value.id then Err(EpochParentInvalid)
    else Ok(())
  }

  function AuthorizeRegister(m: Machine, parent: Option<Id>, proposed: Id): Result<EpochRecord, Code> {
    var _ :- RequireMode(m, Development);
    var _ :- RequireUnambiguous(m);
    if m.p.active.None? then Err(NoActiveEpoch)
    else if m.p.active.value.authority != m.env.authority then Err(StaleBaseline)
    else if m.p.freeze.Some? then Err(EpochFrozen)
    else if m.p.candidate.None? then
      if parent.None? then Ok(m.p.active.value)
      else if CandidateById(m.log, parent.value).None? then Err(CandidateParentInvalid)
      else Err(CandidateLineageConflict)
    else if parent.None? then Err(CandidateParentRequired)
    else if parent.value == proposed then Err(CandidateParentInvalid)
    else if parent.value != m.p.candidate.value.id then
      Err(if CandidateById(m.log, parent.value).None? then CandidateParentInvalid else CandidateLineageConflict)
    else Ok(m.p.active.value)
  }

  function AuthorizeWork(m: Machine, id: Option<Id>, projectScoped: bool): Result<Option<CandidateRecord>, Code> {
    var _ :- RequireMode(m, Development);
    if projectScoped then if id.Some? then Err(WorkflowSubject) else Ok(None)
    else
      var _ :- RequireUnambiguous(m);
      if m.p.freeze.Some? then Err(EpochFrozen)
      else
        var c :- RequireCandidate(m, id);
        Ok(Some(c))
  }

  /** The requested disposition is a string; anything but the two terminal ones is refused. */
  function VerdictOf(choice: string): Option<Verdict> {
    if choice == "selected" then Some(Selected) else if choice == "rejected" then Some(Rejected) else None
  }

  function AuthorizeDisposition(m: Machine, id: Id, choice: string): Result<(CandidateRecord, Evidence), Code> {
    var _ :- RequireMode(m, Development);
    var _ :- RequireUnambiguous(m);
    if VerdictOf(choice).None? then Err(InvalidDisposition)
    else
      var c :- RequireCandidate(m, Some(id));
      if m.p.disposed != Undisposed then Err(CandidateAlreadyDisposed)
      else if choice == "selected" && BlockerOf(m.p.evidence).Some? then Err(Blocked(BlockerOf(m.p.evidence).value))
      else Ok((c, m.p.evidence))
  }

  /** What the freeze's own evidence plan still lacks; none when there is no usable plan. */
  function PlanBlocker(m: Machine, plan: Option<seq<string>>): Option<Option<Blocker>> {
    if plan.None? || plan.value == [] then None
    else Some(BlockerOf(EvidenceOf(m.log, m.env, m.p.candidate, plan.value, false)))
  }

  function AuthorizeFreeze(m: Machine, id: Id, plan: Option<seq<string>>):
    Result<(CandidateRecord, DispositionRecord), Code>
  {
    FreezeUnder(m, id, PlanBlocker(m, plan))
  }

  function FreezeUnder(m: Machine, id: Id, planned: Option<Option<Blocker>>)
    : Result<(CandidateRecord, DispositionRecord), Code>
  {
    var _ :- RequireMode(m, Development);
    var _ :- RequireUnambiguous(m);
    var c :- RequireCandidate(m, Some(id));
    if m.p.active.None? then Err(NoActiveEpoch)
    else if m.p.active.value.authority != m.env.authority then Err(FreezeAuthorityStale)
    else if m.p.disposed == Disposed(Rejected) then Err(RejectedCandidate)
    else if m.p.disposed != Disposed(Selected) || m.p.disposition.None? then Err(FreezeNotSelected)
    else if m.p.freeze.Some? then Err(FreezeAlreadyExists)
    else if BlockerOf(m.p.evidence).Some? then Err(Blocked(BlockerOf(m.p.evidence).value))
    else if m.p.disposition.value.policy != m.env.policyId then Err(FreezeSelectionStale)
    else if m.p.disposition.value.evidence != Pass then Err(FreezeSelectionStale)
    else if planned.None? then Err(FreezePlanInvalid)
    else if planned.value.Some? then Err(Blocked(planned.value.value))
    else Ok((c, m.p.disposition.value))
  }

  /** Some observed binding differs from the one the freeze recorded. */
  predicate Drifted(env: Env, f: FreezeRecord) {
    exists name :: name in env.bindings && (name !in f.bindings || f.bindings[name] != env.bindings[name])
  }

  function AuthorizeEvaluator(m: Machine, id: Option<Id>): Result<(FreezeRecord, CandidateRecord), Code> {
    var _ :- RequireMode(m, Evaluator);
    var _ :- RequireUnambiguous(m);
    if m.p.freeze.None? then Err(NoFreeze)
    else if id.Some? && id.value != m.p.freeze.value.candidate then Err(EvaluatorMismatch)
    else if Drifted(m.env, m.p.freeze.value) then Err(FreezeDrift)
    else
      var c :- RequireCandidate(m, Some(m.p.freeze.value.candidate));
      if m.p.disposed != Disposed(Selected) || m.p.disposition.None? then Err(FreezeNotSelected)
      else if m.p.freeze.value.selection != m.p.disposition.value.id then Err(FreezeSelectionStale)
      else Ok((m.p.freeze.value, c))
  }

  function AuthorizeBundle(m: Machine, id: Option<Id>): Result<CandidateRecord, Code> {
    var _ :- RequireUnambiguous(m);
    if m.env.mode == Evaluator then
      var entry :- AuthorizeEvaluator(m, id);
      Ok(entry.1)
    else RequireCandidate(m, id)
  }

  predicate HasResult(log: Log, action: Id) {
    log != [] && ((End(log).VerifierResult? && End(log).action == action) || HasResult(Init(log), action))
  }

  /** `authorize_terminal_result_for_recorded_action`: the results are whatever snapshot the caller passes. */
  function AuthorizeTerminal(action: ActionRecord, results: Log, id: Id, candidate: Id, freeze: Option<Id>, mode: Mode)
    : Result<ActionRecord, Code>
  {
    if action.id != id then Err(ActionBindingMismatch)
    else if HasResult(results, id) then Err(ActionAlreadyTerminated)
    else if action.candidate != candidate || action.freeze != freeze || action.mode != mode then
      Err(ActionBindingMismatch)
    else Ok(action)
  }
}
