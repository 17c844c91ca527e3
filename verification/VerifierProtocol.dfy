/** Verifier runs, crashes and recovery passes as interleaved steps of any number of processes. */
module VerifierProtocol {
  import opened Records
  import opened Readiness
  import opened Lifecycle
  import opened HashChain
  import opened StoreSpec
  import opened Runs

  type ResultRecord = r: Record | r.VerifierResult?
    witness VerifierResult("", "", "", Development, "", None, None, "", "", Unknown, 0)

  type Pid = nat

  /** Where a process stands. The first group is a verifier run, the second a recovery pass over stranded actions. */
  datatype Proc =
    | Idle
    | Snapped(action: ActionRecord, prior: Log)
    | Holding(action: ActionRecord, prior: Log)
    | Acted(action: ActionRecord, prior: Log)
    | Concluded(action: ActionRecord, prior: Log, result: ResultRecord)
    | Cleared(action: ActionRecord, result: ResultRecord)
    | Listing(actions: seq<ActionRecord>)
    | Passing(actions: seq<ActionRecord>, done: set<Id>, next: nat, busy: bool)
    | PassHolding(actions: seq<ActionRecord>, done: set<Id>, next: nat, busy: bool)
    | PassCleared(actions: seq<ActionRecord>, done: set<Id>, next: nat, busy: bool, result: ResultRecord)
    | PassDone(actions: seq<ActionRecord>, busy: bool)

  /** The ledger, the processes, the actions with a receipt binding, and the action identities ever begun. */
  datatype World = World(v: History, procs: map<Pid, Proc>, bound: set<Id>, begun: set<Id>)

  const START: World := World([], map[], {}, {})

  function LogOf(g: World): Log {
    Payloads(g.v)
  }

  function At(g: World, p: Pid): Proc {
    if p in g.procs then g.procs[p] else Idle
  }

  function Put(g: World, p: Pid, x: Proc): World {
    g.(procs := g.procs[p := x])
  }

  /** The file lock a process holds: one per action identity, under its safe file name. */
  function Held(x: Proc): Option<string> {
    match x
    case Holding(a, _) => Some(SafeName(a.id))
    case Acted(a, _) => Some(SafeName(a.id))
    case Concluded(a, _, _) => Some(SafeName(a.id))
    case Cleared(a, _) => Some(SafeName(a.id))
    case PassHolding(actions, _, next, _) => if next < |actions| then Some(SafeName(actions[next].id)) else None
    case PassCleared(actions, _, next, _, _) => if next < |actions| then Some(SafeName(actions[next].id)) else None
    case _ => None
  }

  predicate Free(g: World, lock: string) {
    forall p :: p in g.procs ==> Held(g.procs[p]) != Some(lock)
  }

  function ActionsIn(log: Log): seq<ActionRecord> {
    if log == [] then []
    else if End(log).VerifierAction? then ActionsIn(Init(log)) + [End(log)]
    else ActionsIn(Init(log))
  }

  function TerminalIds(log: Log): set<Id> {
    if log == [] then {}
    else if End(log).VerifierResult? then TerminalIds(Init(log)) + {End(log).action}
    else TerminalIds(Init(log))
  }

  predicate HasAction(log: Log, id: Id) {
    log != [] && ((End(log).VerifierAction? && End(log).id == id) || HasAction(Init(log), id))
  }

  function ResultCount(log: Log, id: Id): nat {
    if log == [] then 0
    else ResultCount(Init(log), id) + if End(log).VerifierResult? && End(log).action == id then 1 else 0
  }

  /** The conservative result of a stranded action: UNKNOWN, bound to what the action recorded. */
  function RecoveredResult(a: ActionRecord, id: Id, rest: nat): ResultRecord {
    VerifierResult(id, a.id, a.verifier, a.mode, a.candidate, a.freeze, a.inputCandidate, a.environment, a.policy,
                   Unknown, rest)
  }

  datatype Step =
    | Begin(p: Pid, action: ActionRecord)
    | Lock(p: Pid)
    | Record(p: Pid, t: Ticket)
    | Conclude(p: Pid, session: bool, result: ResultRecord)
    | Clear(p: Pid)
    | Finish(p: Pid, t: Ticket)
    | List(p: Pid)
    | Snapshot(p: Pid)
    | Try(p: Pid)
    | Reread(p: Pid, id: Id, rest: nat)
    | Terminate(p: Pid, t: Ticket)
    | Die(p: Pid)
    | Elsewhere(r: Records.Record, t: Ticket)

  /** What a run concludes: whatever its session gave, for its own action; without a session only UNKNOWN. */
  function ResultOf(a: ActionRecord, session: bool, r: ResultRecord): ResultRecord {
    if session then
      VerifierResult(r.id, a.id, r.verifier, r.mode, r.candidate, r.freeze, r.inputCandidate, r.environment, r.policy,
                     r.status, r.rest)
    else RecoveredResult(a, r.id, r.rest)
  }

  /** The record a step commits, if any. */
  function Commit(g: World, s: Step): Option<Drafted> {
    match s
    case Elsewhere(r, t) => if r.VerifierAction? || r.VerifierResult? then None else Some(Drafted(r, t))
    case Record(p, t) => if At(g, p).Holding? then Some(Drafted(At(g, p).action, t)) else None
    case Finish(p, t) => if At(g, p).Cleared? then Some(Drafted(At(g, p).result, t)) else None
    case Terminate(p, t) => if At(g, p).PassCleared? then Some(Drafted(At(g, p).result, t)) else None
    case _ => None
  }

  /** Where a step takes its process; `ok` says whether the store accepted the commit. A step that does not fit where
      the process stands leaves it there, so every sequence of steps is a run. */
  function Move(g: World, s: Step, ok: bool): Proc
    requires !s.Elsewhere?
  {
    match (s, At(g, s.p))
    case (Die(_), _) => Idle
    case (Begin(_, action), Idle) => Snapped(action, LogOf(g))
    case (Lock(_), Snapped(a, prior)) => if Free(g, SafeName(a.id)) then Holding(a, prior) else Idle
    case (Record(_, _), Holding(a, prior)) => if ok then Acted(a, prior) else Idle
    case (Conclude(_, session, r), Acted(a, prior)) =>
      if session && a.id in g.bound then Idle else Concluded(a, prior, ResultOf(a, session, r))
    case (Clear(_), Concluded(a, prior, r)) =>
      if AuthorizeTerminal(a, prior, a.id, r.candidate, r.freeze, r.mode).Ok? then Cleared(a, r) else Idle
    case (Finish(_, _), Cleared(_, _)) => Idle
    case (List(_), Idle) => Listing(ActionsIn(LogOf(g)))
    case (Snapshot(_), Listing(actions)) => Passing(actions, TerminalIds(LogOf(g)), 0, false)
    case (Try(_), Passing(actions, done, next, busy)) =>
      if next >= |actions| then PassDone(actions, busy)
      else if actions[next].id in done then Passing(actions, done, next + 1, busy)
      else if !Free(g, SafeName(actions[next].id)) then Passing(actions, done, next + 1, true)
      else PassHolding(actions, done, next, busy)
    case (Reread(_, id, rest), PassHolding(actions, done, next, busy)) =>
      if next >= |actions| then Idle
      else
        var a := actions[next];
        if AuthorizeTerminal(a, LogOf(g), a.id, a.candidate, a.freeze, a.mode).Ok?
        then PassCleared(actions, done, next, busy, RecoveredResult(a, id, rest)) else Idle
    case (Terminate(_, _), PassCleared(actions, done, next, busy, r)) =>
      if ok then Passing(actions, done + {r.action}, next + 1, busy) else Idle
    case (_, x) => x
  }

  /** One step of the world. */
  ghost function Next(g: World, s: Step): World {
    var (answer, w) := match Commit(g, s) case None => (Ok(None), g.v) case Some(d) => Stored(g.v, d.record, d.ticket);
    World(w,
          if s.Elsewhere? then g.procs else g.procs[s.p := Move(g, s, answer.Ok?)],
          if s.Conclude? && s.session && At(g, s.p).Acted? then g.bound + {At(g, s.p).action.id} else g.bound,
          if s.Begin? && At(g, s.p).Idle? then g.begun + {s.action.id} else g.begun)
  }

  ghost function Reach(steps: seq<Step>): World {
    if steps == [] then START else Next(Reach(Init(steps)), End(steps))
  }

  /* ---- What the store does to results ---- */

  lemma {:induction false} InLog(log: Log, r: Records.Record)
    requires r in log
    ensures r.VerifierResult? ==> HasResult(log, r.action)
    ensures r.VerifierAction? ==> HasAction(log, r.id)
  {
    if r in Init(log) {
      InLog(Init(log), r);
    }
  }

  lemma {:induction false} CountHas(log: Log, id: Id)
    ensures HasResult(log, id) <==> ResultCount(log, id) > 0
  {
    if log != [] {
      CountHas(Init(log), id);
    }
  }

  /** How one commit changes what the protocol reads. */
  lemma StoredReads(v: History, r: Records.Record, t: Ticket, id: Id)
    ensures var a, b := Payloads(v), Payloads(Stored(v, r, t).1);
            && (HasResult(a, id) ==> HasResult(b, id))
            && (HasAction(a, id) ==> HasAction(b, id))
            && (HasResult(b, id) ==> HasResult(a, id) || (r.VerifierResult? && r.action == id))
            && (HasAction(b, id) ==> HasAction(a, id) || (r.VerifierAction? && r.id == id))
            && ResultCount(b, id) <= ResultCount(a, id) + (if r.VerifierResult? && r.action == id then 1 else 0)
  {
    StoredGrows(v, r, t);
    assert Init(Payloads(v) + [r]) == Payloads(v);
  }

  /* ---- At most one result per action ---- */

  /** The action a process has been cleared, or will be without looking again, to add a result for. A run whose snapshot
      shows a result will be refused. */
  function Pending(x: Proc): Option<Id> {
    match x
    case Holding(a, prior) => if HasResult(prior, a.id) then None else Some(a.id)
    case Acted(a, prior) => if HasResult(prior, a.id) then None else Some(a.id)
    case Concluded(a, prior, _) => if HasResult(prior, a.id) then None else Some(a.id)
    case Cleared(a, _) => Some(a.id)
    case PassCleared(_, _, _, _, r) => Some(r.action)
    case _ => None
  }

  /** A result about to be committed belongs to the action whose lock is held. */
  predicate Bound(x: Proc) {
    match x
    case Concluded(a, _, r) => r.action == a.id
    case Cleared(a, r) => r.action == a.id
    case PassHolding(actions, _, next, _) => next < |actions|
    case PassCleared(actions, _, next, _, r) => next < |actions| && r.action == actions[next].id
    case _ => true
  }

  /** The ledger holds another action under the identity a run is about to record: the store will refuse it. */
  ghost predicate Doomed(x: Proc, log: Log) {
    x.Holding? && exists b: ActionRecord :: b in log && b.id == x.action.id && b != x.action
  }

  /** While a process may still add a result for an action there is none. */
  ghost predicate Fine(x: Proc, log: Log) {
    Bound(x) && (Pending(x).Some? ==> !HasResult(log, Pending(x).value) || Doomed(x, log))
  }

  /** No two processes hold one lock. */
  ghost predicate Apart(procs: map<Pid, Proc>) {
    forall p, q :: p in procs && q in procs && p != q && Held(procs[p]).Some? ==> Held(procs[p]) != Held(procs[q])
  }

  ghost predicate Once(log: Log) {
    forall id :: ResultCount(log, id) <= 1
  }

  ghost predicate Exclusive(g: World) {
    Apart(g.procs) && Once(LogOf(g)) && forall p :: p in g.procs ==> Fine(g.procs[p], LogOf(g))
  }

  /** A run about to be granted its lock blindly: its recorded action has a result its snapshot does not show. */
  ghost predicate Blind(g: World, p: Pid) {
    var x := At(g, p);
    && x.Snapped? && Free(g, SafeName(x.action.id))
    && x.action in LogOf(g) && HasResult(LogOf(g), x.action.id) && !HasResult(x.prior, x.action.id)
  }

  ghost predicate TimelyStep(g: World, s: Step) {
    s.Lock? ==> !Blind(g, s.p)
  }

  ghost predicate Timely(steps: seq<Step>) {
    steps == [] || (Timely(Init(steps)) && TimelyStep(Reach(Init(steps)), End(steps)))
  }

  lemma MoveApart(g: World, p: Pid, x: Proc)
    requires Apart(g.procs) && (Held(x).Some? ==> Held(x) == Held(At(g, p)) || Free(g, Held(x).value))
    ensures Apart(Put(g, p, x).procs)
  {
  }

  /** Steps that move a process and leave the ledger alone. */
  lemma MoveExclusive(g: World, p: Pid, x: Proc)
    requires Exclusive(g) && Fine(x, LogOf(g))
    requires Held(x).Some? ==> Held(x) == Held(At(g, p)) || Free(g, Held(x).value)
    ensures Exclusive(Put(g, p, x))
  {
    MoveApart(g, p, x);
  }

  /** A commit by the holder of a lock, who moves on. */
  lemma CommitExclusive(g: World, p: Pid, r: Records.Record, t: Ticket, x: Proc)
    requires Exclusive(g) && Bound(x) && (Held(x).Some? ==> Held(x) == Held(At(g, p)))
    requires r.VerifierResult? ==> Pending(At(g, p)) == Some(r.action) && Pending(x) == None && !At(g, p).Holding?
    requires !Doomed(At(g, p), LogOf(g)) || Pending(x) == None
    requires Pending(x).Some? ==> Pending(x) == Pending(At(g, p))
    ensures Exclusive(Put(g, p, x).(v := Stored(g.v, r, t).1))
  {
    var h := Put(g, p, x).(v := Stored(g.v, r, t).1);
    MoveApart(g, p, x);
    forall q | q in h.procs ensures Fine(h.procs[q], LogOf(h)) {
      StaysFine(g, p, q, h.procs[q], r, t);
    }
    assert Fine(At(g, p), LogOf(g));
    CommitOnce(g.v, r, t);
  }

  lemma CommitOnce(v: History, r: Records.Record, t: Ticket)
    requires Once(Payloads(v)) && (r.VerifierResult? ==> !HasResult(Payloads(v), r.action))
    ensures Once(Payloads(Stored(v, r, t).1))
  {
    forall id ensures ResultCount(Payloads(Stored(v, r, t).1), id) <= 1 {
      StoredReads(v, r, t, id);
      CountHas(Payloads(v), id);
    }
  }

  lemma StaysFine(g: World, p: Pid, q: Pid, y: Proc, r: Records.Record, t: Ticket)
    requires Exclusive(g) && Bound(y)
    requires r.VerifierResult? ==> Pending(At(g, p)) == Some(r.action)
    requires q != p ==> y == At(g, q)
    requires q == p && Pending(y).Some? ==>
               && Pending(y) == Pending(At(g, p)) && !r.VerifierResult?
               && (!Doomed(At(g, p), LogOf(g)) || y == At(g, p))
    ensures Fine(y, Payloads(Stored(g.v, r, t).1))
  {
    if Pending(y).Some? {
      assert Fine(At(g, q), LogOf(g)) && Fine(At(g, p), LogOf(g));
      StoredReads(g.v, r, t, Pending(y).value);
      StoredGrows(g.v, r, t);
      if Doomed(y, LogOf(g)) {
        DoomedGrows(y, g.v, r, t);
      } else if r.VerifierResult? && r.action == Pending(y).value {
        PendingHolds(y);
        PendingHolds(At(g, p));
      }
    }
  }

  lemma DoomedGrows(x: Proc, v: History, r: Records.Record, t: Ticket)
    requires Doomed(x, Payloads(v))
    ensures Doomed(x, Payloads(Stored(v, r, t).1))
  {
    StoredGrows(v, r, t);
    var b: ActionRecord :| b in Payloads(v) && b.id == x.action.id && b != x.action;
    assert b in Payloads(Stored(v, r, t).1);
  }

  /** The store refuses a second action under a used identity. */
  lemma DoomedRefused(x: Proc, v: History, t: Ticket)
    requires Settled(v) && Doomed(x, Payloads(v))
    ensures Stored(v, x.action, t).0.Err?
  {
    var b: ActionRecord :| b in Payloads(v) && b.id == x.action.id && b != x.action;
    PayloadsMember(v, b);
    var i :| 0 <= i < |v| && v[i].payload == b;
    if Refusal(RequestOf(x.action, t)).None? {
      OutcomeOnUsedPath(v, RequestOf(x.action, t), i);
    }
  }

  lemma PendingHolds(x: Proc)
    requires Pending(x).Some? && Bound(x)
    ensures Held(x) == Some(SafeName(Pending(x).value))
  {
  }

  /** A lock granted on an ended action the run knows nothing of, but not blindly, is held in vain. */
  lemma LockFine(g: World, p: Pid)
    requires At(g, p).Snapped? && Free(g, SafeName(At(g, p).action.id)) && !Blind(g, p) && AllAnswered(LogOf(g))
    ensures Fine(Holding(At(g, p).action, At(g, p).prior), LogOf(g))
  {
    var a := At(g, p).action;
    if HasResult(LogOf(g), a.id) && !HasResult(At(g, p).prior, a.id) {
      var r := ResultIn(LogOf(g), a.id);
      assert Answered(r, LogOf(g));
      var b: ActionRecord :| b in LogOf(g) && SameBindings(r, b);
      assert b.id == a.id && b != a;
    }
  }

  lemma {:induction false} ResultIn(log: Log, id: Id) returns (r: ResultRecord)
    requires HasResult(log, id)
    ensures r in log && r.action == id
  {
    if End(log).VerifierResult? && End(log).action == id {
      r := End(log);
    } else {
      r := ResultIn(Init(log), id);
    }
  }

  lemma MoveHeld(g: World, s: Step, ok: bool)
    requires !s.Elsewhere? && Commit(g, s).None?
    ensures var x := Move(g, s, ok); Held(x).Some? ==> Held(x) == Held(At(g, s.p)) || Free(g, Held(x).value)
  {
  }

  predicate Granting(g: World, s: Step) {
    s.Lock? && At(g, s.p).Snapped? && Free(g, SafeName(At(g, s.p).action.id))
  }

  /** Apart from a granted lock, a process comes to owe a result only by clearing it against the ledger as it is. */
  lemma MovePending(g: World, s: Step, ok: bool)
    requires !s.Elsewhere? && Commit(g, s).None? && !Granting(g, s)
    ensures var x, y := At(g, s.p), Move(g, s, ok);
            Pending(y).Some? ==> || (Pending(y) == Pending(x) && (y == x || (!x.Holding? && !y.Holding?)))
                                 || !HasResult(LogOf(g), Pending(y).value)
  {
  }

  /** A step that commits nothing clears only actions without a result. */
  lemma MoveFine(g: World, s: Step, ok: bool)
    requires Exclusive(g) && TimelyStep(g, s) && !s.Elsewhere? && Commit(g, s).None? && AllAnswered(LogOf(g))
    ensures Fine(Move(g, s, ok), LogOf(g))
  {
    assert Fine(At(g, s.p), LogOf(g));
    if Granting(g, s) {
      LockFine(g, s.p);
    } else {
      MoveBound(g, s, ok);
      MovePending(g, s, ok);
    }
  }

  /** A step that commits does so under the lock of what it commits. */
  lemma CommitFine(g: World, s: Step, ok: bool)
    requires Exclusive(g) && !s.Elsewhere? && Commit(g, s).Some?
    requires ok ==> !Doomed(At(g, s.p), LogOf(g))
    ensures var x, r := Move(g, s, ok), Commit(g, s).value.record;
            && Bound(x) && (Held(x).Some? ==> Held(x) == Held(At(g, s.p)))
            && (r.VerifierResult? ==>
                  Pending(At(g, s.p)) == Some(r.action) && Pending(x) == None && !At(g, s.p).Holding?)
            && (!Doomed(At(g, s.p), LogOf(g)) || Pending(x) == None)
            && (Pending(x).Some? ==> Pending(x) == Pending(At(g, s.p)))
  {
    assert Fine(At(g, s.p), LogOf(g));
  }

  lemma CommitKept(g: World, s: Step, d: Drafted)
    requires Exclusive(g) && Settled(g.v) && !s.Elsewhere? && Commit(g, s) == Some(d)
    ensures var (answer, w) := Stored(g.v, d.record, d.ticket); Exclusive(Put(g, s.p, Move(g, s, answer.Ok?)).(v := w))
  {
    var ok := Stored(g.v, d.record, d.ticket).0.Ok?;
    if Doomed(At(g, s.p), LogOf(g)) {
      assert d.record == At(g, s.p).action;
      DoomedRefused(At(g, s.p), g.v, d.ticket);
    }
    CommitFine(g, s, ok);
    CommitExclusive(g, s.p, d.record, d.ticket, Move(g, s, ok));
  }

  lemma ExclusiveKept(g: World, s: Step)
    requires Exclusive(g) && TimelyStep(g, s) && Settled(g.v) && AllAnswered(LogOf(g))
    ensures Exclusive(Next(g, s))
  {
    if s.Elsewhere? {
      if Commit(g, s).Some? {
        ElsewhereExclusive(g, s.r, s.t);
      }
    } else if Commit(g, s).Some? {
      CommitKept(g, s, Commit(g, s).value);
    } else {
      MoveHeld(g, s, true);
      MoveFine(g, s, true);
      MoveExclusive(g, s.p, Move(g, s, true));
    }
  }

  lemma {:induction false} AlwaysSettled(steps: seq<Step>)
    ensures Settled(Reach(steps).v)
  {
    if steps != [] {
      var g, s := Reach(Init(steps)), End(steps);
      AlwaysSettled(Init(steps));
      if Commit(g, s).Some? {
        OutcomeSettled(g.v, RequestOf(Commit(g, s).value.record, Commit(g, s).value.ticket));
      }
    }
  }

  lemma ElsewhereExclusive(g: World, r: Records.Record, t: Ticket)
    requires Exclusive(g) && !r.VerifierAction? && !r.VerifierResult?
    ensures Exclusive(g.(v := Stored(g.v, r, t).1))
  {
    forall q | q in g.procs ensures Fine(g.procs[q], Payloads(Stored(g.v, r, t).1)) {
      StaysFine(g, q, q, g.procs[q], r, t);
    }
    CommitOnce(g.v, r, t);
  }

  /** In every run in which no lock is granted blindly, no action gets two results. */
  lemma {:induction false} AtMostOnce(steps: seq<Step>)
    requires Timely(steps)
    ensures Exclusive(Reach(steps)) && Once(LogOf(Reach(steps)))
  {
    if steps != [] {
      AtMostOnce(Init(steps));
      AlwaysSettled(Init(steps));
      ResultsAnswerActions(Init(steps));
      ExclusiveKept(Reach(Init(steps)), End(steps));
    }
  }

  /* ---- Distinct action identities are enough ---- */

  function RunOf(x: Proc): Option<Id> {
    match x
    case Snapped(a, _) => Some(a.id)
    case Holding(a, _) => Some(a.id)
    case Acted(a, _) => Some(a.id)
    case Concluded(a, _, _) => Some(a.id)
    case Cleared(a, _) => Some(a.id)
    case _ => None
  }

  function ListOf(x: Proc): seq<ActionRecord> {
    match x
    case Listing(actions) => actions
    case Passing(actions, _, _, _) => actions
    case PassHolding(actions, _, _, _) => actions
    case PassCleared(actions, _, _, _, _) => actions
    case PassDone(actions, _) => actions
    case _ => []
  }

  ghost predicate Listed(actions: seq<ActionRecord>, log: Log) {
    forall a :: a in actions ==> a in log
  }

  /** A run's action is in the ledger exactly from its commit on; a pass lists only actions in the ledger. */
  ghost predicate Placed(x: Proc, log: Log) {
    && Bound(x) && Listed(ListOf(x), log)
    && (x.Snapped? || x.Holding? ==> !HasAction(log, x.action.id))
    && (x.Acted? || x.Concluded? || x.Cleared? ==> HasAction(log, x.action.id))
  }

  /** No two runs share an action identity, and every run's was begun. */
  ghost predicate Separate(procs: map<Pid, Proc>, begun: set<Id>) {
    && (forall p :: p in procs && RunOf(procs[p]).Some? ==> RunOf(procs[p]).value in begun)
    && (forall p, q :: p in procs && q in procs && p != q && RunOf(procs[p]).Some? ==>
          RunOf(procs[p]) != RunOf(procs[q]))
  }

  /** Actions were begun, and results have actions. */
  ghost predicate Rooted(log: Log, begun: set<Id>) {
    && (forall id :: HasAction(log, id) ==> id in begun)
    && (forall id :: HasResult(log, id) ==> HasAction(log, id))
  }

  ghost predicate Tracked(g: World) {
    Separate(g.procs, g.begun) && Rooted(LogOf(g), g.begun) && forall p :: p in g.procs ==> Placed(g.procs[p], LogOf(g))
  }

  /** The step is not a run begun under an action identity that was begun before. */
  ghost predicate DistinctStep(g: World, s: Step) {
    s.Begin? && At(g, s.p).Idle? ==> s.action.id !in g.begun
  }

  ghost predicate Distinct(steps: seq<Step>) {
    steps == [] || (Distinct(Init(steps)) && DistinctStep(Reach(Init(steps)), End(steps)))
  }

  lemma {:induction false} ActionsAreIn(log: Log)
    ensures forall a :: a in ActionsIn(log) ==> a in log && HasAction(log, a.id)
  {
    if log != [] {
      ActionsAreIn(Init(log));
    }
  }

  lemma MovePlaced(g: World, s: Step, ok: bool)
    requires Tracked(g) && !s.Elsewhere? && DistinctStep(g, s) && Commit(g, s).None?
    ensures Placed(Move(g, s, ok), LogOf(g))
  {
    assert Placed(At(g, s.p), LogOf(g));
    ActionsAreIn(LogOf(g));
    MoveLists(g, s, ok);
    MoveBound(g, s, ok);
    MoveSides(g, s, ok);
  }

  lemma MoveLists(g: World, s: Step, ok: bool)
    requires !s.Elsewhere?
    ensures var l := ListOf(Move(g, s, ok)); l == [] || l == ListOf(At(g, s.p)) || l == ActionsIn(LogOf(g))
  {
  }

  lemma MoveBound(g: World, s: Step, ok: bool)
    requires !s.Elsewhere? && Bound(At(g, s.p))
    ensures Bound(Move(g, s, ok))
  {
  }

  lemma MoveSides(g: World, s: Step, ok: bool)
    requires !s.Elsewhere? && Commit(g, s).None?
    ensures var x, y := At(g, s.p), Move(g, s, ok);
            && (y.Snapped? || y.Holding? ==> (s.Begin? && x.Idle? && y.action == s.action)
                                             || ((x.Snapped? || x.Holding?) && x.action == y.action))
            && (y.Acted? || y.Concluded? || y.Cleared? ==>
                  (x.Acted? || x.Concluded? || x.Cleared?) && x.action == y.action)
  {
  }

  /** A step keeps its process's run, drops it, or begins one. */
  lemma MoveRun(g: World, s: Step, ok: bool)
    requires !s.Elsewhere?
    ensures var run := RunOf(Move(g, s, ok));
            run == None || run == RunOf(At(g, s.p)) || (s.Begin? && At(g, s.p).Idle? && run == Some(s.action.id))
  {
  }

  lemma SeparateKept(g: World, s: Step, ok: bool)
    requires Separate(g.procs, g.begun) && DistinctStep(g, s) && !s.Elsewhere?
    ensures Separate(g.procs[s.p := Move(g, s, ok)],
                     if s.Begin? && At(g, s.p).Idle? then g.begun + {s.action.id} else g.begun)
  {
    MoveRun(g, s, ok);
  }

  lemma CommitPlaced(g: World, s: Step)
    requires Tracked(g) && !s.Elsewhere? && Commit(g, s).Some?
    ensures var d := Commit(g, s).value;
            var (answer, w) := Stored(g.v, d.record, d.ticket); Placed(Move(g, s, answer.Ok?), Payloads(w))
  {
    var x, d := At(g, s.p), Commit(g, s).value;
    var (answer, w) := Stored(g.v, d.record, d.ticket);
    assert Placed(x, LogOf(g));
    StoredGrows(g.v, d.record, d.ticket);
    CommitMoves(g, s, answer.Ok?);
    if x.Holding? && answer.Ok? {
      InLog(Payloads(w), d.record);
    }
  }

  lemma CommitMoves(g: World, s: Step, ok: bool)
    requires !s.Elsewhere? && Commit(g, s).Some?
    ensures var x, y, r := At(g, s.p), Move(g, s, ok), Commit(g, s).value.record;
            || y == Idle || (ok && x.Holding? && y == Acted(x.action, x.prior) && r == x.action)
            || (x.PassCleared? && ListOf(y) == x.actions && y.Passing?)
  {
  }

  /** Everyone else stays where the ledger expects them when a process commits its own action or a result. */
  lemma OthersPlaced(g: World, s: Step, q: Pid)
    requires Tracked(g) && Commit(g, s).Some? && q in g.procs && (s.Elsewhere? || q != s.p)
    ensures var d := Commit(g, s).value; Placed(g.procs[q], Payloads(Stored(g.v, d.record, d.ticket).1))
  {
    var x, d := g.procs[q], Commit(g, s).value;
    assert Placed(x, LogOf(g));
    StoredGrows(g.v, d.record, d.ticket);
    if RunOf(x).Some? {
      StoredReads(g.v, d.record, d.ticket, RunOf(x).value);
    }
  }

  lemma CommitRooted(g: World, s: Step)
    requires Tracked(g) && Commit(g, s).Some?
    ensures var d := Commit(g, s).value; Rooted(Payloads(Stored(g.v, d.record, d.ticket).1), g.begun)
  {
    var d := Commit(g, s).value;
    CommitHasAction(g, s);
    forall id ensures var log := Payloads(Stored(g.v, d.record, d.ticket).1);
                      (HasAction(log, id) ==> id in g.begun) && (HasResult(log, id) ==> HasAction(log, id))
    {
      StoredReads(g.v, d.record, d.ticket, id);
    }
  }

  lemma CommitHasAction(g: World, s: Step)
    requires Tracked(g) && Commit(g, s).Some?
    ensures var r := Commit(g, s).value.record;
            (r.VerifierAction? ==> r.id in g.begun) && (r.VerifierResult? ==> HasAction(LogOf(g), r.action))
  {
    if !s.Elsewhere? {
      var x := At(g, s.p);
      assert Placed(x, LogOf(g));
      if x.PassCleared? {
        assert x.actions[x.next] in ListOf(x);
        InLog(LogOf(g), x.actions[x.next]);
      }
    }
  }

  lemma TrackedKept(g: World, s: Step)
    requires Tracked(g) && DistinctStep(g, s)
    ensures Tracked(Next(g, s))
  {
    var h := Next(g, s);
    if Commit(g, s).Some? {
      CommitRooted(g, s);
      if !s.Elsewhere? {
        CommitPlaced(g, s);
        SeparateKept(g, s, Stored(g.v, Commit(g, s).value.record, Commit(g, s).value.ticket).0.Ok?);
      }
      forall q | q in g.procs && (s.Elsewhere? || q != s.p) ensures Placed(h.procs[q], LogOf(h)) {
        OthersPlaced(g, s, q);
      }
    } else if !s.Elsewhere? {
      MovePlaced(g, s, true);
      SeparateKept(g, s, true);
    }
  }

  /** Runs with distinct action identities never take a lock late, so each of their actions ends at most once. */
  lemma {:induction false} DistinctTimely(steps: seq<Step>)
    requires Distinct(steps)
    ensures Timely(steps) && Tracked(Reach(steps))
  {
    if steps != [] {
      var g, s := Reach(Init(steps)), End(steps);
      DistinctTimely(Init(steps));
      TrackedKept(g, s);
      if s.Lock? && At(g, s.p).Snapped? {
        assert Placed(At(g, s.p), LogOf(g));
      }
    }
  }

  lemma DistinctAtMostOnce(steps: seq<Step>, id: Id)
    requires Distinct(steps)
    ensures ResultCount(LogOf(Reach(steps)), id) <= 1
  {
    DistinctTimely(steps);
    AtMostOnce(steps);
  }

  /* ---- The other direction: a blind lock doubles ---- */

  /** The steps of a run from its lock to its end. */
  function RunThrough(p: Pid, session: bool, r: ResultRecord, t: Ticket, u: Ticket): seq<Step> {
    [Record(p, t), Conclude(p, session, r), Clear(p), Finish(p, u)]
  }

  ghost function NextAll(g: World, steps: seq<Step>): World
    decreases |steps|
  {
    if steps == [] then g else NextAll(Next(g, steps[0]), steps[1..])
  }

  lemma NextFour(g: World, ss: seq<Step>)
    requires |ss| == 4
    ensures NextAll(g, ss) == Next(Next(Next(Next(g, ss[0]), ss[1]), ss[2]), ss[3])
  {
    var g1 := Next(g, ss[0]);
    var g2 := Next(g1, ss[1]);
    var g3 := Next(g2, ss[2]);
    var s1, s2, s3 := ss[1..], ss[1..][1..], ss[1..][1..][1..];
    assert s1[0] == ss[1] && NextAll(g1, s1) == NextAll(g2, s2);
    assert s2[0] == ss[2] && NextAll(g2, s2) == NextAll(g3, s3);
    assert s3[0] == ss[3] && s3[1..] == [] && NextAll(g3, s3) == NextAll(Next(g3, ss[3]), []);
  }

  /** A run that holds its lock and whose old snapshot shows no result commits its result, whatever the ledger holds. */
  lemma RunsThrough(g: World, p: Pid, session: bool, r: ResultRecord, t: Ticket, u: Ticket)
    requires At(g, p).Holding? && !HasResult(At(g, p).prior, At(g, p).action.id)
    requires var a := At(g, p).action;
             && SameBindings(ResultOf(a, session, r), a) && !(session && a.id in g.bound) && Stored(g.v, a, t).0.Ok?
    ensures var a := At(g, p).action;
            NextAll(g, RunThrough(p, session, r, t, u)) ==
            World(Stored(Stored(g.v, a, t).1, ResultOf(a, session, r), u).1, g.procs[p := Idle],
                  if session then g.bound + {a.id} else g.bound, g.begun)
  {
    var x, ss := At(g, p), RunThrough(p, session, r, t, u);
    var result := ResultOf(x.action, session, r);
    NextFour(g, ss);
    var g1 := Put(g, p, Acted(x.action, x.prior)).(v := Stored(g.v, x.action, t).1);
    var bound := if session then g.bound + {x.action.id} else g.bound;
    var g2 := Put(g1, p, Concluded(x.action, x.prior, result)).(bound := bound);
    var g3 := Put(g2, p, Cleared(x.action, result));
    RecordStep(g, p, t);
    ConcludeStep(g1, p, session, r);
    ClearStep(g2, p);
    FinishStep(g3, p, u);
  }

  lemma RecordStep(g: World, p: Pid, t: Ticket)
    requires At(g, p).Holding? && Stored(g.v, At(g, p).action, t).0.Ok?
    ensures var x := At(g, p);
            Next(g, Record(p, t)) == Put(g, p, Acted(x.action, x.prior)).(v := Stored(g.v, x.action, t).1)
  {
  }

  lemma ConcludeStep(g: World, p: Pid, session: bool, r: ResultRecord)
    requires At(g, p).Acted? && !(session && At(g, p).action.id in g.bound)
    ensures var a := At(g, p).action;
            Next(g, Conclude(p, session, r)) ==
            Put(g, p, Concluded(a, At(g, p).prior, ResultOf(a, session, r)))
              .(bound := if session then g.bound + {a.id} else g.bound)
  {
  }

  lemma ClearStep(g: World, p: Pid)
    requires At(g, p).Concluded? && SameBindings(At(g, p).result, At(g, p).action)
    requires !HasResult(At(g, p).prior, At(g, p).action.id)
    ensures Next(g, Clear(p)) == Put(g, p, Cleared(At(g, p).action, At(g, p).result))
  {
  }

  lemma FinishStep(g: World, p: Pid, u: Ticket)
    requires At(g, p).Cleared?
    ensures Next(g, Finish(p, u)) == Put(g, p, Idle).(v := Stored(g.v, At(g, p).result, u).1)
  {
  }

  const SMALL: Ticket := Ticket("", "", 0, 0)

  /** A recorded action commits again unchanged. */
  lemma RecordedAgain(v: History, a: ActionRecord)
    requires Settled(v) && a in Payloads(v)
    ensures Stored(v, a, SMALL) == (Ok(Some(a)), v)
  {
    PayloadsMember(v, a);
    var i :| 0 <= i < |v| && v[i].payload == a;
    SettledFiled(v, i);
    OutcomeOnUsedPath(v, RequestOf(a, SMALL), i);
  }

  function Longest(v: History): nat {
    if v == [] then 0
    else
      var n := Longest(Front(v));
      if |Last(v).payload.id| > n then |Last(v).payload.id| else n
  }

  lemma {:induction false} LongestBounds(v: History, e: Entry)
    requires e in v
    ensures |e.payload.id| <= Longest(v)
  {
    if e in Front(v) {
      LongestBounds(Front(v), e);
    }
  }

  lemma {:induction false} SafeNameLength(id: Id)
    ensures |SafeName(id)| == |id|
  {
    if id != "" {
      SafeNameLength(id[1..]);
    }
  }

  /** There is always an identity the store has no file for. */
  lemma FreshIdentity(v: History) returns (id: Id)
    ensures ValidIdentity(id) && Filed(v, Path(KVerifierResult, SafeName(id))).None?
  {
    id := seq(Longest(v) + 3, _ => 'x');
    var p := Path(KVerifierResult, SafeName(id));
    FiledHasFile(v, p);
    if Filed(v, p).Some? {
      var e := Filed(v, p).value;
      LongestBounds(v, e);
      SafeNameLength(id);
      SafeNameLength(e.payload.id);
    }
  }

  predicate LockFree(steps: seq<Step>) {
    forall i :: 0 <= i < |steps| ==> !steps[i].Lock?
  }

  /** A run that was granted its lock blindly can end its action once more. */
  lemma BlindFinish(g: World, p: Pid) returns (more: seq<Step>)
    requires Settled(g.v) && At(g, p).Holding? && !HasResult(At(g, p).prior, At(g, p).action.id)
    requires At(g, p).action in LogOf(g) && HasResult(LogOf(g), At(g, p).action.id)
    ensures LockFree(more) && ResultCount(LogOf(NextAll(g, more)), At(g, p).action.id) >= 2
  {
    var a := At(g, p).action;
    var id := FreshIdentity(g.v);
    var r := RecoveredResult(a, id, 0);
    more := RunThrough(p, false, r, SMALL, SMALL);
    CountsAgain(g.v, r);
    FinishesAgain(g, p, r);
  }

  lemma FinishesAgain(g: World, p: Pid, r: ResultRecord)
    requires Settled(g.v) && At(g, p).Holding? && !HasResult(At(g, p).prior, At(g, p).action.id)
    requires At(g, p).action in LogOf(g) && r == RecoveredResult(At(g, p).action, r.id, r.rest)
    ensures NextAll(g, RunThrough(p, false, r, SMALL, SMALL)).v == Stored(g.v, r, SMALL).1
  {
    RecordedAgain(g.v, At(g, p).action);
    RunsThrough(g, p, false, r, SMALL, SMALL);
  }

  lemma CountsAgain(v: History, r: ResultRecord)
    requires ValidIdentity(r.id) && Filed(v, PathOf(r)).None? && HasResult(Payloads(v), r.action)
    ensures ResultCount(Payloads(Stored(v, r, SMALL).1), r.action) >= 2
  {
    StoredGrows(v, r, SMALL);
    assert Stored(v, r, SMALL).1 != v;
    CountHas(Payloads(v), r.action);
    assert Init(Payloads(v) + [r]) == Payloads(v);
  }

  lemma {:induction false} ReachAppend(steps: seq<Step>, more: seq<Step>)
    ensures Reach(steps + more) == NextAll(Reach(steps), more)
    decreases |more|
  {
    if more == [] {
      assert steps + more == steps;
    } else {
      assert Init(steps + [more[0]]) == steps;
      ReachAppend(steps + [more[0]], more[1..]);
      assert steps + [more[0]] + more[1..] == steps + more;
    }
  }

  /** A free lock is granted. */
  lemma LockGranted(g: World, p: Pid)
    requires At(g, p).Snapped? && Free(g, SafeName(At(g, p).action.id))
    ensures Next(g, Lock(p)) == Put(g, p, Holding(At(g, p).action, At(g, p).prior))
  {
  }

  /** Granting a lock blindly opens the way to a second result, with no lock granted after it. */
  lemma BlindLockDoubles(steps: seq<Step>, p: Pid) returns (more: seq<Step>)
    requires Blind(Reach(steps), p)
    ensures LockFree(more) && !Once(LogOf(Reach(steps + [Lock(p)] + more)))
  {
    var g := Reach(steps);
    var locked := steps + [Lock(p)];
    assert Init(locked) == steps;
    LockGranted(g, p);
    AlwaysSettled(steps);
    more := BlindFinish(Reach(locked), p);
    ReachAppend(locked, more);
  }

  lemma {:induction false} TimelyExtends(steps: seq<Step>, more: seq<Step>)
    requires Timely(steps) && LockFree(more)
    ensures Timely(steps + more)
    decreases |more|
  {
    if more == [] {
      assert steps + more == steps;
    } else {
      TimelyExtends(steps, Init(more));
      assert Init(steps + more) == steps + Init(more);
    }
  }

  lemma {:induction false} TimelyPrefix(steps: seq<Step>, n: nat)
    requires n <= |steps|
    ensures Timely(steps) ==> Timely(steps[..n])
    ensures Timely(steps) && n < |steps| ==> TimelyStep(Reach(steps[..n]), steps[n])
  {
    if n < |steps| {
      TimelyPrefix(Init(steps), n);
      assert Init(steps)[..n] == steps[..n];
    } else {
      assert steps[..n] == steps;
    }
  }

  /** The first blind grant of a run that has one. */
  lemma {:induction false} FirstBlind(steps: seq<Step>) returns (n: nat)
    requires !Timely(steps)
    ensures n < |steps| && steps[n].Lock? && Blind(Reach(steps[..n]), steps[n].p)
  {
    if Timely(Init(steps)) {
      n := |steps| - 1;
    } else {
      n := FirstBlind(Init(steps));
      assert Init(steps)[..n] == steps[..n];
    }
  }

  /** From every point of the run, letting its processes go on without granting another lock keeps every action at one
      result. */
  ghost predicate NeverDoubles(steps: seq<Step>) {
    forall n, more :: 0 <= n <= |steps| && LockFree(more) ==> Once(LogOf(Reach(steps[..n] + more)))
  }

  /** Exactly the blind grants do harm: a run never doubles if and only if it grants no lock blindly. */
  lemma TimelyIffNeverDoubles(steps: seq<Step>)
    ensures Timely(steps) <==> NeverDoubles(steps)
  {
    if Timely(steps) {
      forall n, more | 0 <= n <= |steps| && LockFree(more) ensures Once(LogOf(Reach(steps[..n] + more))) {
        TimelyStaysOnce(steps, n, more);
      }
    } else {
      var n, more := BlindDoubles(steps);
    }
  }

  lemma TimelyStaysOnce(steps: seq<Step>, n: nat, more: seq<Step>)
    requires Timely(steps) && n <= |steps| && LockFree(more)
    ensures Once(LogOf(Reach(steps[..n] + more)))
  {
    TimelyPrefix(steps, n);
    TimelyExtends(steps[..n], more);
    AtMostOnce(steps[..n] + more);
  }

  lemma BlindDoubles(steps: seq<Step>) returns (n: nat, more: seq<Step>)
    requires !Timely(steps)
    ensures n <= |steps| && LockFree(more) && !Once(LogOf(Reach(steps[..n] + more)))
  {
    n := FirstBlind(steps);
    more := BlindLockDoubles(steps[..n], steps[n].p);
    n := n + 1;
    assert steps[..n] == steps[..n - 1] + [Lock(steps[n - 1].p)];
  }

  /** Two runs that begin under one action identity, both before either holds the lock. */
  function Twins(a: ActionRecord, r: ResultRecord): seq<Step> {
    [Begin(0, a), Begin(1, a), Lock(0)] + RunThrough(0, true, r, SMALL, SMALL)
  }

  lemma TwinsBegin(a: ActionRecord)
    ensures Reach([Begin(0, a), Begin(1, a)]) == World([], map[0 := Snapped(a, []), 1 := Snapped(a, [])], {}, {a.id})
  {
    var s1, s2 := [Begin(0, a)], [Begin(0, a), Begin(1, a)];
    assert Init(s1) == [] && Init(s2) == s1;
    assert Reach(s1) == World([], map[0 := Snapped(a, [])], {}, {a.id});
    assert Reach(s2).procs == map[0 := Snapped(a, []), 1 := Snapped(a, [])];
  }

  lemma TwinsLock(a: ActionRecord)
    ensures var g := Reach([Begin(0, a), Begin(1, a), Lock(0)]);
            g == World([], map[0 := Holding(a, []), 1 := Snapped(a, [])], {}, {a.id})
  {
    TwinsBegin(a);
    var s3 := [Begin(0, a), Begin(1, a), Lock(0)];
    assert Init(s3) == [Begin(0, a), Begin(1, a)];
    assert Reach(s3).procs == map[0 := Holding(a, []), 1 := Snapped(a, [])];
  }

  /** An action and a result both reach an empty ledger. */
  lemma TwoStored(a: ActionRecord, r: ResultRecord)
    requires ValidIdentity(a.id) && ValidIdentity(r.id) && r.action == a.id
    ensures Stored([], a, SMALL).0.Ok?
    ensures var log := Payloads(Stored(Stored([], a, SMALL).1, r, SMALL).1); a in log && HasResult(log, a.id)
  {
    var v1 := Stored([], a, SMALL).1;
    assert v1 == [Build([], "", a)] && v1[..0] == [];
    assert Filed(v1, PathOf(r)) == Filed(v1[..0], PathOf(r)) == None;
    StoredGrows([], a, SMALL);
    StoredGrows(v1, r, SMALL);
    InLog(Payloads(Stored(v1, r, SMALL).1), r);
  }

  /** Distinct identities are needed: whatever the action and whatever answer its run gives, a second run under the same
      identity can be granted its lock blindly and end it again. */
  lemma RepeatedIdentityDoubles(a: ActionRecord, r: ResultRecord) returns (more: seq<Step>)
    requires ValidIdentity(a.id) && ValidIdentity(r.id) && SameBindings(r, a)
    ensures LockFree(more) && !Once(LogOf(Reach(Twins(a, r) + [Lock(1)] + more)))
  {
    TwinsReach(a, r);
    more := BlindLockDoubles(Twins(a, r), 1);
  }

  lemma TwinsReach(a: ActionRecord, r: ResultRecord)
    requires ValidIdentity(a.id) && ValidIdentity(r.id) && SameBindings(r, a)
    ensures Blind(Reach(Twins(a, r)), 1)
  {
    var s3 := [Begin(0, a), Begin(1, a), Lock(0)];
    TwinsLock(a);
    TwinsRun(Reach(s3), a, r);
    ReachAppend(s3, RunThrough(0, true, r, SMALL, SMALL));
  }

  lemma TwinsRun(g: World, a: ActionRecord, r: ResultRecord)
    requires ValidIdentity(a.id) && ValidIdentity(r.id) && SameBindings(r, a)
    requires g == World([], map[0 := Holding(a, []), 1 := Snapped(a, [])], {}, {a.id})
    ensures Blind(NextAll(g, RunThrough(0, true, r, SMALL, SMALL)), 1)
  {
    TwoStored(a, r);
    assert ResultOf(a, true, r) == r;
    RunsThrough(g, 0, true, r, SMALL, SMALL);
    TwinsBlind(World(Stored(Stored([], a, SMALL).1, r, SMALL).1, g.procs[0 := Idle], {a.id}, {a.id}), a);
  }

  lemma TwinsBlind(g: World, a: ActionRecord)
    requires g.procs == map[0 := Idle, 1 := Snapped(a, [])] && a in LogOf(g) && HasResult(LogOf(g), a.id)
    ensures Blind(g, 1)
  {
  }

  /* ---- Recovery passes ---- */

  ghost predicate Ended(actions: seq<ActionRecord>, n: nat, log: Log) {
    n <= |actions| && forall j :: 0 <= j < n ==> HasResult(log, actions[j].id)
  }

  /** What a pass has established so far: what it counts as done has a result, and unless a lock was busy so does every
      action it has gone past. */
  ghost predicate Swept(x: Proc, log: Log) {
    && Listed(ListOf(x), log)
    && (x.Passing? || x.PassHolding? || x.PassCleared? ==>
          && (forall id :: id in x.done ==> HasResult(log, id))
          && x.next <= |x.actions| && (!x.busy ==> Ended(x.actions, x.next, log)))
    && (x.PassHolding? ==> x.next < |x.actions|)
    && (x.PassCleared? ==>
          && x.next < |x.actions|
          && x.result == RecoveredResult(x.actions[x.next], x.result.id, x.result.rest))
    && (x.PassDone? && !x.busy ==> Ended(x.actions, |x.actions|, log))
  }

  lemma SweptGrows(x: Proc, v: History, r: Records.Record, t: Ticket)
    requires Swept(x, Payloads(v))
    ensures Swept(x, Payloads(Stored(v, r, t).1))
  {
    StoredGrows(v, r, t);
    forall id | HasResult(Payloads(v), id) ensures HasResult(Payloads(Stored(v, r, t).1), id) {
      StoredReads(v, r, t, id);
    }
  }

  lemma TerminalSnoc(log: Log, r: Records.Record)
    ensures TerminalIds(log + [r]) == if r.VerifierResult? then TerminalIds(log) + {r.action} else TerminalIds(log)
  {
    assert Init(log + [r]) == log;
  }

  lemma {:induction false} TerminalIdsHave(log: Log)
    ensures forall id :: id in TerminalIds(log) <==> HasResult(log, id)
  {
    if log != [] {
      TerminalIdsHave(Init(log));
    }
  }

  lemma MoveSwept(g: World, s: Step, ok: bool)
    requires !s.Elsewhere? && Swept(At(g, s.p), LogOf(g)) && !At(g, s.p).PassCleared?
    ensures Swept(Move(g, s, ok), LogOf(g))
  {
    var x := At(g, s.p);
    if s.List? && x.Idle? {
      ActionsAreIn(LogOf(g));
    } else if s.Snapshot? && x.Listing? {
      TerminalIdsHave(LogOf(g));
    } else if s.Try? && x.Passing? {
      TrySwept(g, s, ok);
    } else if s.Reread? && x.PassHolding? {
      assert Swept(Move(g, s, ok), LogOf(g));
    } else {
      PlainMove(g, s, ok);
    }
  }

  lemma TrySwept(g: World, s: Step, ok: bool)
    requires s.Try? && At(g, s.p).Passing? && Swept(At(g, s.p), LogOf(g))
    ensures Swept(Move(g, s, ok), LogOf(g))
  {
    var x := At(g, s.p);
    if x.next < |x.actions| && x.actions[x.next].id in x.done && !x.busy {
      assert Ended(x.actions, x.next + 1, LogOf(g));
    }
  }

  /** The other steps leave a pass where it is. */
  lemma PlainMove(g: World, s: Step, ok: bool)
    requires !s.Elsewhere? && !At(g, s.p).PassCleared?
    requires !(s.List? && At(g, s.p).Idle?) && !(s.Snapshot? && At(g, s.p).Listing?)
    requires !(s.Try? && At(g, s.p).Passing?) && !(s.Reread? && At(g, s.p).PassHolding?)
    ensures var y := Move(g, s, ok); y == At(g, s.p) || y.Idle? || RunOf(y).Some?
  {
  }

  lemma TerminateSwept(x: Proc, v: History, t: Ticket)
    requires x.PassCleared? && Swept(x, Payloads(v)) && Stored(v, x.result, t).0.Ok?
    ensures var y := Passing(x.actions, x.done + {x.result.action}, x.next + 1, x.busy);
            Swept(y, Payloads(Stored(v, x.result, t).1))
  {
    SweptGrows(x, v, x.result, t);
    StoredGrows(v, x.result, t);
    InLog(Payloads(Stored(v, x.result, t).1), x.result);
    SweepOn(x, Payloads(Stored(v, x.result, t).1));
  }

  /** From a cleared pass only termination and death lead on. */
  lemma ClearedMoves(g: World, s: Step, ok: bool)
    requires !s.Elsewhere? && At(g, s.p).PassCleared?
    ensures var x, y := At(g, s.p), Move(g, s, ok);
            if s.Terminate? then
              && Commit(g, s) == Some(Drafted(x.result, s.t))
              && y == if ok then Passing(x.actions, x.done + {x.result.action}, x.next + 1, x.busy) else Idle
            else Commit(g, s).None? && (y == x || y == Idle)
  {
  }

  lemma SweepOn(x: Proc, log: Log)
    requires x.PassCleared? && Swept(x, log) && HasResult(log, x.result.action)
    ensures Swept(Passing(x.actions, x.done + {x.result.action}, x.next + 1, x.busy), log)
  {
  }

  ghost predicate AllSwept(g: World) {
    forall p :: p in g.procs ==> Swept(g.procs[p], LogOf(g))
  }

  lemma SweptKept(g: World, s: Step)
    requires AllSwept(g)
    ensures AllSwept(Next(g, s))
  {
    var h := Next(g, s);
    forall q | q in h.procs ensures Swept(h.procs[q], LogOf(h)) {
      var d := Commit(g, s);
      if !s.Elsewhere? && q == s.p {
        assert Swept(At(g, q), LogOf(g));
        var ok := d.None? || Stored(g.v, d.value.record, d.value.ticket).0.Ok?;
        if At(g, q).PassCleared? {
          ClearedMoves(g, s, ok);
          if s.Terminate? && ok {
            TerminateSwept(At(g, q), g.v, s.t);
          }
        } else {
          MoveSwept(g, s, ok);
          if d.Some? {
            SweptGrows(Move(g, s, ok), g.v, d.value.record, d.value.ticket);
          }
        }
      } else if d.Some? {
        SweptGrows(g.procs[q], g.v, d.value.record, d.value.ticket);
      }
    }
  }

  lemma {:induction false} AlwaysSwept(steps: seq<Step>)
    ensures AllSwept(Reach(steps))
  {
    if steps != [] {
      AlwaysSwept(Init(steps));
      SweptKept(Reach(Init(steps)), End(steps));
    }
  }

  /** A pass that completes without meeting a held lock leaves exactly one result for each action it listed. */
  lemma CompletePassEndsAll(steps: seq<Step>, p: Pid, i: nat)
    requires Timely(steps)
    requires var x := At(Reach(steps), p); x.PassDone? && !x.busy && i < |x.actions|
    ensures ResultCount(LogOf(Reach(steps)), At(Reach(steps), p).actions[i].id) == 1
  {
    var g := Reach(steps);
    AlwaysSwept(steps);
    AtMostOnce(steps);
    CountHas(LogOf(g), At(g, p).actions[i].id);
  }

  /** What it lists is every action on the ledger at that moment. */
  lemma {:induction false} ListsAllActions(log: Log, a: ActionRecord)
    requires a in log
    ensures a in ActionsIn(log)
  {
    if a in Init(log) {
      ListsAllActions(Init(log), a);
    }
  }

  /** The result carries everything the action bound. */
  predicate BoundTo(r: ResultRecord, a: ActionRecord) {
    && r.action == a.id && r.verifier == a.verifier && r.mode == a.mode && r.candidate == a.candidate
    && r.freeze == a.freeze && r.inputCandidate == a.inputCandidate && r.environment == a.environment
    && r.policy == a.policy
  }

  /** Any record a pass adds, in any run at all, is UNKNOWN and bound to what a recorded action says. */
  lemma RecoveredIsUnknown(steps: seq<Step>, p: Pid, t: Ticket) returns (a: ActionRecord)
    requires At(Reach(steps), p).PassCleared?
    ensures a in LogOf(Reach(steps))
    ensures var g := Reach(steps); var r := At(g, p).result;
            && r.status == Unknown && BoundTo(r, a)
            && LogOf(Next(g, Terminate(p, t))) in {LogOf(g), LogOf(g) + [r]}
  {
    AlwaysSwept(steps);
    a := TerminateAdds(Reach(steps), p, t);
  }

  lemma TerminateAdds(g: World, p: Pid, t: Ticket) returns (a: ActionRecord)
    requires At(g, p).PassCleared? && Swept(At(g, p), LogOf(g))
    ensures a in LogOf(g)
    ensures var r := At(g, p).result;
            && r.status == Unknown && BoundTo(r, a)
            && LogOf(Next(g, Terminate(p, t))) in {LogOf(g), LogOf(g) + [r]}
  {
    var x := At(g, p);
    a := x.actions[x.next];
    assert a in ListOf(x);
    StoredGrows(g.v, x.result, t);
  }

  /* ---- Every result answers a recorded action ---- */

  predicate SameBindings(r: ResultRecord, a: ActionRecord) {
    r.action == a.id && r.candidate == a.candidate && r.freeze == a.freeze && r.mode == a.mode
  }

  ghost predicate Answered(r: ResultRecord, log: Log) {
    exists a: ActionRecord :: a in log && SameBindings(r, a)
  }

  ghost predicate AllAnswered(log: Log) {
    forall r: ResultRecord :: r in log ==> Answered(r, log)
  }

  /** A run past its commit has its action in the ledger, and once cleared a result with the action's bindings. */
  ghost predicate Attached(x: Proc, log: Log) {
    && (x.Acted? || x.Concluded? || x.Cleared? ==> x.action in log)
    && (x.Concluded? ==> x.result.action == x.action.id)
    && (x.Cleared? ==> SameBindings(x.result, x.action))
  }

  ghost predicate AllAttached(g: World) {
    AllAnswered(LogOf(g)) && forall p :: p in g.procs ==> Attached(g.procs[p], LogOf(g))
  }

  lemma MoveAttached(g: World, s: Step, ok: bool)
    requires !s.Elsewhere? && Attached(At(g, s.p), LogOf(g)) && !(s.Record? && At(g, s.p).Holding?)
    ensures Attached(Move(g, s, ok), LogOf(g))
  {
  }

  /** What a step commits as a result answers an action already there. */
  lemma CommitAnswers(g: World, s: Step)
    requires AllAttached(g) && AllSwept(g) && Commit(g, s).Some? && Commit(g, s).value.record.VerifierResult?
    ensures Answered(Commit(g, s).value.record, LogOf(g))
  {
    var x := At(g, s.p);
    assert Attached(x, LogOf(g)) && Swept(x, LogOf(g));
    if x.PassCleared? {
      assert x.actions[x.next] in ListOf(x);
      assert SameBindings(x.result, x.actions[x.next]);
    }
  }

  lemma AnsweredGrows(log: Log, r: Records.Record)
    requires AllAnswered(log) && (r.VerifierResult? ==> Answered(r, log))
    ensures AllAnswered(log + [r])
  {
    forall x: ResultRecord | x in log + [r] ensures Answered(x, log + [r]) {
      assert Answered(x, log);
      var a: ActionRecord :| a in log && SameBindings(x, a);
      assert a in log + [r];
    }
  }

  lemma AttachedKept(g: World, s: Step)
    requires AllAttached(g) && AllSwept(g)
    ensures AllAttached(Next(g, s))
  {
    var h := Next(g, s);
    var d := Commit(g, s);
    if d.Some? {
      var r := d.value.record;
      StoredGrows(g.v, r, d.value.ticket);
      if r.VerifierResult? {
        CommitAnswers(g, s);
      }
      AnsweredGrows(LogOf(g), r);
    }
    assert forall x :: x in LogOf(g) ==> x in LogOf(h);
    forall q | q in h.procs ensures Attached(h.procs[q], LogOf(h)) {
      if !s.Elsewhere? && q == s.p {
        assert Attached(At(g, q), LogOf(g));
        var ok := d.None? || Stored(g.v, d.value.record, d.value.ticket).0.Ok?;
        if s.Record? && At(g, q).Holding? {
          RecordMoves(g, s, ok);
        } else {
          MoveAttached(g, s, ok);
        }
      }
    }
  }

  lemma RecordMoves(g: World, s: Step, ok: bool)
    requires s.Record? && At(g, s.p).Holding?
    ensures Commit(g, s) == Some(Drafted(At(g, s.p).action, s.t))
    ensures Move(g, s, ok) == if ok then Acted(At(g, s.p).action, At(g, s.p).prior) else Idle
  {
  }

  /** In every run at all, every terminal result has a recorded action with its candidate, freeze and mode. */
  lemma {:induction false} ResultsAnswerActions(steps: seq<Step>)
    ensures AllAttached(Reach(steps))
  {
    if steps != [] {
      ResultsAnswerActions(Init(steps));
      AlwaysSwept(Init(steps));
      AttachedKept(Reach(Init(steps)), End(steps));
    }
  }
}
