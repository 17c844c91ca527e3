/** Startup recovery: settle the storage, then end the actions a lost process stranded. */
module Recovery {
  import opened Records
  import opened Readiness
  import opened Lifecycle
  import opened LedgerIndex
  import opened StoreSpec
  import opened RecordStore
  import opened Runs
  import opened Services
  import opened VerifierProtocol

  /** What other processes do meanwhile: the locks they hold when an action is tried, what they commit before that, and
      what they commit while the pass holds the action's lock, between its second read and its commit. */
  datatype Others = Others(held: nat -> set<string>, before: nat -> seq<Drafted>, during: nat -> seq<Drafted>)

  ghost predicate Foreign(r: Record, o: Others) {
    exists i: nat :: Commits(o.before(i), r) || Commits(o.during(i), r)
  }

  ghost predicate Commits(ds: seq<Drafted>, r: Record) {
    exists j :: 0 <= j < |ds| && ds[j].record == r
  }

  predicate Ends(ds: seq<Drafted>, id: Id) {
    exists j :: 0 <= j < |ds| && ds[j].record.VerifierResult? && ds[j].record.action == id
  }

  /** The other processes add no results. */
  ghost predicate Quiet(o: Others) {
    forall i: nat, id :: !Ends(o.before(i), id) && !Ends(o.during(i), id)
  }

  /** The other processes respect the locks: none ends an action whose lock the pass holds. */
  ghost predicate Respectful(base: Log, o: Others) {
    forall i: nat :: i < |ActionsIn(base)| ==> !Ends(o.during(i), ActionsIn(base)[i].id)
  }

  /** `log` is `base` grown by what others committed and by recovered results: each for an action of `base` whose lock
      was free when it was tried and which, while the locks are respected, had no result at that moment. */
  ghost predicate Recovers(base: Log, log: Log, o: Others) {
    || log == base
    || (&& log != [] && Recovers(base, Init(log), o)
        && (Foreign(End(log), o) || RecoversStep(base, Init(log), End(log), o)))
  }

  ghost predicate RecoversStep(base: Log, log: Log, r: Record, o: Others) {
    exists i: nat :: i < |ActionsIn(base)| && EndsAction(base, i, log, r, o)
  }

  ghost predicate EndsAction(base: Log, i: nat, log: Log, r: Record, o: Others)
    requires i < |ActionsIn(base)|
  {
    var a := ActionsIn(base)[i];
    && SafeName(a.id) !in o.held(i) && (Respectful(base, o) ==> !HasResult(log, a.id))
    && r.VerifierResult? && r == RecoveredResult(a, r.id, r.rest)
  }

  /** While others add no results, a pass leaves at most one result per action if there was at most one before. */
  lemma {:induction false} RecoversOnce(base: Log, log: Log, o: Others, id: Id)
    requires Recovers(base, log, o) && Quiet(o) && ResultCount(base, id) <= 1
    ensures ResultCount(log, id) <= 1
  {
    if log != base {
      RecoversOnce(base, Init(log), o, id);
      CountHas(Init(log), id);
      if Foreign(End(log), o) {
        QuietForeign(End(log), o);
      } else {
        assert Respectful(base, o);
      }
    }
  }

  lemma QuietForeign(r: Record, o: Others)
    requires Quiet(o) && Foreign(r, o)
    ensures !r.VerifierResult?
  {
    if r.VerifierResult? {
      var i := ForeignEnds(r, o);
    }
  }

  lemma ForeignEnds(r: ResultRecord, o: Others) returns (i: nat)
    requires Foreign(r, o)
    ensures Ends(o.before(i), r.action) || Ends(o.during(i), r.action)
  {
    i :| Commits(o.before(i), r) || Commits(o.during(i), r);
  }

  /** A pass had the same character at every earlier point. */
  lemma {:induction false} RecoversPrefix(base: Log, log: Log, n: nat, o: Others)
    requires Recovers(base, log, o) && |base| <= n <= |log|
    ensures Recovers(base, log[..n], o)
  {
    if n == |log| {
      assert log[..n] == log;
    } else {
      RecoversPrefix(base, Init(log), n, o);
      assert Init(log)[..n] == log[..n];
    }
  }

  lemma {:induction false} FilterActions(v: History, kinds: set<Kind>)
    requires Normal(v) && forall k :: k in kinds <==> k == KVerifierAction
    ensures ActionsIn(Payloads(Filter(v, kinds))) == ActionsIn(Payloads(v))
  {
    if v != [] {
      var front, e := Front(v), Last(v);
      var kept := Filter(front, kinds);
      FilterActions(front, kinds);
      PayloadsSnoc(kept, e);
      ResultKind(e.payload);
      ActionsSnoc(Payloads(front), e.payload);
      ActionsSnoc(Payloads(kept), e.payload);
      FilterSnoc(v, kinds);
    }
  }

  lemma ActionsSnoc(log: Log, r: Record)
    ensures ActionsIn(log + [r]) == if r.VerifierAction? then ActionsIn(log) + [r] else ActionsIn(log)
  {
    assert Init(log + [r]) == log;
  }

  lemma {:induction false} FilterResults(v: History, kinds: set<Kind>)
    requires Normal(v) && forall k :: k in kinds <==> k == KVerifierResult
    ensures TerminalIds(Payloads(Filter(v, kinds))) == TerminalIds(Payloads(v))
  {
    if v != [] {
      var front, e := Front(v), Last(v);
      var kept := Filter(front, kinds);
      FilterResults(front, kinds);
      PayloadsSnoc(kept, e);
      ResultKind(e.payload);
      TerminalSnoc(Payloads(front), e.payload);
      TerminalSnoc(Payloads(kept), e.payload);
      FilterSnoc(v, kinds);
    }
  }

  lemma ResultKind(r: Record)
    ensures KindOf(r) == KVerifierResult <==> r.VerifierResult?
    ensures KindOf(r) == KVerifierAction <==> r.VerifierAction?
  {
  }

  /** Read the results, as the pass does before its loop and again under each lock. */
  method ReadResults(store: LocalRecordStore, ghost v: History) returns (log: Log)
    requires Ready(store, v)
    modifies store.ledger
    ensures Ready(store, v) && TerminalIds(log) == TerminalIds(Payloads(v))
  {
    assert TerminalIds(Payloads(Filter(v, {KVerifierResult}))) == TerminalIds(Payloads(v)) by {
      SettledNormal(v);
      FilterResults(v, {KVerifierResult});
    }
    var entries := store.Entries(Some({KVerifierResult}), v);
    log := Payloads(entries.value);
  }

  method ReadActions(store: LocalRecordStore, ghost v: History) returns (actions: seq<ActionRecord>)
    requires Ready(store, v)
    modifies store.ledger
    ensures Ready(store, v) && actions == ActionsIn(Payloads(v))
  {
    assert ActionsIn(Payloads(Filter(v, {KVerifierAction}))) == ActionsIn(Payloads(v)) by {
      SettledNormal(v);
      FilterActions(v, {KVerifierAction});
    }
    var entries := store.Entries(Some({KVerifierAction}), v);
    actions := ActionsIn(Payloads(entries.value));
  }

  /** Other processes commit; what they do not end stays as it was. */
  method Interfere(store: LocalRecordStore, ds: seq<Drafted>, ghost id: Id, ghost o: Others, ghost base: Log,
                   ghost v: History)
    returns (ghost w: History)
    requires Ready(store, v) && Recovers(base, Payloads(v), o)
    requires forall j :: 0 <= j < |ds| ==> Foreign(ds[j].record, o)
    modifies store`disk, store`trace, store.ledger
    ensures Ready(store, w) && Spans(old(store.trace), store.trace, v, w) && Recovers(base, Payloads(w), o)
    ensures TerminalIds(Payloads(v)) <= TerminalIds(Payloads(w))
    ensures !Ends(ds, id) ==> (id in TerminalIds(Payloads(w)) <==> id in TerminalIds(Payloads(v)))
    ensures (forall x :: !Ends(ds, x)) ==> TerminalIds(Payloads(w)) == TerminalIds(Payloads(v))
  {
    w := v;
    for j := 0 to |ds|
      invariant Ready(store, w) && Spans(old(store.trace), store.trace, v, w) && Recovers(base, Payloads(w), o)
      invariant TerminalIds(Payloads(v)) <= TerminalIds(Payloads(w))
      invariant !Ends(ds, id) ==> (id in TerminalIds(Payloads(w)) <==> id in TerminalIds(Payloads(v)))
      invariant (forall x :: !Ends(ds, x)) ==> TerminalIds(Payloads(w)) == TerminalIds(Payloads(v))
    {
      ghost var t, u := store.trace, w;
      var a;
      a, w := Save(store, ds[j].record, ds[j].ticket, u);
      SpansJoin(old(store.trace), t, store.trace, v, u, w);
      ForeignStep(base, Payloads(u), ds, j, o);
    }
  }

  lemma ForeignStep(base: Log, log: Log, ds: seq<Drafted>, j: nat, o: Others)
    requires Recovers(base, log, o) && j < |ds| && Foreign(ds[j].record, o)
    ensures var r := ds[j].record;
            && Recovers(base, log + [r], o) && TerminalIds(log) <= TerminalIds(log + [r])
            && forall x :: x in TerminalIds(log + [r]) && x !in TerminalIds(log) ==> Ends(ds, x)
  {
    var r := ds[j].record;
    TerminalSnoc(log, r);
    assert Init(log + [r]) == log && End(log + [r]) == r;
  }

  /** Under an action's lock: read the results again, pass the terminal gate, commit the recovered result, while others
      commit in between. The gate refuses exactly when a result has appeared since the first read. */
  method EndOne(store: LocalRecordStore, i: nat, action: ActionRecord, result: ResultRecord, t: Ticket, o: Others,
                ghost base: Log, ghost u: History)
    returns (a: Answer, ghost w: History)
    requires Ready(store, u) && Recovers(base, Payloads(u), o) && i < |ActionsIn(base)| && ActionsIn(base)[i] == action
    requires SafeName(action.id) !in o.held(i) && result == RecoveredResult(action, result.id, result.rest)
    modifies store`disk, store`trace, store.ledger
    ensures Ready(store, w) && Spans(old(store.trace), store.trace, u, w) && Recovers(base, Payloads(w), o)
    ensures TerminalIds(Payloads(u)) <= TerminalIds(Payloads(w))
    ensures a == Err(Refused(ActionAlreadyTerminated)) <==> action.id in TerminalIds(Payloads(u))
    ensures a.Err? ==> a.error == Refused(ActionAlreadyTerminated) || Stored(w, result, t).0 == a
    ensures a.Ok? ==> action.id in TerminalIds(Payloads(w))
    ensures a.Ok? && Quiet(o) ==> TerminalIds(Payloads(w)) == TerminalIds(Payloads(u)) + {action.id}
  {
    var current := ReadResults(store, u);
    TerminalIdsHave(current);
    TerminalIdsHave(Payloads(u));
    var gate := AuthorizeTerminal(action, current, action.id, action.candidate, action.freeze, action.mode);
    if gate.Err? {
      return Err(Refused(gate.error)), u;
    }
    DuringForeign(o, i);
    w := Interfere(store, o.during(i), action.id, o, base, u);
    ghost var t1, u1 := store.trace, w;
    TerminalIdsHave(Payloads(u1));
    a, w := Save(store, result, t, u1);
    SpansJoin(old(store.trace), t1, store.trace, u, u1, w);
    EndedStep(base, u1, i, result, t, o);
  }

  lemma DuringForeign(o: Others, i: nat)
    ensures forall j :: 0 <= j < |o.during(i)| ==> Foreign(o.during(i)[j].record, o)
    ensures forall j :: 0 <= j < |o.before(i)| ==> Foreign(o.before(i)[j].record, o)
  {
    forall j | 0 <= j < |o.during(i)| ensures Foreign(o.during(i)[j].record, o) {
      assert Commits(o.during(i), o.during(i)[j].record);
    }
    forall j | 0 <= j < |o.before(i)| ensures Foreign(o.before(i)[j].record, o) {
      assert Commits(o.before(i), o.before(i)[j].record);
    }
  }

  lemma EndedStep(base: Log, u: History, i: nat, r: ResultRecord, t: Ticket, o: Others)
    requires Recovers(base, Payloads(u), o) && i < |ActionsIn(base)| && EndsAction(base, i, Payloads(u), r, o)
    ensures var w := Stored(u, r, t).1;
            && Recovers(base, Payloads(w), o) && TerminalIds(Payloads(u)) <= TerminalIds(Payloads(w))
            && (Stored(u, r, t).0.Ok? ==> TerminalIds(Payloads(w)) == TerminalIds(Payloads(u)) + {r.action})
            && (Stored(u, r, t).0.Err? ==> w == u)
  {
    var log, w := Payloads(u), Stored(u, r, t).1;
    StoredGrows(u, r, t);
    TerminalSnoc(log, r);
    assert Init(log + [r]) == log && End(log + [r]) == r;
    assert RecoversStep(base, log, r, o);
    if Stored(u, r, t).0.Ok? && w == u {
      InLog(log, r);
      TerminalIdsHave(log);
    }
  }

  /** Of the first `n` actions, each had its lock held by another process when it was tried, or has a result. */
  ghost predicate Settles(actions: seq<ActionRecord>, n: nat, o: Others, terminal: set<Id>) {
    n <= |actions| &&
    (n > 0 ==> && Settles(actions, n - 1, o, terminal)
               && (SafeName(actions[n - 1].id) in o.held(n - 1) || actions[n - 1].id in terminal))
  }

  lemma {:induction false} SettlesGrows(actions: seq<ActionRecord>, n: nat, o: Others, terminal: set<Id>, more: set<Id>)
    requires Settles(actions, n, o, terminal) && terminal <= more
    ensures Settles(actions, n, o, more)
  {
    if n > 0 {
      SettlesGrows(actions, n - 1, o, terminal, more);
    }
  }

  lemma {:induction false} SettlesAll(actions: seq<ActionRecord>, n: nat, o: Others, terminal: set<Id>)
    requires Settles(actions, n, o, terminal)
    ensures forall i: nat :: i < n ==> SafeName(actions[i].id) in o.held(i) || actions[i].id in terminal
  {
    if n > 0 {
      SettlesAll(actions, n - 1, o, terminal);
    }
  }

  /** What stops a pass at an action whose lock was free: the store refuses its result, or a result has appeared since
      the pass began. */
  ghost predicate Stops(base: Log, action: ActionRecord, held: set<string>, result: ResultRecord, t: Ticket, w: History,
                        a: Answer)
  {
    && a.Err? && SafeName(action.id) !in held && action.id !in TerminalIds(base)
    && (|| Stored(w, result, t).0 == a
        || (a.error == Refused(ActionAlreadyTerminated) && action.id in TerminalIds(Payloads(w))))
  }

  ghost predicate StopsAt(base: Log, i: nat, o: Others, ids: nat -> Id, rests: nat -> nat, tickets: nat -> Ticket,
                          w: History, a: Answer)
    requires i < |ActionsIn(base)|
  {
    var action := ActionsIn(base)[i];
    Stops(base, action, o.held(i), RecoveredResult(action, ids(i), rests(i)), tickets(i), w, a)
  }

  /** One round of the pass: skip what is known to be terminal or busy, else end it. */
  method TryOne(store: LocalRecordStore, i: nat, action: ActionRecord, result: ResultRecord, t: Ticket, o: Others,
                terminal: set<Id>, ghost base: Log, ghost v: History)
    returns (a: Answer, terminal': set<Id>, ghost w: History)
    requires Ready(store, v) && Recovers(base, Payloads(v), o) && i < |ActionsIn(base)| && ActionsIn(base)[i] == action
    requires result == RecoveredResult(action, result.id, result.rest)
    requires TerminalIds(base) <= terminal <= TerminalIds(Payloads(v))
    requires Quiet(o) ==> terminal == TerminalIds(Payloads(v))
    modifies store`disk, store`trace, store.ledger
    ensures Ready(store, w) && Spans(old(store.trace), store.trace, v, w) && Recovers(base, Payloads(w), o)
    ensures TerminalIds(Payloads(v)) <= TerminalIds(Payloads(w))
    ensures terminal <= terminal'
    ensures a.Ok? ==> && terminal' <= TerminalIds(Payloads(w)) && (Quiet(o) ==> terminal' == TerminalIds(Payloads(w)))
                      && (SafeName(action.id) in o.held(i) || action.id in TerminalIds(Payloads(w)))
    ensures a.Err? ==> Stops(base, action, o.held(i), result, t, w, a) && (a.error.Unstored? || !Quiet(o))
  {
    a, terminal' := Ok(None), terminal;
    DuringForeign(o, i);
    w := Interfere(store, o.before(i), action.id, o, base, v);
    if action.id in terminal || SafeName(action.id) in o.held(i) {
      return;
    }
    ghost var t1, u := store.trace, w;
    a, w := EndOne(store, i, action, result, t, o, base, u);
    SpansJoin(old(store.trace), t1, store.trace, v, u, w);
    terminal' := terminal + {action.id};
  }

  /** The pass over stranded actions, with other processes taking and releasing locks and committing whatever they like
      at any moment; result identities, other fields and clock readings are arbitrary. If it completes, every action
      whose lock was free has a result. It adds nothing but recovered UNKNOWN results. Only the store, or a result
      somebody else added in the meantime, can stop it. Every disk step stands for a ledger between the two. */
  method EndStranded(store: LocalRecordStore, o: Others, ids: nat -> Id, rests: nat -> nat, tickets: nat -> Ticket,
                     ghost v: History)
    returns (a: Answer, ghost w: History)
    requires Ready(store, v)
    modifies store`disk, store`trace, store.ledger
    ensures Ready(store, w) && Spans(old(store.trace), store.trace, v, w) && Recovers(Payloads(v), Payloads(w), o)
    ensures a.Ok? ==> forall i: nat :: i < |ActionsIn(Payloads(v))| ==>
                        || SafeName(ActionsIn(Payloads(v))[i].id) in o.held(i)
                        || ActionsIn(Payloads(v))[i].id in TerminalIds(Payloads(w))
    ensures a.Err? ==>
              && (a.error.Unstored? || !Quiet(o))
              && exists i: nat :: i < |ActionsIn(Payloads(v))| && StopsAt(Payloads(v), i, o, ids, rests, tickets, w, a)
  {
    var actions := ReadActions(store, v);
    DuringForeign(o, |actions|);
    w := Interfere(store, o.before(|actions|), "", o, Payloads(v), v);
    var seen := ReadResults(store, w);
    var terminal := TerminalIds(seen);
    a := Ok(None);
    for i := 0 to |actions|
      invariant Ready(store, w) && Spans(old(store.trace), store.trace, v, w) && Recovers(Payloads(v), Payloads(w), o)
      invariant a.Ok? && Settles(actions, i, o, TerminalIds(Payloads(w)))
      invariant TerminalIds(Payloads(v)) <= terminal <= TerminalIds(Payloads(w))
      invariant Quiet(o) ==> terminal == TerminalIds(Payloads(w))
    {
      var result := RecoveredResult(actions[i], ids(i), rests(i));
      ghost var t, u := store.trace, w;
      a, terminal, w := TryOne(store, i, actions[i], result, tickets(i), o, terminal, Payloads(v), u);
      SpansJoin(old(store.trace), t, store.trace, v, u, w);
      if a.Err? {
        assert StopsAt(Payloads(v), i, o, ids, rests, tickets, w, a);
        return;
      }
      SettlesGrows(actions, i, o, TerminalIds(Payloads(u)), TerminalIds(Payloads(w)));
    }
    SettlesAll(actions, |actions|, o, TerminalIds(Payloads(w)));
  }

  /** A pass cut short after any of its disk steps, and recovered with recoveries cut short too, has still added nothing
      but what others committed and recovered results. */
  method EndStrandedCutShort(store: LocalRecordStore, o: Others, ids: nat -> Id, rests: nat -> nat,
                             tickets: nat -> Ticket, k: nat, ghost v: History)
    returns (ghost w: History)
    requires Ready(store, v)
    modifies store, store.ledger
    ensures Ready(store, w) && v <= w && Recovers(Payloads(v), Payloads(w), o)
  {
    ghost var t0 := store.trace;
    var start := |store.trace|;
    var a;
    ghost var full;
    a, full := EndStranded(store, o, ids, rests, tickets, v);
    w := Resume(store, start + k, t0, v, full);
    PassPrefix(v, w, full, o);
  }

  lemma PassPrefix(v: History, w: History, full: History, o: Others)
    requires Settled(full) && v <= w <= full && Recovers(Payloads(v), Payloads(full), o)
    ensures Recovers(Payloads(v), Payloads(w), o)
  {
    PrefixSettled(full, |w|);
    PayloadsLength(v);
    assert full[..|w|] == w;
    RecoversPrefix(Payloads(v), Payloads(full), |w|, o);
  }
}
