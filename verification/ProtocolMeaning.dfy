/** Where the results on a ledger come from, and that runs and passes left alone reach their end. */
module ProtocolMeaning {
  import opened Records
  import opened Readiness
  import opened Lifecycle
  import opened StoreSpec
  import opened Runs
  import opened VerifierProtocol

  /* ---- Every result is what a session gave, or UNKNOWN ---- */

  /** At step `i` the session of a run gave this result, for the run's own action. */
  ghost predicate GivenAt(steps: seq<Step>, i: nat, r: ResultRecord)
    requires i < |steps|
  {
    && steps[i].Conclude? && steps[i].session && At(Reach(steps[..i]), steps[i].p).Acted?
    && r.action == At(Reach(steps[..i]), steps[i].p).action.id
    && r == steps[i].result.(action := r.action)
  }

  ghost predicate Given(steps: seq<Step>, r: ResultRecord) {
    exists i :: 0 <= i < |steps| && GivenAt(steps, i, r)
  }

  /** Without a session: UNKNOWN, bound to what a recorded action says. */
  ghost predicate FellBack(log: Log, r: ResultRecord) {
    r.status == Unknown && exists a: ActionRecord :: a in log && BoundTo(r, a)
  }

  ghost predicate Explained(steps: seq<Step>, log: Log, r: ResultRecord) {
    Given(steps, r) || FellBack(log, r)
  }

  ghost predicate ExplainedProc(steps: seq<Step>, log: Log, x: Proc) {
    x.Concluded? || x.Cleared? || x.PassCleared? ==> Explained(steps, log, x.result)
  }

  ghost predicate AllExplained(steps: seq<Step>, g: World) {
    && (forall r: ResultRecord :: r in LogOf(g) ==> Explained(steps, LogOf(g), r))
    && (forall p :: p in g.procs ==> ExplainedProc(steps, LogOf(g), g.procs[p]))
  }

  lemma ExplainedGrows(steps: seq<Step>, s: Step, log: Log, more: Log, r: ResultRecord)
    requires Explained(steps, log, r) && forall x :: x in log ==> x in more
    ensures Explained(steps + [s], more, r)
  {
    if Given(steps, r) {
      var i :| 0 <= i < |steps| && GivenAt(steps, i, r);
      assert (steps + [s])[..i] == steps[..i];
      assert GivenAt(steps + [s], i, r);
    } else {
      var a: ActionRecord :| a in log && BoundTo(r, a);
      assert a in more && BoundTo(r, a);
    }
  }

  lemma MoveExplained(steps: seq<Step>, s: Step, ok: bool)
    requires !s.Elsewhere?
    requires var g := Reach(steps);
             && ExplainedProc(steps, LogOf(g), At(g, s.p))
             && Attached(At(g, s.p), LogOf(g)) && Swept(At(g, s.p), LogOf(g))
    ensures ExplainedProc(steps + [s], LogOf(Reach(steps)), Move(Reach(steps), s, ok))
  {
    var g := Reach(steps);
    var x := At(g, s.p);
    if x.Concluded? || x.Cleared? || x.PassCleared? {
      ExplainedGrows(steps, s, LogOf(g), LogOf(g), x.result);
    }
    if s.Conclude? && x.Acted? {
      ConcludeExplained(steps, s);
    } else if s.Reread? && x.PassHolding? {
      RereadExplained(g, s, ok);
    } else {
      MoveKeepsResult(g, s, ok);
    }
  }

  lemma MoveKeepsResult(g: World, s: Step, ok: bool)
    requires !s.Elsewhere? && !(s.Conclude? && At(g, s.p).Acted?) && !(s.Reread? && At(g, s.p).PassHolding?)
    ensures var x, y := At(g, s.p), Move(g, s, ok);
            y.Concluded? || y.Cleared? || y.PassCleared? ==>
              (x.Concluded? || x.Cleared? || x.PassCleared?) && y.result == x.result
  {
  }

  lemma ConcludeExplained(steps: seq<Step>, s: Step)
    requires s.Conclude? && At(Reach(steps), s.p).Acted? && At(Reach(steps), s.p).action in LogOf(Reach(steps))
    ensures Explained(steps + [s], LogOf(Reach(steps)), ResultOf(At(Reach(steps), s.p).action, s.session, s.result))
  {
    var a, all := At(Reach(steps), s.p).action, steps + [s];
    var r := ResultOf(a, s.session, s.result);
    assert all[..|steps|] == steps && all[|steps|] == s;
    if s.session {
      assert GivenAt(all, |steps|, r);
    } else {
      assert BoundTo(r, a);
    }
  }

  lemma RereadExplained(g: World, s: Step, ok: bool)
    requires s.Reread? && At(g, s.p).PassHolding? && Swept(At(g, s.p), LogOf(g))
    ensures var y := Move(g, s, ok); y.PassCleared? ==> FellBack(LogOf(g), y.result)
  {
    var x := At(g, s.p);
    assert x.actions[x.next] in ListOf(x);
    assert BoundTo(RecoveredResult(x.actions[x.next], s.id, s.rest), x.actions[x.next]);
  }

  lemma NextExplained(steps: seq<Step>, s: Step)
    requires AllExplained(steps, Reach(steps)) && AllAttached(Reach(steps)) && AllSwept(Reach(steps))
    ensures AllExplained(steps + [s], Reach(steps + [s]))
  {
    assert Init(steps + [s]) == steps && End(steps + [s]) == s;
    var g, h, d := Reach(steps), Next(Reach(steps), s), Commit(Reach(steps), s);
    if d.Some? {
      StoredGrows(g.v, d.value.record, d.value.ticket);
    }
    assert forall x :: x in LogOf(g) ==> x in LogOf(h);
    forall r: ResultRecord | r in LogOf(h) ensures Explained(steps + [s], LogOf(h), r) {
      if r !in LogOf(g) {
        assert r == At(g, s.p).result && ExplainedProc(steps, LogOf(g), At(g, s.p));
      }
      ExplainedGrows(steps, s, LogOf(g), LogOf(h), r);
    }
    forall q | q in h.procs ensures ExplainedProc(steps + [s], LogOf(h), h.procs[q]) {
      ProcExplained(steps, s, q);
    }
  }

  lemma ProcExplained(steps: seq<Step>, s: Step, q: Pid)
    requires AllExplained(steps, Reach(steps)) && AllAttached(Reach(steps)) && AllSwept(Reach(steps))
    requires q in Next(Reach(steps), s).procs
    ensures var h := Next(Reach(steps), s); ExplainedProc(steps + [s], LogOf(h), h.procs[q])
  {
    var g, h, d := Reach(steps), Next(Reach(steps), s), Commit(Reach(steps), s);
    if d.Some? {
      StoredGrows(g.v, d.value.record, d.value.ticket);
    }
    assert forall x :: x in LogOf(g) ==> x in LogOf(h);
    var y := h.procs[q];
    if y.Concluded? || y.Cleared? || y.PassCleared? {
      if !s.Elsewhere? && q == s.p {
        var ok := d.None? || Stored(g.v, d.value.record, d.value.ticket).0.Ok?;
        assert Attached(At(g, q), LogOf(g)) && Swept(At(g, q), LogOf(g)) && ExplainedProc(steps, LogOf(g), At(g, q));
        MoveExplained(steps, s, ok);
        LogGrows(steps + [s], LogOf(g), LogOf(h), y.result);
      } else {
        ExplainedGrows(steps, s, LogOf(g), LogOf(h), y.result);
      }
    }
  }

  lemma LogGrows(steps: seq<Step>, log: Log, more: Log, r: ResultRecord)
    requires Explained(steps, log, r) && forall x :: x in log ==> x in more
    ensures Explained(steps, more, r)
  {
    if !Given(steps, r) {
      var a: ActionRecord :| a in log && BoundTo(r, a);
      assert a in more && BoundTo(r, a);
    }
  }

  /** In every run at all, every result on the ledger carries the status and the fields its session gave for that very
      action, or is UNKNOWN and bound to what a recorded action says. */
  lemma {:induction false} ResultsExplained(steps: seq<Step>)
    ensures AllExplained(steps, Reach(steps))
  {
    if steps != [] {
      ResultsExplained(Init(steps));
      ExplainedStep(steps);
    }
  }

  lemma ExplainedStep(steps: seq<Step>)
    requires steps != [] && AllExplained(Init(steps), Reach(Init(steps)))
    ensures AllExplained(steps, Reach(steps))
  {
    var front := Init(steps);
    ResultsAnswerActions(front);
    AlwaysSwept(front);
    NextExplained(front, End(steps));
    assert front + [End(steps)] == steps;
  }

  /* ---- A run decides on the snapshot it took when it began ---- */

  /** At step `i` the process began a run of this action. */
  ghost predicate BegunAt(steps: seq<Step>, i: nat, p: Pid, a: ActionRecord)
    requires i < |steps|
  {
    steps[i] == Begin(p, a) && At(Reach(steps[..i]), p).Idle?
  }

  /** The snapshot a run holds is the ledger as it was when the run began. */
  ghost predicate TookSnapshot(steps: seq<Step>, p: Pid, a: ActionRecord, prior: Log) {
    exists i :: 0 <= i < |steps| && BegunAt(steps, i, p, a) && prior == LogOf(Reach(steps[..i]))
  }

  ghost predicate Remembers(steps: seq<Step>, p: Pid, x: Proc) {
    && (x.Snapped? || x.Holding? || x.Acted? || x.Concluded? ==> TookSnapshot(steps, p, x.action, x.prior))
    && (x.Cleared? ==> exists prior :: TookSnapshot(steps, p, x.action, prior) && !HasResult(prior, x.action.id))
  }

  lemma SnapshotLater(steps: seq<Step>, s: Step, p: Pid, a: ActionRecord, prior: Log)
    requires TookSnapshot(steps, p, a, prior)
    ensures TookSnapshot(steps + [s], p, a, prior)
  {
    var i :| 0 <= i < |steps| && BegunAt(steps, i, p, a) && prior == LogOf(Reach(steps[..i]));
    assert (steps + [s])[..i] == steps[..i];
    assert BegunAt(steps + [s], i, p, a);
  }

  lemma RemembersLater(steps: seq<Step>, s: Step, p: Pid, x: Proc)
    requires Remembers(steps, p, x)
    ensures Remembers(steps + [s], p, x)
  {
    if x.Snapped? || x.Holding? || x.Acted? || x.Concluded? {
      SnapshotLater(steps, s, p, x.action, x.prior);
    } else if x.Cleared? {
      var prior :| TookSnapshot(steps, p, x.action, prior) && !HasResult(prior, x.action.id);
      SnapshotLater(steps, s, p, x.action, prior);
    }
  }

  /** How a step carries the snapshot along. */
  lemma MoveSnapshot(g: World, s: Step, ok: bool)
    requires !s.Elsewhere?
    ensures var x, y := At(g, s.p), Move(g, s, ok);
            && (y.Snapped? || y.Holding? || y.Acted? || y.Concluded? ==>
                  || (s.Begin? && x.Idle? && y == Snapped(s.action, LogOf(g)))
                  || (&& (x.Snapped? || x.Holding? || x.Acted? || x.Concluded?)
                      && y.action == x.action && y.prior == x.prior))
            && (y.Cleared? ==> y == x || (x.Concluded? && y.action == x.action && !HasResult(x.prior, x.action.id)))
  {
  }

  lemma MoveRemembers(steps: seq<Step>, s: Step, ok: bool)
    requires !s.Elsewhere? && Remembers(steps, s.p, At(Reach(steps), s.p))
    ensures Remembers(steps + [s], s.p, Move(Reach(steps), s, ok))
  {
    var g, all := Reach(steps), steps + [s];
    var x, y := At(g, s.p), Move(g, s, ok);
    MoveSnapshot(g, s, ok);
    RemembersLater(steps, s, s.p, x);
    if s.Begin? && x.Idle? {
      assert all[..|steps|] == steps && BegunAt(all, |steps|, s.p, s.action);
    }
  }

  /** In every run at all, a verifier run holds the ledger as it was when it began, and is cleared to add its result
      only if that ledger showed none for its action. */
  lemma {:induction false} RunsRemember(steps: seq<Step>, p: Pid)
    ensures Remembers(steps, p, At(Reach(steps), p))
  {
    if steps != [] {
      var front, s := Init(steps), End(steps);
      RunsRemember(front, p);
      assert front + [s] == steps;
      if !s.Elsewhere? && s.p == p {
        var d := Commit(Reach(front), s);
        MoveRemembers(front, s, d.None? || Stored(Reach(front).v, d.value.record, d.value.ticket).0.Ok?);
      } else {
        RemembersLater(front, s, p, At(Reach(front), p));
      }
    }
  }

  /* ---- One session per action ---- */

  /** At step `i` a run with a session concluded. */
  ghost predicate SessionAt(steps: seq<Step>, i: nat, id: Id)
    requires i < |steps|
  {
    && steps[i].Conclude? && steps[i].session
    && At(Reach(steps[..i]), steps[i].p).Acted? && At(Reach(steps[..i]), steps[i].p).action.id == id
  }

  lemma {:induction false} BoundGrows(steps: seq<Step>, n: nat)
    requires n <= |steps|
    ensures Reach(steps[..n]).bound <= Reach(steps).bound
  {
    if n == |steps| {
      assert steps[..n] == steps;
    } else {
      BoundGrows(Init(steps), n);
      assert Init(steps)[..n] == steps[..n];
    }
  }

  /** In every run at all, once a session concluded for an action, a run whose session concludes for it again stops
      there and commits nothing. */
  lemma SessionOnce(steps: seq<Step>, i: nat, j: nat, id: Id)
    requires i < j < |steps| && SessionAt(steps, i, id) && SessionAt(steps, j, id)
    ensures At(Reach(steps[..j + 1]), steps[j].p).Idle? && Reach(steps[..j + 1]).v == Reach(steps[..j]).v
  {
    var a, b := steps[..i + 1], steps[..j];
    assert Init(a) == steps[..i] && End(a) == steps[i];
    assert id in Reach(a).bound;
    BoundGrows(b, i + 1);
    assert b[..i + 1] == a;
    assert Init(steps[..j + 1]) == b && End(steps[..j + 1]) == steps[j];
  }

  /* ---- Left alone, a run ends and a pass completes ---- */

  /** A run left alone whose action has no result ends it with what its session gave. */
  lemma RunAlone(g: World, p: Pid, a: ActionRecord, r: ResultRecord, t: Ticket, u: Ticket)
    requires At(g, p).Idle? && Free(g, SafeName(a.id)) && !HasResult(LogOf(g), a.id) && a.id !in g.bound
    requires SameBindings(r, a) && Stored(g.v, a, t).0.Ok?
    ensures NextAll(g, [Begin(p, a), Lock(p)] + RunThrough(p, true, r, t, u)).v == Stored(Stored(g.v, a, t).1, r, u).1
  {
    var ss := [Begin(p, a), Lock(p)] + RunThrough(p, true, r, t, u);
    var g1 := Next(g, Begin(p, a));
    assert g1 == Put(g, p, Snapped(a, LogOf(g))).(begun := g.begun + {a.id});
    assert Free(g1, SafeName(a.id));
    LockGranted(g1, p);
    var g2 := Next(g1, Lock(p));
    assert ss == [Begin(p, a)] + ([Lock(p)] + RunThrough(p, true, r, t, u));
    Then(g, Begin(p, a), [Lock(p)] + RunThrough(p, true, r, t, u));
    Then(g1, Lock(p), RunThrough(p, true, r, t, u));
    assert ResultOf(a, true, r) == r;
    RunsThrough(g2, p, true, r, t, u);
  }

  ghost predicate NoLocks(g: World) {
    forall q :: q in g.procs ==> Held(g.procs[q]).None?
  }

  ghost predicate ByAlone(steps: seq<Step>, p: Pid) {
    forall i :: 0 <= i < |steps| ==> !steps[i].Elsewhere? && steps[i].p == p
  }

  /** One action ended: tried, read again under its lock, and given a result. */
  lemma EndsNext(g: World, p: Pid, r: ResultRecord)
    requires var x := At(g, p);
             && x.Passing? && x.next < |x.actions| && x.actions[x.next].id !in x.done
             && x.done == TerminalIds(LogOf(g)) && r == RecoveredResult(x.actions[x.next], r.id, r.rest)
    requires NoLocks(g) && Stored(g.v, r, SMALL).0.Ok?
    ensures var x := At(g, p);
            Next(Next(Next(g, Try(p)), Reread(p, r.id, r.rest)), Terminate(p, SMALL)) ==
            Put(g, p, Passing(x.actions, x.done + {r.action}, x.next + 1, x.busy)).(v := Stored(g.v, r, SMALL).1)
  {
    var x := At(g, p);
    TerminalIdsHave(LogOf(g));
    var g1 := Put(g, p, PassHolding(x.actions, x.done, x.next, x.busy));
    assert Next(g, Try(p)) == g1;
    var g2 := Put(g, p, PassCleared(x.actions, x.done, x.next, x.busy, r));
    RereadStep(g1, p, r);
    assert Next(g1, Reread(p, r.id, r.rest)) == g2;
    TerminateStep(g2, p);
  }

  lemma RereadStep(g: World, p: Pid, r: ResultRecord)
    requires var x := At(g, p);
             && x.PassHolding? && x.next < |x.actions| && r == RecoveredResult(x.actions[x.next], r.id, r.rest)
             && !HasResult(LogOf(g), x.actions[x.next].id)
    ensures var x := At(g, p);
            Next(g, Reread(p, r.id, r.rest)) == Put(g, p, PassCleared(x.actions, x.done, x.next, x.busy, r))
  {
  }

  lemma TerminateStep(g: World, p: Pid)
    requires At(g, p).PassCleared? && Stored(g.v, At(g, p).result, SMALL).0.Ok?
    ensures var x := At(g, p);
            Next(g, Terminate(p, SMALL)) ==
            Put(g, p, Passing(x.actions, x.done + {x.result.action}, x.next + 1, x.busy))
              .(v := Stored(g.v, x.result, SMALL).1)
  {
  }

  /** A result under an identity the store has no file for is stored. */
  lemma FreshStored(v: History, r: ResultRecord)
    requires ValidIdentity(r.id) && Filed(v, PathOf(r)).None?
    ensures Stored(v, r, SMALL).0.Ok?
    ensures TerminalIds(Payloads(Stored(v, r, SMALL).1)) == TerminalIds(Payloads(v)) + {r.action}
  {
    StoredGrows(v, r, SMALL);
    assert Stored(v, r, SMALL).1 != v;
    TerminalSnoc(Payloads(v), r);
  }

  /** The identities of the actions from a position on. */
  function IdsFrom(actions: seq<ActionRecord>, next: nat): set<Id>
    decreases |actions| - next
  {
    if next >= |actions| then {} else {actions[next].id} + IdsFrom(actions, next + 1)
  }

  lemma {:induction false} InIdsFrom(actions: seq<ActionRecord>, next: nat, j: nat)
    requires next <= j < |actions|
    ensures actions[j].id in IdsFrom(actions, next)
    decreases |actions| - next
  {
    if next < j {
      InIdsFrom(actions, next + 1, j);
    }
  }

  lemma RoundEnds(g: World, p: Pid, r: ResultRecord, x: Proc)
    requires At(g, p) == x && x.Passing? && x.next < |x.actions| && x.actions[x.next].id !in x.done
    requires x.done == TerminalIds(LogOf(g)) && r == RecoveredResult(x.actions[x.next], r.id, r.rest)
    requires NoLocks(g) && Stored(g.v, r, SMALL).0.Ok?
    ensures NextAll(g, [Try(p), Reread(p, r.id, r.rest), Terminate(p, SMALL)]) ==
            Put(g, p, Passing(x.actions, x.done + {r.action}, x.next + 1, x.busy)).(v := Stored(g.v, r, SMALL).1)
  {
    EndsNext(g, p, r);
    ThreeThen(g, Try(p), Reread(p, r.id, r.rest), Terminate(p, SMALL), []);
    assert [Try(p), Reread(p, r.id, r.rest), Terminate(p, SMALL)] + []
        == [Try(p), Reread(p, r.id, r.rest), Terminate(p, SMALL)];
  }

  /** One round of a pass with no lock held, through an action it ends itself. */
  lemma PassEnds(g: World, p: Pid, x: Proc) returns (round: seq<Step>, w: History)
    requires At(g, p) == x && x.Passing? && x.next < |x.actions| && x.actions[x.next].id !in x.done
    requires NoLocks(g) && x.done == TerminalIds(LogOf(g))
    ensures var id := x.actions[x.next].id;
            && ByAlone(round, p) && TerminalIds(Payloads(w)) == x.done + {id}
            && NextAll(g, round) == Put(g, p, Passing(x.actions, x.done + {id}, x.next + 1, x.busy)).(v := w)
  {
    var id := FreshIdentity(g.v);
    var r := RecoveredResult(x.actions[x.next], id, 0);
    FreshStored(g.v, r);
    RoundEnds(g, p, r, x);
    round := [Try(p), Reread(p, id, 0), Terminate(p, SMALL)];
    w := Stored(g.v, r, SMALL).1;
  }

  /** One round, past an action that has a result. */
  lemma PassSkips(g: World, p: Pid, x: Proc)
    requires At(g, p) == x && x.Passing? && x.next < |x.actions| && x.actions[x.next].id in x.done
    ensures NextAll(g, [Try(p)]) == Put(g, p, Passing(x.actions, x.done, x.next + 1, x.busy))
  {
    Then(g, Try(p), []);
    assert [Try(p)] + [] == [Try(p)];
    assert Next(g, Try(p)) == Put(g, p, Passing(x.actions, x.done, x.next + 1, x.busy));
  }

  /** One round of a pass with no lock held. */
  lemma PassRound(g: World, p: Pid, x: Proc) returns (round: seq<Step>, h: World)
    requires At(g, p) == x && x.Passing? && x.next < |x.actions| && NoLocks(g) && x.done == TerminalIds(LogOf(g))
    ensures ByAlone(round, p) && NextAll(g, round) == h && NoLocks(h)
    ensures At(h, p) == Passing(x.actions, x.done + {x.actions[x.next].id}, x.next + 1, x.busy)
    ensures TerminalIds(LogOf(h)) == x.done + {x.actions[x.next].id}
  {
    var id := x.actions[x.next].id;
    var y := Passing(x.actions, x.done + {id}, x.next + 1, x.busy);
    var w := g.v;
    if id in x.done {
      PassSkips(g, p, x);
      assert x.done + {id} == x.done;
      round := [Try(p)];
    } else {
      round, w := PassEnds(g, p, x);
    }
    h := Put(g, p, y).(v := w);
  }

  lemma PassStops(g: World, p: Pid, x: Proc)
    requires At(g, p) == x && x.Passing? && x.next == |x.actions|
    ensures NextAll(g, [Try(p)]) == Put(g, p, PassDone(x.actions, x.busy))
  {
    Then(g, Try(p), []);
    assert [Try(p)] + [] == [Try(p)];
    assert Next(g, Try(p)) == Put(g, p, PassDone(x.actions, x.busy));
  }

  lemma {:induction false} PassGoesOn(g: World, p: Pid, x: Proc) returns (more: seq<Step>, e: World)
    requires At(g, p) == x && x.Passing? && x.next <= |x.actions| && !x.busy
    requires NoLocks(g) && x.done == TerminalIds(LogOf(g))
    ensures ByAlone(more, p) && NextAll(g, more) == e && At(e, p) == PassDone(x.actions, false)
    ensures x.done + IdsFrom(x.actions, x.next) <= TerminalIds(LogOf(e))
    decreases |x.actions| - x.next
  {
    if x.next == |x.actions| {
      more, e := [Try(p)], Put(g, p, PassDone(x.actions, x.busy));
      PassStops(g, p, x);
    } else {
      var round, h := PassRound(g, p, x);
      var rest;
      rest, e := PassGoesOn(h, p, At(h, p));
      more := round + rest;
      NextJoin(g, round, rest);
    }
  }

  lemma PassStarts(g: World, p: Pid, rest: seq<Step>)
    requires At(g, p).Idle?
    ensures var h := Put(g, p, Passing(ActionsIn(LogOf(g)), TerminalIds(LogOf(g)), 0, false));
            NextAll(g, [List(p), Snapshot(p)] + rest) == NextAll(h, rest)
  {
    var g1 := Put(g, p, Listing(ActionsIn(LogOf(g))));
    assert Next(g, List(p)) == g1;
    assert Next(g1, Snapshot(p)) == Put(g, p, Passing(ActionsIn(LogOf(g)), TerminalIds(LogOf(g)), 0, false));
    assert [List(p), Snapshot(p)] + rest == [List(p)] + ([Snapshot(p)] + rest);
    Then(g, List(p), [Snapshot(p)] + rest);
    Then(g1, Snapshot(p), rest);
  }

  lemma Then(g: World, s: Step, rest: seq<Step>)
    ensures NextAll(g, [s] + rest) == NextAll(Next(g, s), rest)
  {
    assert ([s] + rest)[1..] == rest;
  }

  lemma {:induction false} NextJoin(g: World, a: seq<Step>, b: seq<Step>)
    ensures NextAll(g, a + b) == NextAll(NextAll(g, a), b)
    decreases |a|
  {
    if a == [] {
      assert a + b == b;
    } else {
      assert (a + b)[1..] == a[1..] + b;
      NextJoin(Next(g, a[0]), a[1..], b);
    }
  }

  lemma ThreeThen(g: World, s1: Step, s2: Step, s3: Step, rest: seq<Step>)
    ensures NextAll(g, [s1, s2, s3] + rest) == NextAll(Next(Next(Next(g, s1), s2), s3), rest)
  {
    Then(g, s1, [s2, s3] + rest);
    Then(Next(g, s1), s2, [s3] + rest);
    Then(Next(Next(g, s1), s2), s3, rest);
    assert [s1] + ([s2, s3] + rest) == [s1, s2, s3] + rest && [s2] + ([s3] + rest) == [s2, s3] + rest;
  }

  lemma AllEnded(log: Log, later: Log)
    requires IdsFrom(ActionsIn(log), 0) <= TerminalIds(later)
    ensures forall a: ActionRecord :: a in log ==> HasResult(later, a.id)
  {
    TerminalIdsHave(later);
    forall a: ActionRecord | a in log ensures HasResult(later, a.id) {
      ListsAllActions(log, a);
      var j :| 0 <= j < |ActionsIn(log)| && ActionsIn(log)[j] == a;
      InIdsFrom(ActionsIn(log), 0, j);
    }
  }

  /** A pass left alone with no lock held completes, meets nothing busy, and leaves a result for every action. */
  lemma PassAlone(g: World, p: Pid) returns (more: seq<Step>)
    requires At(g, p).Idle? && NoLocks(g)
    ensures ByAlone(more, p) && At(NextAll(g, more), p) == PassDone(ActionsIn(LogOf(g)), false)
    ensures forall a: ActionRecord :: a in LogOf(g) ==> HasResult(LogOf(NextAll(g, more)), a.id)
  {
    var h := Put(g, p, Passing(ActionsIn(LogOf(g)), TerminalIds(LogOf(g)), 0, false));
    var rest, e := PassGoesOn(h, p, At(h, p));
    more := [List(p), Snapshot(p)] + rest;
    PassStarts(g, p, rest);
    AllEnded(LogOf(g), LogOf(e));
  }
}
