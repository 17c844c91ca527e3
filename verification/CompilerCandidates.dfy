/** Compiler-search candidates: registration, validation, benchmarks, and promotion. */
module CompilerCandidates {
  import opened Records

  datatype Semantic = Unvalidated | Judged(status: Status)

  datatype Declared = Current | Stale

  datatype Freshness = Fresh | StaleValidation | NoValidation | Substituted

  datatype Decision = Accept | Reject | RetainUnresolved

  /** `artifact` is the identity the validation was bound to; validations older than that field have none. */
  datatype Validation = Validation(validator: string, judgement: Status, freshness: Declared, artifact: Option<Id>,
                                   rest: nat)

  /** What a candidate's identity is taken over: every field but the time it was recorded. The identity determines the
      fields, so the fields serve as the identity. */
  datatype Body = Body(baseline: Id, artifact: Id, required: string, semantic: Semantic, benchmark: Option<nat>,
                       validation: Option<Validation>, decision: Decision, rest: nat)

  datatype Entry = Entry(body: Body, recordedAt: string)

  type History = seq<Entry>

  datatype Error =
    | NotIsolated | ValidationStatus | NotFound | ArtifactMismatch | RecordExists | PolicyRequired
    | NotSelectable(decision: Decision) | StoreFailure

  const EXPLICIT_POLICY := "explicit-protected-property-policy"

  /** The kinds of validation that can promote. */
  const KINDS := {"translation-validation", "bounded-agreement", "none"}

  /* ---- Freshness and disposition ---- */

  function FreshnessOf(b: Body): Freshness {
    if b.validation.None? then NoValidation
    else
      var v := b.validation.value;
      if v.artifact.Some? && v.artifact.value != b.artifact then Substituted
      else if v.freshness == Stale then StaleValidation
      else Fresh
  }

  function Effective(b: Body): Semantic {
    if FreshnessOf(b) == StaleValidation || FreshnessOf(b) == Substituted then Judged(Unknown) else b.semantic
  }

  predicate Recognised(required: string) {
    required == "translation-validation" || required == "bounded-agreement" || required == "none"
  }

  function Decide(s: Semantic, required: string): Decision {
    if s == Judged(Fail) then Reject
    else if s == Judged(Pass) && Recognised(required) then Accept
    else RetainUnresolved
  }

  function Standing(b: Body): Decision {
    Decide(Effective(b), b.required)
  }

  /** Substituted or stale validation never promotes, in any record whatever. */
  lemma StaleNeverAccepted(b: Body)
    requires b.validation.Some?
    requires b.validation.value.freshness == Stale
             || (b.validation.value.artifact.Some? && b.validation.value.artifact.value != b.artifact)
    ensures Standing(b) == RetainUnresolved
  {
  }

  /** A validation counts unless it is stale or bound to another artifact; one bound to none counts as declared. */
  predicate Counts(v: Validation, artifact: Id) {
    v.freshness == Current && (v.artifact.Some? ==> v.artifact.value == artifact)
  }

  /** The decision on any record whatever. */
  lemma StandingIff(b: Body)
    ensures var counts := b.validation.Some? ==> Counts(b.validation.value, b.artifact);
            && (Standing(b) == Reject <==> b.semantic == Judged(Fail) && counts)
            && (Standing(b) == Accept <==> b.semantic == Judged(Pass) && counts && b.required in KINDS)
  {
  }

  /* ---- The operations on the record history ---- */

  /** The last record with this identity. */
  function Get(h: History, id: Body): Option<Entry> {
    if h == [] then None
    else if h[|h| - 1].body == id then Some(h[|h| - 1])
    else Get(h[..|h| - 1], id)
  }

  /** Commit: an identical record is found again, a record differing only in its time is refused. */
  function Stored(h: History, c: Entry, storable: bool): (Result<Entry, Error>, History) {
    if !storable then (Err(StoreFailure), h)
    else
      match Get(h, c.body)
      case Some(found) => (if found == c then Ok(found) else Err(RecordExists), h)
      case None => (Ok(c), h + [c])
  }

  datatype Op =
    | Register(baseline: Id, artifact: Id, required: string, rest: nat, at: string, storable: bool)
    | AttachValidation(id: Body, judged: Option<Status>, validator: string, stale: bool, expected: Option<Id>,
                       detail: nat, at: string, storable: bool)
    | AttachBenchmark(id: Body, observation: nat, at: string, storable: bool)

  function NewBody(baseline: Id, artifact: Id, required: string, rest: nat): Body {
    Body(baseline, artifact, required, Unvalidated, None, None, RetainUnresolved, rest)
  }

  function Validated(b: Body, validator: string, judgement: Status, stale: bool, detail: nat): Body {
    var status := if stale then Unknown else judgement;
    var v := Validation(validator, status, if stale then Stale else Current, Some(b.artifact), detail);
    b.(semantic := Judged(status), validation := Some(v), decision := Decide(Judged(status), b.required))
  }

  function Benchmarked(b: Body, observation: nat): Body {
    b.(semantic := Effective(b), benchmark := Some(observation), decision := Standing(b))
  }

  function Step(h: History, op: Op): (Result<Entry, Error>, History) {
    match op
    case Register(baseline, artifact, required, rest, at, storable) =>
      if baseline == artifact then (Err(NotIsolated), h)
      else
        var b := NewBody(baseline, artifact, required, rest);
        if Get(h, b).Some? then (Ok(Get(h, b).value), h) else Stored(h, Entry(b, at), storable)
    case AttachValidation(id, judged, validator, stale, expected, detail, at, storable) =>
      if judged.None? then (Err(ValidationStatus), h)
      else if Get(h, id).None? then (Err(NotFound), h)
      else
        var b := Get(h, id).value.body;
        if expected.Some? && expected.value != b.artifact then (Err(ArtifactMismatch), h)
        else Stored(h, Entry(Validated(b, validator, judged.value, stale, detail), at), storable)
    case AttachBenchmark(id, observation, at, storable) =>
      if Get(h, id).None? then (Err(NotFound), h)
      else Stored(h, Entry(Benchmarked(Get(h, id).value.body, observation), at), storable)
  }

  function Reached(ops: seq<Op>): History {
    if ops == [] then [] else Step(Reached(ops[..|ops| - 1]), ops[|ops| - 1]).1
  }

  /* ---- What every record of every run satisfies ---- */

  /** The candidate is isolated; its status is that of its validation, which is bound to its own artifact. */
  predicate Honest(b: Body) {
    && b.baseline != b.artifact
    && (match b.validation
        case None => b.semantic == Unvalidated
        case Some(v) =>
          && b.semantic == Judged(v.judgement) && v.artifact == Some(b.artifact)
          && (v.freshness == Stale ==> v.judgement == Unknown))
    && b.decision == Standing(b)
  }

  ghost predicate Sound(h: History) {
    && (forall i :: 0 <= i < |h| ==> Honest(h[i].body))
    && (forall i, j :: 0 <= i < |h| && 0 <= j < |h| && h[i].body == h[j].body ==> i == j)
  }

  lemma {:induction false} GetFinds(h: History, id: Body)
    ensures Get(h, id).Some? ==> Get(h, id).value in h && Get(h, id).value.body == id
    ensures Get(h, id).None? ==> forall i :: 0 <= i < |h| ==> h[i].body != id
  {
    if h != [] {
      GetFinds(h[..|h| - 1], id);
    }
  }

  lemma StoredSound(h: History, c: Entry, storable: bool)
    requires Sound(h) && Honest(c.body)
    ensures Sound(Stored(h, c, storable).1) && h <= Stored(h, c, storable).1
  {
    GetFinds(h, c.body);
  }

  lemma StepSound(h: History, op: Op)
    requires Sound(h)
    ensures Sound(Step(h, op).1) && h <= Step(h, op).1
  {
    match op
    case Register(baseline, artifact, required, rest, at, storable) =>
      if baseline != artifact {
        StoredSound(h, Entry(NewBody(baseline, artifact, required, rest), at), storable);
      }
    case AttachValidation(id, judged, validator, stale, expected, detail, at, storable) =>
      GetFinds(h, id);
      if judged.Some? && Get(h, id).Some? {
        StoredSound(h, Entry(Validated(id, validator, judged.value, stale, detail), at), storable);
      }
    case AttachBenchmark(id, observation, at, storable) =>
      GetFinds(h, id);
      if Get(h, id).Some? {
        StoredSound(h, Entry(Benchmarked(id, observation), at), storable);
      }
  }

  lemma {:induction false} RunSound(ops: seq<Op>)
    ensures Sound(Reached(ops))
  {
    if ops != [] {
      RunSound(ops[..|ops| - 1]);
      StepSound(Reached(ops[..|ops| - 1]), ops[|ops| - 1]);
    }
  }

  /** A current PASS validation bound to the candidate's own artifact. */
  predicate CurrentPass(b: Body) {
    b.validation.Some? &&
    var v := b.validation.value; v.judgement == Pass && v.freshness == Current && v.artifact == Some(b.artifact)
  }

  predicate CurrentFail(b: Body) {
    b.validation.Some? &&
    var v := b.validation.value; v.judgement == Fail && v.freshness == Current && v.artifact == Some(b.artifact)
  }

  lemma HonestStanding(h: History, c: Entry)
    requires Sound(h) && c in h
    ensures Standing(c.body) == Accept <==> CurrentPass(c.body) && c.body.required in KINDS
    ensures Standing(c.body) == Reject <==> CurrentFail(c.body)
    ensures c.body.decision == Standing(c.body) && c.body.baseline != c.body.artifact
  {
    var i :| 0 <= i < |h| && h[i] == c;
    assert Honest(h[i].body);
  }

  /** Over every run a record is accepted exactly when it carries a current PASS validation of its own artifact and asks
      for one of the three kinds, rejected exactly when it carries a current FAIL validation of its own artifact, and
      otherwise stays unresolved; the decision written in the record says the same. */
  lemma PromotionIffValidated(ops: seq<Op>, i: nat)
    requires i < |Reached(ops)|
    ensures var b := Reached(ops)[i].body;
            && (Standing(b) == Accept <==> CurrentPass(b) && b.required in KINDS)
            && (Standing(b) == Reject <==> CurrentFail(b))
            && (Standing(b) == RetainUnresolved <==> !CurrentFail(b) && !(CurrentPass(b) && b.required in KINDS))
            && b.decision == Standing(b) && b.baseline != b.artifact
  {
    RunSound(ops);
    HonestStanding(Reached(ops), Reached(ops)[i]);
  }

  /* ---- The service ---- */

  /** The three lists of a tournament. */
  datatype Outcome = Outcome(accepted: History, rejected: History, unresolved: History)

  function With(cs: History, d: Decision): History {
    if cs == [] then []
    else With(cs[..|cs| - 1], d) + if Standing(cs[|cs| - 1].body) == d then [cs[|cs| - 1]] else []
  }

  /** The candidates with the given identities, or nothing if one is unknown. */
  function Ranked(h: History, ids: seq<Body>): Option<History> {
    if ids == [] then Some([])
    else
      var front, last := Ranked(h, ids[..|ids| - 1]), Get(h, ids[|ids| - 1]);
      if front.Some? && last.Some? then Some(front.value + [last.value]) else None
  }

  class Service {
    var history: History

    constructor ()
      ensures history == Reached([]) && Sound(history)
    {
      history := [];
    }

    method Commit(c: Entry, storable: bool) returns (r: Result<Entry, Error>)
      requires Sound(history)
      modifies this
      ensures (r, history) == Stored(old(history), c, storable)
      ensures !storable ==> r == Err(StoreFailure)
      ensures storable ==>
                forall e :: e in old(history) && e.body == c.body ==>
                  history == old(history) && r == if e.recordedAt == c.recordedAt then Ok(c) else Err(RecordExists)
      ensures storable && (forall e :: e in old(history) ==> e.body != c.body) ==>
                r == Ok(c) && history == old(history) + [c]
    {
      if !storable {
        return Err(StoreFailure);
      }
      GetFinds(history, c.body);
      var found := Get(history, c.body);
      if found.Some? {
        return if found.value == c then Ok(found.value) else Err(RecordExists);
      }
      history := history + [c];
      return Ok(c);
    }

    method Register(op: Op) returns (r: Result<Entry, Error>)
      requires op.Register? && Sound(history)
      modifies this
      ensures (r, history) == Step(old(history), op) && Sound(history) && old(history) <= history
      ensures r == Err(NotIsolated) <==> op.baseline == op.artifact
      ensures r.Ok? ==>
                var b := r.value.body;
                && b.baseline == op.baseline && b.artifact == op.artifact && b.required == op.required
                && b.rest == op.rest && b.semantic == Unvalidated && b.benchmark.None? && b.validation.None?
                && b.decision == RetainUnresolved
                && Standing(b) == RetainUnresolved && r.value in history
      ensures r.Ok? ==> if r.value in old(history) then history == old(history)
                        else r.value.recordedAt == op.at && history == old(history) + [r.value]
    {
      StepSound(history, op);
      if op.baseline == op.artifact {
        return Err(NotIsolated);
      }
      var b := NewBody(op.baseline, op.artifact, op.required, op.rest);
      GetFinds(history, b);
      var found := Get(history, b);
      if found.Some? {
        return Ok(found.value);
      }
      r := Commit(Entry(b, op.at), op.storable);
    }

    method AttachValidation(op: Op) returns (r: Result<Entry, Error>)
      requires op.AttachValidation? && Sound(history)
      modifies this
      ensures (r, history) == Step(old(history), op) && Sound(history) && old(history) <= history
      ensures op.judged.None? ==> r == Err(ValidationStatus)
      ensures op.judged.Some? && (forall e :: e in old(history) ==> e.body != op.id) ==> r == Err(NotFound)
      ensures r == Err(ArtifactMismatch) <==>
              && op.judged.Some? && (exists e :: e in old(history) && e.body == op.id)
              && op.expected.Some? && op.expected.value != op.id.artifact
      ensures r.Ok? ==>
                var b, status := r.value.body, if op.stale then Unknown else op.judged.value;
                && b.(semantic := op.id.semantic, validation := op.id.validation, decision := op.id.decision) == op.id
                && b.semantic == Judged(status)
                && b.validation == Some(Validation(op.validator, status, if op.stale then Stale else Current,
                                                   Some(op.id.artifact), op.detail))
      ensures r.Ok? ==> (Standing(r.value.body) == Accept <==>
                         op.judged == Some(Pass) && !op.stale && op.id.required in KINDS)
      ensures r.Ok? ==> (Standing(r.value.body) == Reject <==> op.judged == Some(Fail) && !op.stale)
    {
      StepSound(history, op);
      if op.judged.None? {
        return Err(ValidationStatus);
      }
      GetFinds(history, op.id);
      var current := Get(history, op.id);
      if current.None? {
        return Err(NotFound);
      }
      var b := current.value.body;
      if op.expected.Some? && op.expected.value != b.artifact {
        return Err(ArtifactMismatch);
      }
      r := Commit(Entry(Validated(b, op.validator, op.judged.value, op.stale, op.detail), op.at), op.storable);
    }

    /** A benchmark leaves the decision as it was. */
    method AttachBenchmark(op: Op) returns (r: Result<Entry, Error>)
      requires op.AttachBenchmark? && Sound(history)
      modifies this
      ensures (r, history) == Step(old(history), op) && Sound(history) && old(history) <= history
      ensures (forall e :: e in old(history) ==> e.body != op.id) ==> r == Err(NotFound)
      ensures r.Ok? ==> r.value.body == op.id.(benchmark := Some(op.observation))
      ensures r.Ok? ==> Standing(r.value.body) == Standing(op.id)
    {
      StepSound(history, op);
      GetFinds(history, op.id);
      var current := Get(history, op.id);
      if current.None? {
        return Err(NotFound);
      }
      r := Commit(Entry(Benchmarked(current.value.body, op.observation), op.at), op.storable);
    }

    /** The tournament sorts its candidates into three lists, each in the order given. */
    method Tournament(ids: seq<Body>) returns (r: Result<Outcome, Error>)
      ensures r.Ok? <==> Ranked(history, ids).Some?
      ensures r.Err? ==> r.error == NotFound
      ensures r.Ok? ==>
                var cs := Ranked(history, ids).value;
                r.value == Outcome(With(cs, Accept), With(cs, Reject), With(cs, RetainUnresolved))
    {
      var ranked: History := [];
      for i := 0 to |ids|
        invariant Ranked(history, ids[..i]) == Some(ranked)
      {
        assert ids[..i + 1][..i] == ids[..i];
        var c := Get(history, ids[i]);
        if c.None? {
          NotRanked(history, ids, i);
          return Err(NotFound);
        }
        ranked := ranked + [c.value];
      }
      assert ids[..|ids|] == ids;
      var accepted: History, rejected: History, unresolved: History := [], [], [];
      for i := 0 to |ranked|
        invariant accepted == With(ranked[..i], Accept) && rejected == With(ranked[..i], Reject)
        invariant unresolved == With(ranked[..i], RetainUnresolved)
      {
        assert ranked[..i + 1][..i] == ranked[..i];
        var d := Standing(ranked[i].body);
        if d == Accept {
          accepted := accepted + [ranked[i]];
        } else if d == Reject {
          rejected := rejected + [ranked[i]];
        } else {
          unresolved := unresolved + [ranked[i]];
        }
      }
      assert ranked[..|ranked|] == ranked;
      return Ok(Outcome(accepted, rejected, unresolved));
    }

    /** Selection is open, under the explicit policy, to exactly what a tournament accepts. */
    method Select(id: Body, policy: string) returns (r: Result<Entry, Error>)
      ensures r.Ok? <==> && Get(history, id).Some? && policy == EXPLICIT_POLICY
                         && Standing(Get(history, id).value.body) == Accept
      ensures r.Ok? ==> r.value == Get(history, id).value
      ensures r == Err(NotFound) <==> Get(history, id).None?
      ensures r == Err(PolicyRequired) <==> Get(history, id).Some? && policy != "explicit-protected-property-policy"
      ensures r.Err? && r.error.NotSelectable? ==> r.error.decision == Standing(Get(history, id).value.body) != Accept
    {
      var c := Get(history, id);
      if c.None? {
        return Err(NotFound);
      }
      var d := Standing(c.value.body);
      if policy != EXPLICIT_POLICY {
        return Err(PolicyRequired);
      }
      if d != Accept {
        return Err(NotSelectable(d));
      }
      return Ok(c.value);
    }
  }

  lemma {:induction false} NotRanked(h: History, ids: seq<Body>, i: nat)
    requires i < |ids| && Get(h, ids[i]).None?
    ensures Ranked(h, ids).None?
  {
    if i < |ids| - 1 {
      NotRanked(h, ids[..|ids| - 1], i);
    }
  }

  function Times(cs: History, c: Entry): nat {
    if cs == [] then 0 else Times(cs[..|cs| - 1], c) + if cs[|cs| - 1] == c then 1 else 0
  }

  lemma TimesSnoc(cs: History, x: Entry, c: Entry)
    ensures Times(cs + [x], c) == Times(cs, c) + if x == c then 1 else 0
  {
    assert (cs + [x])[..|cs|] == cs;
  }

  /** The lists are a partition: each candidate is on the list of its own decision as often as it was given, and on no
      other. */
  lemma {:induction false} WithPartitions(cs: History, d: Decision, c: Entry)
    ensures Times(With(cs, d), c) == if Standing(c.body) == d then Times(cs, c) else 0
  {
    if cs != [] {
      var front, x := cs[..|cs| - 1], cs[|cs| - 1];
      WithPartitions(front, d, c);
      TimesSnoc(With(front, d), x, c);
      assert With(cs, d) == if Standing(x.body) == d then With(front, d) + [x] else With(front, d);
    }
  }

  /** Each list keeps the order: the positions it was drawn from increase. */
  lemma {:induction false} WithOrdered(cs: History, d: Decision) returns (at: seq<nat>)
    ensures |at| == |With(cs, d)|
    ensures forall k :: 0 <= k < |at| ==> at[k] < |cs| && With(cs, d)[k] == cs[at[k]] && Standing(cs[at[k]].body) == d
    ensures forall k, l :: 0 <= k < l < |at| ==> at[k] < at[l]
  {
    at := [];
    if cs != [] {
      at := WithOrdered(cs[..|cs| - 1], d);
      if Standing(cs[|cs| - 1].body) == d {
        at := at + [|cs| - 1];
      }
    }
  }

  /** A tournament accepts, of the candidates of a run, those with a current PASS validation of their own artifact, and
      rejects those with a current FAIL. */
  lemma TournamentAccepts(ops: seq<Op>, ids: seq<Body>, c: Entry)
    requires Ranked(Reached(ops), ids).Some? && c in Ranked(Reached(ops), ids).value
    ensures c in With(Ranked(Reached(ops), ids).value, Accept) <==> CurrentPass(c.body) && c.body.required in KINDS
    ensures c in With(Ranked(Reached(ops), ids).value, Reject) <==> CurrentFail(c.body)
  {
    RankedWithin(Reached(ops), ids);
    RunSound(ops);
    HonestStanding(Reached(ops), c);
    WithMember(Ranked(Reached(ops), ids).value, Accept, c);
    WithMember(Ranked(Reached(ops), ids).value, Reject, c);
  }

  /** The candidates of a tournament are the records with the given identities, in the order given. */
  lemma {:induction false} RankedIs(h: History, ids: seq<Body>)
    ensures Ranked(h, ids).Some? <==> forall i :: 0 <= i < |ids| ==> exists c :: c in h && c.body == ids[i]
    ensures Ranked(h, ids).Some? ==>
              var cs := Ranked(h, ids).value;
              |cs| == |ids| && forall i :: 0 <= i < |ids| ==> cs[i] in h && cs[i].body == ids[i]
  {
    if ids != [] {
      var n := |ids| - 1;
      RankedIs(h, ids[..n]);
      GetFinds(h, ids[n]);
      assert forall i :: 0 <= i < n ==> ids[..n][i] == ids[i];
    }
  }

  lemma {:induction false} RankedWithin(h: History, ids: seq<Body>)
    requires Ranked(h, ids).Some?
    ensures forall c :: c in Ranked(h, ids).value ==> c in h
  {
    if ids != [] {
      RankedWithin(h, ids[..|ids| - 1]);
      GetFinds(h, ids[|ids| - 1]);
    }
  }

  lemma {:induction false} WithMember(cs: History, d: Decision, c: Entry)
    ensures c in With(cs, d) <==> c in cs && Standing(c.body) == d
  {
    if cs != [] {
      WithMember(cs[..|cs| - 1], d, c);
      assert cs == cs[..|cs| - 1] + [cs[|cs| - 1]];
    }
  }
}
