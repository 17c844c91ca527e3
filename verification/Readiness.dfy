/** Evidence readiness of a candidate, in the compatibility form and in the normalised form handed to the kernel. */
module Readiness {
  import opened Records

  type Log = seq<Record>

  datatype Freshness = Current | Stale | Unclear

  /** Everything the host observes besides the history: arbitrary at every call. */
  datatype Env = Env(mode: Mode, candidate: Id, authority: map<string, Id>, bindings: map<string, Id>,
                     policyId: Id, required: seq<string>, policyError: bool,
                     freshness: map<Id, Freshness>, comparability: map<Id, Option<bool>>,
                     keys: map<string, seq<string>>, environments: map<string, Id>, policies: map<string, Id>)

  datatype Evidence = Evidence(required: seq<string>, present: set<string>, missing: set<string>, unknown: set<string>,
                               failed: set<string>, stale: set<string>, noncomparable: set<string>,
                               policyError: bool, ready: bool, status: Status)

  datatype Blocker = PlanInvalid | Failed | Incomplete | UnknownEvidence | StaleEvidence | NotComparable

  function BlockerOf(e: Evidence): Option<Blocker> {
    if e.policyError then Some(PlanInvalid)
    else if e.failed != {} then Some(Failed)
    else if e.missing != {} then Some(Incomplete)
    else if e.unknown != {} then Some(UnknownEvidence)
    else if e.stale != {} then Some(StaleEvidence)
    else if e.noncomparable != {} then Some(NotComparable)
    else None
  }

  /* ---- Which records speak for a requirement, and how ---- */

  /** Candidate-scoped workflow results by workflow name, development verifier results by verifier name. */
  predicate SpeaksFor(r: Record, candidate: Id, requirement: string) {
    || (r.WorkflowResult? && r.candidate == candidate && !r.projectScoped && r.workflow == requirement)
    || (r.VerifierResult? && r.candidate == candidate && r.mode == Development && r.verifier == requirement)
  }

  function Matches(log: Log, candidate: Id, requirement: string): (ms: seq<Record>)
    ensures forall r :: r in ms <==> r in log && SpeaksFor(r, candidate, requirement)
  {
    Select(log, candidate, requirement, true) + Select(log, candidate, requirement, false)
  }

  function Select(log: Log, candidate: Id, requirement: string, workflows: bool): (ms: seq<Record>)
    ensures forall r :: r in ms <==> r in log && SpeaksFor(r, candidate, requirement) && r.WorkflowResult? == workflows
  {
    if log == [] then []
    else
      var r := log[|log| - 1];
      assert log == log[..|log| - 1] + [r];
      Select(log[..|log| - 1], candidate, requirement, workflows)
      + if SpeaksFor(r, candidate, requirement) && r.WorkflowResult? == workflows then [r] else []
  }

  predicate IsEvidence(r: Record) {
    r.WorkflowResult? || r.VerifierResult?
  }

  function StatusOf(r: Record): Status
    requires IsEvidence(r)
  {
    r.status
  }

  function FreshnessOf(env: Env, candidate: Id, r: Record): Freshness
    requires IsEvidence(r)
  {
    if r.id in env.freshness then env.freshness[r.id]
    else if candidate == env.candidate && (r.WorkflowResult? || r.inputCandidate == Some(env.candidate)) then Current
    else Unclear
  }

  predicate DeclaredComparable(env: Env, r: Record) {
    r.id in env.comparability ==> env.comparability[r.id] == Some(true)
  }

  /** The recorded environment is the expected one, when one is expected. */
  predicate EnvironmentMatches(env: Env, requirement: string, r: Record)
    requires IsEvidence(r)
  {
    if r.WorkflowResult? then
      requirement in env.keys ==> r.keys.Some? && multiset(r.keys.value) == multiset(env.keys[requirement])
    else
      requirement in env.environments ==> r.environment == env.environments[requirement]
  }

  predicate PolicyMatches(env: Env, requirement: string, r: Record)
    requires IsEvidence(r)
  {
    r.VerifierResult? && requirement in env.policies ==> r.policy == env.policies[requirement]
  }

  function EpochOf(log: Log, id: Id): Option<Record> {
    if log == [] then None
    else if log[|log| - 1].Epoch? && log[|log| - 1].id == id then Some(log[|log| - 1])
    else EpochOf(log[..|log| - 1], id)
  }

  /** The authority the candidate's epoch was begun under is still the observed one. */
  predicate AuthorityMatches(log: Log, env: Env, candidate: Record)
    requires candidate.Candidate?
  {
    var epoch := EpochOf(log, candidate.sourceEpoch);
    epoch.Some? && env.authority != map[] ==> epoch.value.Epoch? && epoch.value.authority == env.authority
  }

  /* ---- The compatibility form ---- */

  predicate IsStale(env: Env, candidate: Id, r: Record) {
    IsEvidence(r) && FreshnessOf(env, candidate, r) == Stale
  }

  predicate IsOff(env: Env, candidate: Id, requirement: string, r: Record) {
    IsEvidence(r) &&
    (FreshnessOf(env, candidate, r) == Unclear || !DeclaredComparable(env, r)
     || !EnvironmentMatches(env, requirement, r) || !PolicyMatches(env, requirement, r))
  }

  predicate Has(ms: seq<Record>, s: Status) {
    exists i :: 0 <= i < |ms| && IsEvidence(ms[i]) && StatusOf(ms[i]) == s
  }

  predicate SomeStale(ms: seq<Record>, env: Env, candidate: Id) {
    exists i :: 0 <= i < |ms| && IsStale(env, candidate, ms[i])
  }

  predicate SomeOff(ms: seq<Record>, env: Env, candidate: Id, requirement: string) {
    exists i :: 0 <= i < |ms| && IsOff(env, candidate, requirement, ms[i])
  }

  /** How the records of one requirement count. */
  datatype Tally = Tally(missing: bool, failed: bool, unknown: bool, stale: bool, off: bool)

  function TallyOf(log: Log, env: Env, c: Id, q: string): Tally {
    var ms := Matches(log, c, q);
    Tally(ms == [], Has(ms, Fail), !Has(ms, Fail) && Has(ms, Unknown), SomeStale(ms, env, c), SomeOff(ms, env, c, q))
  }

  /** The lists the compatibility form fills: which of the names have which tally. */
  datatype Lists = Lists(present: set<string>, missing: set<string>, unknown: set<string>, failed: set<string>,
                         stale: set<string>, off: set<string>)

  function ListsOf(tally: string -> Tally, required: seq<string>): Lists {
    if required == [] then Lists({}, {}, {}, {}, {}, {})
    else
      var q := required[|required| - 1];
      Note(ListsOf(tally, required[..|required| - 1]), q, tally(q))
  }

  function Tallies(log: Log, env: Env, c: Id): string -> Tally {
    q => TallyOf(log, env, c, q)
  }

  /** Readiness as a function, for the rest of the lifecycle. */
  function EvidenceOf(log: Log, env: Env, candidate: Option<Record>, required: seq<string>, policyError: bool): Evidence
    requires candidate.Some? ==> candidate.value.Candidate?
  {
    if candidate.None? then Evidence(required, {}, Names(required), {}, {}, {}, {}, policyError, false, Unknown)
    else
      var l := ListsOf(Tallies(log, env, candidate.value.id), required);
      var off := if AuthorityMatches(log, env, candidate.value) then l.off else l.off + l.present;
      Conclude(required, l.(off := off), policyError)
  }

  function Names(required: seq<string>): set<string> {
    if required == [] then {} else Names(required[..|required| - 1]) + {required[|required| - 1]}
  }

  function Conclude(required: seq<string>, l: Lists, policyError: bool): Evidence {
    var ready := !policyError && l.missing == {} && l.unknown == {} && l.failed == {} && l.stale == {} && l.off == {};
    Evidence(required, l.present, l.missing, l.unknown, l.failed, l.stale, l.off, policyError, ready,
             if l.failed != {} then Fail else if ready then Pass else Unknown)
  }

  /** The compatibility loop over the requirements and, inside it, over the matching records. */
  method CompatReadiness(log: Log, env: Env, candidate: Option<Record>, required: seq<string>, policyError: bool)
    returns (e: Evidence)
    requires candidate.Some? ==> candidate.value.Candidate?
    ensures e == EvidenceOf(log, env, candidate, required, policyError)
  {
    if candidate.None? {
      return Evidence(required, {}, Names(required), {}, {}, {}, {}, policyError, false, Unknown);
    }
    var c := candidate.value.id;
    var l := Lists({}, {}, {}, {}, {}, {});
    for n := 0 to |required|
      invariant l == ListsOf(Tallies(log, env, c), required[..n])
    {
      var q := required[n];
      assert required[..n + 1][..n] == required[..n];
      var t := Judge(log, env, c, q);
      l := Note(l, q, t);
    }
    assert required[..|required|] == required;
    if !AuthorityMatches(log, env, candidate.value) {
      l := l.(off := l.off + l.present);
    }
    e := Conclude(required, l, policyError);
  }

  /** Append one requirement to the lists its tally puts it on. */
  function Note(l: Lists, q: string, t: Tally): Lists {
    Lists(if t.missing then l.present else l.present + {q},
          if t.missing then l.missing + {q} else l.missing,
          if t.unknown then l.unknown + {q} else l.unknown,
          if t.failed then l.failed + {q} else l.failed,
          if t.stale then l.stale + {q} else l.stale,
          if t.off then l.off + {q} else l.off)
  }

  /** A name is on a list exactly when it is required and its tally says so. */
  lemma {:induction false} ListsMember(tally: string -> Tally, required: seq<string>, q: string)
    ensures var l := ListsOf(tally, required);
            && (q in l.present <==> q in required && !tally(q).missing)
            && (q in l.missing <==> q in required && tally(q).missing)
            && (q in l.unknown <==> q in required && tally(q).unknown)
            && (q in l.failed <==> q in required && tally(q).failed)
            && (q in l.stale <==> q in required && tally(q).stale) && (q in l.off <==> q in required && tally(q).off)
  {
    if required != [] {
      ListsMember(tally, required[..|required| - 1], q);
      assert required == required[..|required| - 1] + [required[|required| - 1]];
    }
  }

  /** The same, of readiness: which verdicts a required check gets. */
  lemma EvidenceMember(log: Log, env: Env, candidate: Record, required: seq<string>, policyError: bool, q: string)
    requires candidate.Candidate? && q in required
    ensures var e := EvidenceOf(log, env, Some(candidate), required, policyError);
            var t := TallyOf(log, env, candidate.id, q);
            && (q in e.missing <==> t.missing) && (q in e.unknown <==> t.unknown) && (q in e.failed <==> t.failed)
            && (q in e.stale <==> t.stale)
            && (q in e.noncomparable <==> t.off || (!t.missing && !AuthorityMatches(log, env, candidate)))
  {
    ListsMember(Tallies(log, env, candidate.id), required, q);
  }

  /** One requirement: a FAIL record shadows an UNKNOWN one, and missing evidence is judged no further. */
  method Judge(log: Log, env: Env, c: Id, q: string) returns (t: Tally)
    ensures t == TallyOf(log, env, c, q)
  {
    var ms := Matches(log, c, q);
    if ms == [] {
      return Tally(true, false, false, false, false);
    }
    var failed, unknown := false, false;
    for i := 0 to |ms|
      invariant failed <==> exists k :: 0 <= k < i && IsEvidence(ms[k]) && StatusOf(ms[k]) == Fail
      invariant unknown <==> exists k :: 0 <= k < i && IsEvidence(ms[k]) && StatusOf(ms[k]) == Unknown
    {
      assert ms[i] in ms;
      failed := failed || StatusOf(ms[i]) == Fail;
      unknown := unknown || StatusOf(ms[i]) == Unknown;
    }
    var stale, off := Examine(ms, env, c, q);
    t := Tally(false, failed, !failed && unknown, stale, off);
  }

  /** The inner loop of the compatibility form. */
  method Examine(ms: seq<Record>, env: Env, c: Id, q: string) returns (isStale: bool, isOff: bool)
    requires forall r :: r in ms ==> IsEvidence(r)
    ensures isStale == SomeStale(ms, env, c) && isOff == SomeOff(ms, env, c, q)
  {
    isStale, isOff := false, false;
    for i := 0 to |ms|
      invariant isStale <==> exists k :: 0 <= k < i && IsStale(env, c, ms[k])
      invariant isOff <==> exists k :: 0 <= k < i && IsOff(env, c, q, ms[k])
    {
      var r := ms[i];
      assert r in ms;
      var f := FreshnessOf(env, c, r);
      if f == Stale {
        isStale := true;
      } else if f != Current {
        isOff := true;
      }
      if !DeclaredComparable(env, r) {
        isOff := true;
      }
      if !EnvironmentMatches(env, q, r) || !PolicyMatches(env, q, r) {
        isOff := true;
      }
    }
  }

  /* ---- The normalised form ---- */

  /** One requirement's envelope as the host hands it to the kernel. */
  datatype Envelope = Envelope(records: seq<Record>, freshness: Freshness, comparable: bool, environment: bool,
                               policy: bool, authority: bool)

  predicate EnvelopeStale(n: Envelope) {
    n.freshness == Stale
  }

  predicate EnvelopeNoncomparable(n: Envelope) {
    n.freshness == Unclear || !n.comparable || !n.environment || !n.policy || !n.authority
  }

  method Normalise(log: Log, env: Env, candidate: Record, q: string) returns (n: Envelope)
    requires candidate.Candidate?
    ensures IsEnvelope(n, log, env, candidate, q)
  {
    var ms := Matches(log, candidate.id, q);
    var freshness, comparable, environment, policy := Fold(ms, env, candidate.id, q);
    n := Envelope(ms, freshness, comparable, environment, policy, AuthorityMatches(log, env, candidate));
  }

  /** The folding loop: a stale record wins over an unclear one, whatever their order. */
  method Fold(ms: seq<Record>, env: Env, c: Id, q: string)
    returns (freshness: Freshness, comparable: bool, environment: bool, policy: bool)
    requires forall r :: r in ms ==> IsEvidence(r)
    ensures freshness == Folded(ms, env, c) && comparable == AllComparable(ms, env)
    ensures environment == AllSameEnvironment(ms, env, q) && policy == AllSamePolicy(ms, env, q)
  {
    freshness, comparable, environment, policy := Current, true, true, true;
    for i := 0 to |ms|
      invariant freshness == FoldedTo(ms, i, env, c)
      invariant comparable <==> forall k :: 0 <= k < i ==> DeclaredComparable(env, ms[k])
      invariant environment <==> forall k :: 0 <= k < i ==> SameEnvironment(env, q, ms[k])
      invariant policy <==> forall k :: 0 <= k < i ==> SamePolicy(env, q, ms[k])
    {
      var r := ms[i];
      assert r in ms;
      var f := FreshnessOf(env, c, r);
      if f == Stale {
        freshness := Stale;
      } else if f != Current && freshness != Stale {
        freshness := Unclear;
      }
      comparable := comparable && DeclaredComparable(env, r);
      environment := environment && EnvironmentMatches(env, q, r);
      policy := policy && PolicyMatches(env, q, r);
    }
  }

  /** The freshness the loop has folded after `n` records. */
  function FoldedTo(ms: seq<Record>, n: nat, env: Env, c: Id): Freshness
    requires n <= |ms|
  {
    if exists k :: 0 <= k < n && IsStale(env, c, ms[k]) then Stale
    else if exists k :: 0 <= k < n && IsUnclear(env, c, ms[k]) then Unclear
    else Current
  }

  predicate SameEnvironment(env: Env, q: string, r: Record) {
    IsEvidence(r) && EnvironmentMatches(env, q, r)
  }

  predicate SamePolicy(env: Env, q: string, r: Record) {
    IsEvidence(r) && PolicyMatches(env, q, r)
  }

  function Folded(ms: seq<Record>, env: Env, c: Id): Freshness {
    FoldedTo(ms, |ms|, env, c)
  }

  predicate IsUnclear(env: Env, c: Id, r: Record) {
    IsEvidence(r) && FreshnessOf(env, c, r) == Unclear
  }

  predicate AllComparable(ms: seq<Record>, env: Env) {
    forall i :: 0 <= i < |ms| ==> DeclaredComparable(env, ms[i])
  }

  predicate AllSameEnvironment(ms: seq<Record>, env: Env, q: string) {
    forall i :: 0 <= i < |ms| ==> SameEnvironment(env, q, ms[i])
  }

  predicate AllSamePolicy(ms: seq<Record>, env: Env, q: string) {
    forall i :: 0 <= i < |ms| ==> SamePolicy(env, q, ms[i])
  }

  predicate SomeUnclear(ms: seq<Record>, env: Env, c: Id) {
    exists i :: 0 <= i < |ms| && IsUnclear(env, c, ms[i])
  }

  /** What `Normalise` computes, as a relation. */
  ghost predicate IsEnvelope(n: Envelope, log: Log, env: Env, candidate: Record, q: string)
    requires candidate.Candidate?
  {
    && n.records == Matches(log, candidate.id, q)
    && n.authority == AuthorityMatches(log, env, candidate)
    && n.freshness == Folded(n.records, env, candidate.id)
    && n.comparable == AllComparable(n.records, env)
    && n.environment == AllSameEnvironment(n.records, env, q)
    && n.policy == AllSamePolicy(n.records, env, q)
  }

  ghost predicate AllPass(ms: seq<Record>) {
    forall i :: 0 <= i < |ms| ==> IsEvidence(ms[i]) && StatusOf(ms[i]) == Pass
  }

  /** For a requirement with records the two forms give the same staleness verdict, and the same verdict on "stale or
      not comparable"; where nothing is stale they also agree on "not comparable" alone. */
  lemma FormsAgreeOnRequirement(log: Log, env: Env, candidate: Record, required: seq<string>, policyError: bool,
                                q: string, n: Envelope)
    requires candidate.Candidate? && q in required && IsEnvelope(n, log, env, candidate, q) && n.records != []
    ensures var e := EvidenceOf(log, env, Some(candidate), required, policyError);
            && (q in e.stale <==> EnvelopeStale(n))
            && (q in e.stale || q in e.noncomparable <==> EnvelopeStale(n) || EnvelopeNoncomparable(n))
            && (!EnvelopeStale(n) ==> (q in e.noncomparable <==> EnvelopeNoncomparable(n)))
  {
    EvidenceMember(log, env, candidate, required, policyError, q);
    OffIsSomeFlaw(n.records, env, candidate.id, q);
  }

  lemma OffIsSomeFlaw(ms: seq<Record>, env: Env, c: Id, q: string)
    requires forall r :: r in ms ==> IsEvidence(r)
    ensures SomeOff(ms, env, c, q) <==> || SomeUnclear(ms, env, c) || !AllComparable(ms, env)
                                        || !AllSameEnvironment(ms, env, q) || !AllSamePolicy(ms, env, q)
    ensures Folded(ms, env, c) == (if SomeStale(ms, env, c) then Stale
                                   else if SomeUnclear(ms, env, c) then Unclear else Current)
  {
    forall i | 0 <= i < |ms|
      ensures IsOff(env, c, q, ms[i]) <==> || IsUnclear(env, c, ms[i]) || !DeclaredComparable(env, ms[i])
                                           || !EnvironmentMatches(env, q, ms[i]) || !PolicyMatches(env, q, ms[i])
    {
      assert ms[i] in ms;
    }
  }

  /** With a candidate present, the compatibility `ready` holds exactly when the policy is valid and every requirement's
      envelope is non-empty, all PASS, not stale and not noncomparable. */
  lemma FormsAgreeOnReady(log: Log, env: Env, candidate: Record, required: seq<string>, policyError: bool,
                          envelopes: map<string, Envelope>)
    requires candidate.Candidate?
    requires forall q :: q in required ==> q in envelopes && IsEnvelope(envelopes[q], log, env, candidate, q)
    ensures EvidenceOf(log, env, Some(candidate), required, policyError).ready <==>
            && !policyError
            && forall q :: q in required ==> Sound(envelopes[q])
  {
    forall q | q in required
      ensures Clean(EvidenceOf(log, env, Some(candidate), required, policyError), q) <==> Sound(envelopes[q])
    {
      FormsAgreeOnClean(log, env, candidate, required, policyError, q, envelopes[q]);
    }
    ReadyIff(log, env, candidate, required, policyError);
  }

  predicate Clean(e: Evidence, q: string) {
    q !in e.missing && q !in e.failed && q !in e.unknown && q !in e.stale && q !in e.noncomparable
  }

  /** Evidence the kernel accepts for one requirement. */
  ghost predicate Sound(n: Envelope) {
    n.records != [] && AllPass(n.records) && !EnvelopeStale(n) && !EnvelopeNoncomparable(n)
  }

  lemma FormsAgreeOnClean(log: Log, env: Env, candidate: Record, required: seq<string>, policyError: bool,
                          q: string, n: Envelope)
    requires candidate.Candidate? && q in required && IsEnvelope(n, log, env, candidate, q)
    ensures Clean(EvidenceOf(log, env, Some(candidate), required, policyError), q) <==> Sound(n)
  {
    EvidenceMember(log, env, candidate, required, policyError, q);
    if n.records != [] {
      FormsAgreeOnRequirement(log, env, candidate, required, policyError, q, n);
      PassIffNeither(n.records);
    }
  }

  lemma PassIffNeither(ms: seq<Record>)
    requires forall r :: r in ms ==> IsEvidence(r)
    ensures AllPass(ms) <==> !Has(ms, Fail) && !Has(ms, Unknown)
  {
    forall i | 0 <= i < |ms| ensures IsEvidence(ms[i]) {
      assert ms[i] in ms;
    }
  }

  lemma ReadyIff(log: Log, env: Env, candidate: Record, required: seq<string>, policyError: bool)
    requires candidate.Candidate?
    ensures var e := EvidenceOf(log, env, Some(candidate), required, policyError);
            e.ready <==> !policyError && forall q :: q in required ==> Clean(e, q)
  {
    var e, tally := EvidenceOf(log, env, Some(candidate), required, policyError), Tallies(log, env, candidate.id);
    forall q ensures OnSome(e, q) ==> q in required {
      ListsMember(tally, required, q);
    }
    AllClean(e, required);
  }

  predicate OnSome(e: Evidence, q: string) {
    q in e.missing || q in e.failed || q in e.unknown || q in e.stale || q in e.noncomparable
  }

  lemma AllClean(e: Evidence, required: seq<string>)
    requires forall q :: OnSome(e, q) ==> q in required
    ensures (e.missing == {} && e.unknown == {} && e.failed == {} && e.stale == {} && e.noncomparable == {}) <==>
            forall q :: q in required ==> Clean(e, q)
  {
    var all := e.missing + e.unknown + e.failed + e.stale + e.noncomparable;
    if q :| q in all {
      assert OnSome(e, q) && !Clean(e, q);
    }
    if q :| q in required && !Clean(e, q) {
      assert q in all;
    }
  }

  /** The forms part exactly where the fold hides an unclear record behind a stale one and nothing else is wrong: the
      compatibility form then calls the requirement stale and not comparable, the envelope only stale. */
  lemma FoldHidesUnclear(log: Log, env: Env, candidate: Record, required: seq<string>, policyError: bool,
                         q: string, n: Envelope)
    requires candidate.Candidate? && q in required && IsEnvelope(n, log, env, candidate, q) && n.records != []
    ensures var e := EvidenceOf(log, env, Some(candidate), required, policyError);
            (q in e.noncomparable) != EnvelopeNoncomparable(n)
            <==> && SomeStale(n.records, env, candidate.id) && SomeUnclear(n.records, env, candidate.id)
                 && n.comparable && n.environment && n.policy && n.authority
  {
    EvidenceMember(log, env, candidate, required, policyError, q);
    OffIsSomeFlaw(n.records, env, candidate.id, q);
  }

  /** ... and there is a history on which they part. */
  lemma FoldHidesSomething() returns (log: Log, env: Env, candidate: Record, n: Envelope)
    ensures candidate.Candidate? && IsEnvelope(n, log, env, candidate, "q")
    ensures "q" in EvidenceOf(log, env, Some(candidate), ["q"], false).noncomparable && !EnvelopeNoncomparable(n)
  {
    candidate := Candidate("c", None, "e", 0);
    var stale := WorkflowResult("s", "c", false, "q", Pass, None, 0);
    var unclear := WorkflowResult("u", "c", false, "q", Pass, None, 0);
    env := Env(Development, "c", map[], map[], "p", ["q"], false, map["s" := Stale, "u" := Unclear],
               map[], map[], map[], map[]);
    log := [stale, unclear];
    n := PartsOn(log, env, candidate, stale, unclear);
  }

  lemma PartsOn(log: Log, env: Env, candidate: Record, stale: Record, unclear: Record) returns (n: Envelope)
    requires candidate.Candidate? && stale in log && unclear in log
    requires forall r :: r in log ==> r == stale || r == unclear
    requires SpeaksFor(stale, candidate.id, "q") && SpeaksFor(unclear, candidate.id, "q")
    requires stale.WorkflowResult? && unclear.WorkflowResult? && stale.id in env.freshness
    requires unclear.id in env.freshness
    requires env.freshness[stale.id] == Stale && env.freshness[unclear.id] == Unclear && env.authority == map[]
    requires env.comparability == map[] && env.keys == map[] && env.environments == map[] && env.policies == map[]
    ensures IsEnvelope(n, log, env, candidate, "q")
    ensures "q" in EvidenceOf(log, env, Some(candidate), ["q"], false).noncomparable && !EnvelopeNoncomparable(n)
  {
    var ms := Matches(log, candidate.id, "q");
    HiddenIn(ms, env, candidate.id, stale, unclear);
    n := Envelope(ms, Stale, true, true, true, true);
    OffIsSomeFlaw(ms, env, candidate.id, "q");
    FoldHidesUnclear(log, env, candidate, ["q"], false, "q", n);
  }

  lemma HiddenIn(ms: seq<Record>, env: Env, c: Id, stale: Record, unclear: Record)
    requires stale in ms && unclear in ms && forall r :: r in ms ==> r == stale || r == unclear
    requires stale.WorkflowResult? && unclear.WorkflowResult? && stale.id in env.freshness
    requires unclear.id in env.freshness
    requires env.freshness[stale.id] == Stale && env.freshness[unclear.id] == Unclear
    requires env.comparability == map[] && env.keys == map[] && env.environments == map[] && env.policies == map[]
    ensures SomeStale(ms, env, c) && SomeUnclear(ms, env, c)
    ensures AllComparable(ms, env) && AllSameEnvironment(ms, env, "q") && AllSamePolicy(ms, env, "q")
  {
    var i :| 0 <= i < |ms| && ms[i] == stale;
    var j :| 0 <= j < |ms| && ms[j] == unclear;
    assert IsStale(env, c, ms[i]) && IsUnclear(env, c, ms[j]);
    forall k | 0 <= k < |ms|
      ensures DeclaredComparable(env, ms[k]) && SameEnvironment(env, "q", ms[k]) && SamePolicy(env, "q", ms[k])
    {
      assert ms[k] in ms;
    }
  }

  /* ---- Evidence is sticky ---- */

  /** Records never leave the envelope when the history grows. */
  lemma MatchesGrow(log: Log, more: Log, c: Id, q: string, r: Record)
    requires r in Matches(log, c, q)
    ensures r in Matches(log + more, c, q)
  {
    assert r in log + more;
  }

  /** Once a required check has a FAIL or UNKNOWN record, nothing later clears the blocker while it stays required. */
  lemma FailureIsSticky(log: Log, more: Log, env: Env, candidate: Record, required: seq<string>, policyError: bool,
                        q: string, r: Record)
    requires candidate.Candidate? && q in required
    requires r in log && SpeaksFor(r, candidate.id, q) && StatusOf(r) != Pass
    ensures BlockerOf(EvidenceOf(log + more, env, Some(candidate), required, policyError)).Some?
  {
    var ms := Matches(log + more, candidate.id, q);
    MatchesGrow(log, more, candidate.id, q, r);
    var i :| 0 <= i < |ms| && ms[i] == r;
    assert Has(ms, StatusOf(r));
    EvidenceMember(log + more, env, candidate, required, policyError, q);
  }

  /** No blocker means: the policy is valid, every required check has a record, and all its records are PASS, current,
      comparable, and taken under the authority the epoch began with. */
  lemma NoBlockerMeans(log: Log, env: Env, candidate: Record, required: seq<string>, policyError: bool, q: string)
    requires candidate.Candidate? && q in required
    requires BlockerOf(EvidenceOf(log, env, Some(candidate), required, policyError)).None?
    ensures !policyError && EvidenceOf(log, env, Some(candidate), required, policyError).ready
    ensures EvidenceOf(log, env, Some(candidate), required, policyError).status == Pass
    ensures AuthorityMatches(log, env, candidate)
    ensures Matches(log, candidate.id, q) != []
    ensures forall r :: r in log && SpeaksFor(r, candidate.id, q) ==>
              && StatusOf(r) == Pass && FreshnessOf(env, candidate.id, r) == Current
              && DeclaredComparable(env, r) && EnvironmentMatches(env, q, r) && PolicyMatches(env, q, r)
  {
    var ms, c := Matches(log, candidate.id, q), candidate.id;
    EvidenceMember(log, env, candidate, required, policyError, q);
    forall r | r in log && SpeaksFor(r, c, q)
      ensures && StatusOf(r) == Pass && FreshnessOf(env, c, r) == Current
              && DeclaredComparable(env, r) && EnvironmentMatches(env, q, r) && PolicyMatches(env, q, r)
    {
      assert r in ms;
      var i :| 0 <= i < |ms| && ms[i] == r;
      assert !IsStale(env, c, ms[i]) && !IsOff(env, c, q, ms[i]);
    }
  }

  /* ---- What counts as evidence, field by field ---- */

  /** The fields that make a record speak for a check of a candidate: a candidate-scoped workflow result of that
      candidate and workflow, or a development verifier result of that candidate and verifier. */
  predicate Concerns(r: Record, c: Id, q: string) {
    match r
    case WorkflowResult(_, candidate, projectScoped, workflow, _, _, _) =>
      candidate == c && workflow == q && projectScoped == false
    case VerifierResult(_, _, verifier, mode, candidate, _, _, _, _, _, _) =>
      candidate == c && verifier == q && mode != Evaluator
    case _ => false
  }

  /** A required check is missing exactly when no record of the candidate names it. */
  lemma MissingIff(log: Log, env: Env, candidate: Record, required: seq<string>, policyError: bool, q: string)
    requires candidate.Candidate? && q in required
    ensures q in EvidenceOf(log, env, Some(candidate), required, policyError).missing <==>
            forall r :: r in log ==> !Concerns(r, candidate.id, q)
  {
    EvidenceMember(log, env, candidate, required, policyError, q);
    NoneMatches(log, candidate.id, q);
  }

  lemma NoneMatches(log: Log, c: Id, q: string)
    ensures Matches(log, c, q) == [] <==> forall r :: r in log ==> !Concerns(r, c, q)
  {
    var ms := Matches(log, c, q);
    if ms != [] {
      assert ms[0] in ms;
    }
  }

  lemma {:induction false} NamesMember(required: seq<string>, q: string)
    ensures q in Names(required) <==> q in required
  {
    if required != [] {
      NamesMember(required[..|required| - 1], q);
      assert required == required[..|required| - 1] + [required[|required| - 1]];
    }
  }

  /** Without a candidate every required check is missing and nothing is ready. */
  lemma NoCandidateNoEvidence(log: Log, env: Env, required: seq<string>, policyError: bool, q: string)
    ensures var e := EvidenceOf(log, env, None, required, policyError);
            && (q in e.missing <==> q in required) && e.present == {} && !e.ready && e.status == Unknown
  {
    NamesMember(required, q);
  }

  /** Failed, and otherwise unknown, exactly when some record of the candidate for the check says so. */
  lemma VerdictIff(log: Log, env: Env, candidate: Record, required: seq<string>, policyError: bool, q: string)
    requires candidate.Candidate? && q in required
    ensures var e := EvidenceOf(log, env, Some(candidate), required, policyError);
            && (q in e.failed <==> exists r :: r in log && Concerns(r, candidate.id, q) && r.status == Fail)
            && (q in e.unknown <==> && q !in e.failed
                                    && exists r :: r in log && Concerns(r, candidate.id, q) && r.status == Unknown)
  {
    EvidenceMember(log, env, candidate, required, policyError, q);
    HasIff(log, candidate.id, q, Fail);
    HasIff(log, candidate.id, q, Unknown);
  }

  lemma HasIff(log: Log, c: Id, q: string, s: Status)
    ensures Has(Matches(log, c, q), s) <==> exists r :: r in log && Concerns(r, c, q) && r.status == s
  {
    var ms := Matches(log, c, q);
    if Has(ms, s) {
      var i :| 0 <= i < |ms| && IsEvidence(ms[i]) && StatusOf(ms[i]) == s;
      assert ms[i] in ms && Concerns(ms[i], c, q);
    }
    if r :| r in log && Concerns(r, c, q) && r.status == s {
      assert r in ms;
      var i :| 0 <= i < |ms| && ms[i] == r;
      assert IsEvidence(ms[i]) && StatusOf(ms[i]) == s;
    }
  }

  /** Records that name no check of the candidate, and are no epoch, change nothing: another candidate's results,
      project results and evaluator results never count. */
  lemma EvidenceIsolated(log: Log, env: Env, candidate: Record, required: seq<string>, policyError: bool, r: Record)
    requires candidate.Candidate? && !r.Epoch?
    requires r.WorkflowResult? ==> r.candidate != candidate.id || r.projectScoped
    requires r.VerifierResult? ==> r.candidate != candidate.id || r.mode == Evaluator
    ensures EvidenceOf(log + [r], env, Some(candidate), required, policyError)
         == EvidenceOf(log, env, Some(candidate), required, policyError)
  {
    var all := log + [r];
    assert all[..|log|] == log;
    forall q ensures TallyOf(all, env, candidate.id, q) == TallyOf(log, env, candidate.id, q) {
      SelectSame(log, r, candidate.id, q, true);
      SelectSame(log, r, candidate.id, q, false);
    }
    ListsSame(Tallies(all, env, candidate.id), Tallies(log, env, candidate.id), required);
    assert EpochOf(all, candidate.sourceEpoch) == EpochOf(log, candidate.sourceEpoch);
  }

  lemma SelectSame(log: Log, r: Record, c: Id, q: string, workflows: bool)
    requires !SpeaksFor(r, c, q)
    ensures Select(log + [r], c, q, workflows) == Select(log, c, q, workflows)
  {
    assert (log + [r])[..|log|] == log;
  }

  lemma {:induction false} ListsSame(s: string -> Tally, t: string -> Tally, required: seq<string>)
    requires forall q :: s(q) == t(q)
    ensures ListsOf(s, required) == ListsOf(t, required)
  {
    if required != [] {
      ListsSame(s, t, required[..|required| - 1]);
    }
  }

  /* ---- What makes evidence incomparable or stale, field by field ---- */

  /** A record of the candidate for the check that differs from what is observed in any one field puts the check on the
      list of incomparable ones; declared staleness puts it on the stale list. */
  lemma OneFieldOff(log: Log, env: Env, candidate: Record, required: seq<string>, policyError: bool, q: string,
                    r: Record)
    requires candidate.Candidate? && q in required && r in log && Concerns(r, candidate.id, q)
    ensures var e := EvidenceOf(log, env, Some(candidate), required, policyError);
            && (r.id in env.freshness && env.freshness[r.id] == Stale ==> q in e.stale)
            && (r.id in env.freshness && env.freshness[r.id] == Unclear ==> q in e.noncomparable)
            && (r.id !in env.freshness && candidate.id != env.candidate ==> q in e.noncomparable)
            && (r.id !in env.freshness && r.VerifierResult? && r.inputCandidate != Some(env.candidate) ==>
                  q in e.noncomparable)
            && (r.id in env.comparability && env.comparability[r.id] != Some(true) ==> q in e.noncomparable)
            && (r.WorkflowResult? && q in env.keys && r.keys == None ==> q in e.noncomparable)
            && (r.WorkflowResult? && q in env.keys && r.keys.Some? ==>
                  multiset(r.keys.value) != multiset(env.keys[q]) ==> q in e.noncomparable)
            && (r.VerifierResult? && q in env.environments && r.environment != env.environments[q] ==>
                  q in e.noncomparable)
            && (r.VerifierResult? && q in env.policies && r.policy != env.policies[q] ==> q in e.noncomparable)
  {
    EvidenceMember(log, env, candidate, required, policyError, q);
    var ms := Matches(log, candidate.id, q);
    assert r in ms;
    var i :| 0 <= i < |ms| && ms[i] == r;
    assert IsStale(env, candidate.id, ms[i]) ==> SomeStale(ms, env, candidate.id);
    assert IsOff(env, candidate.id, q, ms[i]) ==> SomeOff(ms, env, candidate.id, q);
  }

  /** A record that agrees with what is observed in every field. */
  predicate Agrees(env: Env, q: string, r: Record)
    requires IsEvidence(r)
  {
    && (r.id in env.freshness ==> env.freshness[r.id] == Current)
    && (r.id in env.comparability ==> env.comparability[r.id] == Some(true))
    && (r.WorkflowResult? ==> q in env.keys ==> r.keys == Some(env.keys[q]))
    && (r.VerifierResult? ==> && (r.id !in env.freshness ==> r.inputCandidate == Some(env.candidate))
                              && (q in env.environments ==> r.environment == env.environments[q])
                              && (q in env.policies ==> r.policy == env.policies[q]))
  }

  /** Where every record of an observed candidate agrees, under the authority its epoch began with, a check is neither
      stale nor incomparable. */
  lemma AllFieldsAgree(log: Log, env: Env, candidate: Record, required: seq<string>, policyError: bool, q: string)
    requires candidate.Candidate? && q in required && candidate.id == env.candidate
    requires forall r :: r in log && Concerns(r, candidate.id, q) ==> Agrees(env, q, r)
    requires forall e :: e in log && e.Epoch? && e.id == candidate.sourceEpoch ==> e.authority == env.authority
    ensures var e := EvidenceOf(log, env, Some(candidate), required, policyError);
            q !in e.stale && q !in e.noncomparable
  {
    EvidenceMember(log, env, candidate, required, policyError, q);
    EpochFound(log, candidate.sourceEpoch);
    var ms := Matches(log, candidate.id, q);
    forall i | 0 <= i < |ms| ensures !IsStale(env, candidate.id, ms[i]) && !IsOff(env, candidate.id, q, ms[i]) {
      assert ms[i] in ms && Concerns(ms[i], candidate.id, q);
      AgreesClean(env, q, ms[i]);
    }
  }

  lemma AgreesClean(env: Env, q: string, r: Record)
    requires IsEvidence(r) && Agrees(env, q, r)
    ensures !IsStale(env, env.candidate, r) && !IsOff(env, env.candidate, q, r)
  {
  }

  lemma {:induction false} EpochFound(log: Log, id: Id)
    ensures EpochOf(log, id).Some? ==> && EpochOf(log, id).value in log && EpochOf(log, id).value.Epoch?
                                       && EpochOf(log, id).value.id == id
    ensures EpochOf(log, id).None? ==> forall e :: e in log && e.Epoch? ==> e.id != id
  {
    if log != [] {
      EpochFound(log[..|log| - 1], id);
      assert log == log[..|log| - 1] + [log[|log| - 1]];
    }
  }

  /** When the authority now observed is not the one the candidate's epoch was begun under, every check that has a
      record is incomparable. */
  lemma AuthorityDrift(log: Log, env: Env, candidate: Record, required: seq<string>, policyError: bool, q: string,
                       r: Record)
    requires candidate.Candidate? && q in required && r in log && Concerns(r, candidate.id, q)
    requires env.authority != map[] && exists e :: e in log && e.Epoch? && e.id == candidate.sourceEpoch
    requires forall e :: e in log && e.Epoch? && e.id == candidate.sourceEpoch ==> e.authority != env.authority
    ensures q in EvidenceOf(log, env, Some(candidate), required, policyError).noncomparable
  {
    EvidenceMember(log, env, candidate, required, policyError, q);
    EpochFound(log, candidate.sourceEpoch);
    assert r in Matches(log, candidate.id, q);
  }

  /** The summary: FAIL exactly with a failed check, PASS exactly when ready. */
  lemma StatusIff(log: Log, env: Env, candidate: Record, required: seq<string>, policyError: bool)
    requires candidate.Candidate?
    ensures var e := EvidenceOf(log, env, Some(candidate), required, policyError);
            && (e.status == Fail <==> e.failed != {}) && (e.status == Pass <==> e.ready)
            && (forall q :: q in e.present <==> q in required && q !in e.missing)
  {
    var e := EvidenceOf(log, env, Some(candidate), required, policyError);
    forall q ensures q in e.present <==> q in required && q !in e.missing {
      ListsMember(Tallies(log, env, candidate.id), required, q);
    }
  }

  /** Which blocker is reported: an invalid plan first, then failed, missing, unknown, stale and incomparable
      evidence. */
  lemma BlockerOrder(e: Evidence)
    ensures BlockerOf(e) == Some(PlanInvalid) <==> e.policyError
    ensures BlockerOf(e) == Some(Failed) <==> !e.policyError && e.failed != {}
    ensures BlockerOf(e) == Some(Incomplete) <==> !e.policyError && e.failed == {} && e.missing != {}
    ensures BlockerOf(e) == Some(UnknownEvidence) <==>
            !e.policyError && e.failed == {} && e.missing == {} && e.unknown != {}
    ensures BlockerOf(e) == Some(StaleEvidence) <==>
            !e.policyError && e.failed == {} && e.missing == {} && e.unknown == {} && e.stale != {}
    ensures BlockerOf(e).None? <==>
            && !e.policyError && e.failed == {} && e.missing == {} && e.unknown == {} && e.stale == {}
            && e.noncomparable == {}
  {
  }

  /** The record is a PASS that agrees with what is observed in every field. */
  ghost predicate Vouches(env: Env, c: Id, q: string, r: Record)
    requires IsEvidence(r)
  {
    && r.status == Pass
    && (r.id in env.freshness ==> env.freshness[r.id] == Current) && (r.id !in env.freshness ==> c == env.candidate)
    && (r.id in env.comparability ==> env.comparability[r.id] == Some(true))
    && (r.WorkflowResult? ==> q in env.keys ==> r.keys.Some? && multiset(r.keys.value) == multiset(env.keys[q]))
    && (r.VerifierResult? ==> && (r.id !in env.freshness ==> r.inputCandidate == Some(env.candidate))
                              && (q in env.environments ==> r.environment == env.environments[q])
                              && (q in env.policies ==> r.policy == env.policies[q]))
  }

  /** Unblocked evidence, field by field: every required check has a record of the candidate, and every one of them
      vouches for it. */
  lemma UnblockedFields(log: Log, env: Env, candidate: Record, required: seq<string>, policyError: bool, q: string)
    requires candidate.Candidate? && q in required
    requires BlockerOf(EvidenceOf(log, env, Some(candidate), required, policyError)).None?
    ensures exists r :: r in log && Concerns(r, candidate.id, q)
    ensures forall r :: r in log && Concerns(r, candidate.id, q) ==> Vouches(env, candidate.id, q, r)
  {
    var e := EvidenceOf(log, env, Some(candidate), required, policyError);
    BlockerOrder(e);
    MissingIff(log, env, candidate, required, policyError, q);
    VerdictIff(log, env, candidate, required, policyError, q);
    forall r | r in log && Concerns(r, candidate.id, q) ensures Vouches(env, candidate.id, q, r) {
      OneFieldOff(log, env, candidate, required, policyError, q, r);
    }
  }
}
