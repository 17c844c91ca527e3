/** The persisted Forge records the other modules reason about, and the names they are filed under. */
module Records {
  type Id = string

  type Octet = x: int | 0 <= x < 256

  datatype Option<+T> = None | Some(value: T)

  datatype Result<+T, +E> = Ok(value: T) | Err(error: E) {
    predicate IsFailure() {
      Err?
    }

    function PropagateFailure<U>(): Result<U, E>
      requires Err?
    {
      Err(error)
    }

    function Extract(): T
      requires Ok?
    {
      value
    }
  }

  datatype Status = Pass | Fail | Unknown

  datatype Mode = Development | Evaluator

  datatype Verdict = Selected | Rejected

  /** A ledger kind. Each kind has exactly one immutable record group, so a kind also names a group. */
  datatype Kind =
    | KEpoch | KCandidate | KResult | KVerifierAction | KVerifierResult
    | KDisposition | KFreeze | KEvaluation | KBundle | KOther(name: string)

  /** Records as JSON values, cut down to the fields the lifecycle reads.
      `rest` stands for every other field, so two records are equal exactly when all their fields are. */
  datatype Record =
    | Epoch(id: Id, parent: Option<Id>, authority: map<string, Id>, rest: nat)
    | Candidate(id: Id, parent: Option<Id>, sourceEpoch: Id, rest: nat)
    | WorkflowResult(id: Id, candidate: Id, projectScoped: bool, workflow: string, status: Status,
                     keys: Option<seq<string>>, rest: nat)
    | VerifierAction(id: Id, verifier: string, mode: Mode, candidate: Id, freeze: Option<Id>,
                     inputCandidate: Option<Id>, environment: Id, policy: Id, rest: nat)
    | VerifierResult(id: Id, action: Id, verifier: string, mode: Mode, candidate: Id, freeze: Option<Id>,
                     inputCandidate: Option<Id>, environment: Id, policy: Id, status: Status, rest: nat)
    | Disposition(id: Id, candidate: Id, verdict: Verdict, policy: Id, evidence: Status, rest: nat)
    | Freeze(id: Id, candidate: Id, selection: Id, bindings: map<string, Id>, rest: nat)
    | Evaluation(id: Id, candidate: Id, status: Status, rest: nat)
    | Bundle(id: Id, candidate: Id, status: Status, rest: nat)
    | Other(name: string, id: Id, rest: nat)

  function KindOf(r: Record): Kind {
    match r
    case Epoch(_, _, _, _) => KEpoch
    case Candidate(_, _, _, _) => KCandidate
    case WorkflowResult(_, _, _, _, _, _, _) => KResult
    case VerifierAction(_, _, _, _, _, _, _, _, _) => KVerifierAction
    case VerifierResult(_, _, _, _, _, _, _, _, _, _, _) => KVerifierResult
    case Disposition(_, _, _, _, _, _) => KDisposition
    case Freeze(_, _, _, _, _) => KFreeze
    case Evaluation(_, _, _, _) => KEvaluation
    case Bundle(_, _, _, _) => KBundle
    case Other(name, _, _) => KOther(name)
  }

  /** The characters a file name component keeps; every other one becomes an underscore. */
  predicate SafeChar(c: char) {
    'A' <= c <= 'Z' || 'a' <= c <= 'z' || '0' <= c <= '9' || c == '.' || c == '_' || c == '-'
  }

  function SafeName(identity: Id): string {
    if identity == "" then ""
    else [if SafeChar(identity[0]) then identity[0] else '_'] + SafeName(identity[1..])
  }

  /** Identities `safe_record_identity` accepts. */
  predicate ValidIdentity(identity: Id) {
    identity != "" && identity != "." && identity != ".."
  }

  /** The immutable file of a record: one directory per kind, one file per safe identity. */
  datatype Path = Path(kind: Kind, name: string)

  function PathOf(r: Record): Path {
    Path(KindOf(r), SafeName(r.id))
  }

  /** The characters a portable file name may hold. */
  const UPPER: string := "ABCDEFGHIJKLMNOPQRSTUVWXYZ"
  const LOWER: string := "abcdefghijklmnopqrstuvwxyz"
  const OTHERS: string := "0123456789._-"
  const PORTABLE: string := UPPER + LOWER + OTHERS

  predicate Portable(identity: Id) {
    forall i :: 0 <= i < |identity| ==> identity[i] in PORTABLE
  }

  lemma UpperLetters(c: char)
    ensures c in UPPER <==> 'A' <= c <= 'Z'
  {
    if 'A' <= c <= 'Z' {
      var i := c as int - 'A' as int;
      assert UPPER[i] == c;
    }
  }

  lemma LowerLetters(c: char)
    ensures c in LOWER <==> 'a' <= c <= 'z'
  {
    if 'a' <= c <= 'z' {
      var i := c as int - 'a' as int;
      assert LOWER[i] == c;
    }
  }

  lemma OtherPortables(c: char)
    ensures c in OTHERS <==> '0' <= c <= '9' || c == '.' || c == '_' || c == '-'
  {
    assert OTHERS[10] == '.' && OTHERS[11] == '_' && OTHERS[12] == '-';
    if '0' <= c <= '9' {
      var i := c as int - '0' as int;
      assert OTHERS[i] == c;
    }
  }

  lemma SafeCharIsPortable(c: char)
    ensures SafeChar(c) <==> c in PORTABLE
  {
    UpperLetters(c);
    LowerLetters(c);
    OtherPortables(c);
    InJoined(UPPER, LOWER, OTHERS, c);
  }

  lemma InJoined(a: string, b: string, d: string, c: char)
    ensures c in a + b + d <==> c in a || c in b || c in d
  {
  }

  /** A safe name is the identity with every other character replaced: it holds only portable characters, and an
      identity made of those is its own safe name. */
  lemma {:induction false} SafeNameKeeps(identity: Id)
    ensures |SafeName(identity)| == |identity| && Portable(SafeName(identity))
    ensures forall i :: 0 <= i < |identity| ==>
              SafeName(identity)[i] == if identity[i] in PORTABLE then identity[i] else '_'
    ensures Portable(identity) ==> SafeName(identity) == identity
  {
    if identity != "" {
      SafeNameKeeps(identity[1..]);
      SafeCharIsPortable(identity[0]);
      SafeCharIsPortable('_');
    }
  }

  /** Records of different kinds have different kinds of file: a kind tells the record type. */
  lemma KindTellsType(r: Record, s: Record)
    requires KindOf(r) == KindOf(s)
    ensures && (r.Epoch? <==> s.Epoch?) && (r.Candidate? <==> s.Candidate?)
            && (r.WorkflowResult? <==> s.WorkflowResult?) && (r.VerifierAction? <==> s.VerifierAction?)
            && (r.VerifierResult? <==> s.VerifierResult?)
            && (r.Disposition? <==> s.Disposition?) && (r.Freeze? <==> s.Freeze?) && (r.Evaluation? <==> s.Evaluation?)
            && (r.Bundle? <==> s.Bundle?) && (r.Other? <==> s.Other?) && (r.Other? ==> r.name == s.name)
  {
  }

  /** Two identities that differ can still share a file name. */
  lemma SafeNameCollides()
    ensures SafeName("a/b") == SafeName("a_b")
  {
    assert "a/b"[1..] == "/b" && "a_b"[1..] == "_b" && "/b"[1..] == "b" == "_b"[1..];
  }
}
