/** Record codecs: freezing, record-derived identities, and migration of unversioned records. */
module Migration {
  import opened Records

  /** JSON values; a number with a fraction or exponent is kept as its text. */
  datatype Json =
    | Null | Bool(b: bool) | Num(n: int) | Float(text: string) | Str(s: string)
    | Arr(items: seq<Json>) | Obj(fields: Fields)

  type Fields = map<string, Json>

  /** The immutable form held by a record: tuples and read-only mappings. */
  datatype Frozen =
    | FNull | FBool(b: bool) | FNum(n: int) | FFloat(text: string) | FStr(s: string)
    | FTuple(items: seq<Frozen>) | FMapping(fields: map<string, Frozen>)

  function FreezeJson(j: Json): Frozen {
    match j
    case Null => FNull
    case Bool(b) => FBool(b)
    case Num(n) => FNum(n)
    case Float(t) => FFloat(t)
    case Str(s) => FStr(s)
    case Arr(xs) => FTuple(seq(|xs|, i requires 0 <= i < |xs| => FreezeJson(xs[i])))
    case Obj(m) => FMapping(map k | k in m :: FreezeJson(m[k]))
  }

  function ThawJson(j: Frozen): Json {
    match j
    case FNull => Null
    case FBool(b) => Bool(b)
    case FNum(n) => Num(n)
    case FFloat(t) => Float(t)
    case FStr(s) => Str(s)
    case FTuple(xs) => Arr(seq(|xs|, i requires 0 <= i < |xs| => ThawJson(xs[i])))
    case FMapping(m) => Obj(map k | k in m :: ThawJson(m[k]))
  }

  lemma {:induction false} ThawFreeze(j: Json)
    ensures ThawJson(FreezeJson(j)) == j
  {
    match j
    case Arr(xs) =>
      forall i | 0 <= i < |xs| ensures ThawJson(FreezeJson(xs[i])) == xs[i] {
        ThawFreeze(xs[i]);
      }
    case Obj(m) =>
      forall k | k in m ensures ThawJson(FreezeJson(m[k])) == m[k] {
        ThawFreeze(m[k]);
      }
    case _ =>
  }

  lemma {:induction false} FreezeThaw(j: Frozen)
    ensures FreezeJson(ThawJson(j)) == j
  {
    match j
    case FTuple(xs) =>
      forall i | 0 <= i < |xs| ensures FreezeJson(ThawJson(xs[i])) == xs[i] {
        FreezeThaw(xs[i]);
      }
    case FMapping(m) =>
      forall k | k in m ensures FreezeJson(ThawJson(m[k])) == m[k] {
        FreezeThaw(m[k]);
      }
    case _ =>
  }

  const NESTING_LIMIT := 64

  /** Nested no deeper than the limit, when found at the given depth. */
  predicate Fits(j: Json, depth: nat)
    decreases j
  {
    && depth <= NESTING_LIMIT
    && match j
       case Arr(xs) => forall i :: 0 <= i < |xs| ==> Fits(xs[i], depth + 1)
       case Obj(m) => forall k :: k in m ==> Fits(m[k], depth + 1)
       case _ => true
  }

  /* ---- Record types ---- */

  /** One entry of the record table. `identity` stands for the hash of the canonical form with its prefix, `valid` for
      the field checks of the type. */
  datatype Spec = Spec(name: string, identityField: Option<string>, exclusions: set<string>, required: set<string>,
                       allowed: set<string>, legacySubject: bool, identity: Fields -> string, valid: Fields -> bool)

  const EXTENSIONS := "extensions"
  const UNKNOWNS := "legacy_unknown_fields"
  const SUBJECT := "subject_type"
  const LEGACY := "0.1-unversioned"
  const CURRENT := "1"

  function Hidden(spec: Spec): set<string> {
    spec.exclusions + if spec.identityField.Some? then {spec.identityField.value} else {}
  }

  /** What every entry of the table satisfies. */
  predicate WellFormed(spec: Spec) {
    && Hidden(spec) <= spec.allowed && EXTENSIONS in spec.allowed && EXTENSIONS !in Hidden(spec)
    && (spec.legacySubject ==> SUBJECT in spec.allowed && SUBJECT !in Hidden(spec))
    && "record_type" !in spec.allowed && "schema_version" !in spec.allowed
  }

  datatype Code =
    | RecordMalformed | RecordMetadata | RecordTypeMismatch | UnsupportedVersion | RecordIdentity | ExtensionConflict
    | MissingField | UnknownField | InvalidFields | MetadataSpoof

  datatype Model = Model(kind: string, version: string, fields: map<string, Frozen>)

  function FreezeFields(d: Fields): map<string, Frozen> {
    map k | k in d :: FreezeJson(d[k])
  }

  function ThawFields(m: map<string, Frozen>): Fields {
    map k | k in m :: ThawJson(m[k])
  }

  function Tags(kind: string, version: string): Fields {
    map["record_type" := Str(kind), "schema_version" := Str(version)]
  }

  function ToJson(m: Model): Json {
    Obj(Tags(m.kind, m.version) + ThawFields(m.fields))
  }

  /** The value of a key, with an absent key read as null. */
  function Get(d: Fields, k: string): Json {
    if k in d then d[k] else Null
  }

  /** `_validate_fields`, then the model. */
  function Checked(spec: Spec, d: Fields, version: string): Result<Model, Code> {
    if !(spec.required <= d.Keys) then Err(MissingField)
    else if !(d.Keys <= spec.allowed) then Err(UnknownField)
    else if !Get(d, EXTENSIONS).Null? && !Get(d, EXTENSIONS).Obj? then Err(RecordMalformed)
    else if !spec.valid(d) then Err(InvalidFields)
    else Ok(Model(spec.name, version, FreezeFields(d)))
  }

  /* ---- Current records ---- */

  /** The current identity covers the metadata as well. */
  function DerivedIdentity(spec: Spec, d: Fields): string {
    spec.identity(Tags(spec.name, CURRENT) + (d - Hidden(spec)))
  }

  function NewRecord(spec: Spec, d: Fields): Result<Model, Code> {
    if "record_type" in d || "schema_version" in d then Err(MetadataSpoof)
    else if !Fits(Obj(d), 0) then Err(RecordMalformed)
    else if spec.identityField.None? then Checked(spec, d, CURRENT)
    else
      var supplied, expected := Get(d, spec.identityField.value), Str(DerivedIdentity(spec, d));
      if supplied.Null? then Checked(spec, d[spec.identityField.value := expected], CURRENT)
      else if supplied != expected then Err(RecordIdentity)
      else Checked(spec, d, CURRENT)
  }

  /* ---- Legacy records ---- */

  function Projection(spec: Spec, d: Fields): Fields {
    d - Hidden(spec)
  }

  predicate HoldsUnknowns(d: Fields) {
    EXTENSIONS in d && d[EXTENSIONS].Obj? && UNKNOWNS in d[EXTENSIONS].fields && d[EXTENSIONS].fields[UNKNOWNS].Obj?
  }

  /** Undo the preservation of unknown fields before hashing. */
  function Restored(p: Fields, restore: bool): Fields {
    if restore && HoldsUnknowns(p) then
      var ext := p[EXTENSIONS].fields;
      var rest := ext - {UNKNOWNS};
      (if rest != map[] then p[EXTENSIONS := Obj(rest)] else p - {EXTENSIONS}) + ext[UNKNOWNS].fields
    else p
  }

  predicate Reproduces(spec: Spec, d: Fields, restore: bool)
    requires spec.identityField.Some?
  {
    Get(d, spec.identityField.value) == Str(spec.identity(Restored(Projection(spec, d), restore)))
  }

  /** The historical identity reproduces, with the defaulted subject type or without it. */
  predicate IdentityHolds(spec: Spec, d: Fields, restore: bool) {
    spec.identityField.Some? ==>
      || Reproduces(spec, d, restore)
      || (spec.legacySubject && Get(d, SUBJECT) == Str("candidate") && Reproduces(spec, d - {SUBJECT}, restore))
  }

  function Defaulted(spec: Spec, d: Fields): Fields {
    if spec.legacySubject && SUBJECT !in d then d[SUBJECT := Str("candidate")] else d
  }

  function Unknown(spec: Spec, d: Fields): set<string> {
    d.Keys - spec.allowed
  }

  function Extensions(d: Fields): Fields {
    if Get(d, EXTENSIONS).Obj? then d[EXTENSIONS].fields else map[]
  }

  function Moved(spec: Spec, d: Fields): Fields {
    var unknown := Unknown(spec, d);
    (d - unknown)[EXTENSIONS := Obj(Extensions(d)[UNKNOWNS := Obj(map k | k in unknown :: d[k])])]
  }

  /** Preserve unknown fields under `extensions`. */
  function Preserved(spec: Spec, d: Fields): Result<Fields, Code> {
    if Unknown(spec, d) == {} then Ok(d)
    else if !Get(d, EXTENSIONS).Null? && !Get(d, EXTENSIONS).Obj? then Err(RecordMalformed)
    else if UNKNOWNS in Extensions(d) then Err(ExtensionConflict)
    else Ok(Moved(spec, d))
  }

  function Legacy(spec: Spec, d: Fields, restore: bool): Result<Model, Code> {
    if !IdentityHolds(spec, d, restore) then Err(RecordIdentity)
    else
      var kept :- Preserved(spec, Defaulted(spec, d));
      Checked(spec, kept, LEGACY)
  }

  function Normalize(spec: Spec, raw: Json): Result<Model, Code> {
    if !Fits(raw, 0) || !raw.Obj? then Err(RecordMalformed)
    else
      var kind, version := Get(raw.fields, "record_type"), Get(raw.fields, "schema_version");
      var d := raw.fields - {"record_type", "schema_version"};
      if kind.Null? && version.Null? then Legacy(spec, d, false)
      else if kind.Null? || version.Null? then Err(RecordMetadata)
      else if kind != Str(spec.name) then Err(RecordTypeMismatch)
      else if version == Str(LEGACY) then Legacy(spec, d, true)
      else if version != Str(CURRENT) then Err(UnsupportedVersion)
      else
        var m :- Checked(spec, d, CURRENT);
        if spec.identityField.Some? && Get(d, spec.identityField.value) != Str(DerivedIdentity(spec, d))
        then Err(RecordIdentity)
        else Ok(m)
  }

  /** Migration as the registry performs it, popping and assigning the entries of a dictionary. */
  method MigrateInPlace(spec: Spec, input: Fields, restore: bool) returns (r: Result<Model, Code>)
    requires WellFormed(spec)
    ensures r == Legacy(spec, input, restore)
  {
    var data := input;
    if spec.identityField.Some? {
      var matches := Reproduces(spec, data, restore);
      if !matches && spec.legacySubject && Get(data, SUBJECT) == Str("candidate") {
        matches := Reproduces(spec, data - {SUBJECT}, restore);
      }
      if !matches {
        return Err(RecordIdentity);
      }
    }
    if spec.legacySubject && SUBJECT !in data {
      data := data[SUBJECT := Str("candidate")];
    }
    var unknown := data.Keys - spec.allowed;
    if unknown != {} {
      var preserved;
      data, preserved := PopAll(data, unknown);
      var existing := Get(data, EXTENSIONS);
      if !existing.Null? && !existing.Obj? {
        return Err(RecordMalformed);
      }
      var extensions := if existing.Obj? then existing.fields else map[];
      if UNKNOWNS in extensions {
        return Err(ExtensionConflict);
      }
      extensions := extensions[UNKNOWNS := Obj(preserved)];
      data := data[EXTENSIONS := Obj(extensions)];
    }
    return Checked(spec, data, LEGACY);
  }

  /** Pop the given keys one by one. */
  method PopAll(d: Fields, keys: set<string>) returns (rest: Fields, popped: Fields)
    requires keys <= d.Keys
    ensures rest == d - keys && popped == map k | k in keys :: d[k]
  {
    rest, popped := d, map[];
    var todo := keys;
    while todo != {}
      invariant todo <= keys && rest == d - (keys - todo) && popped == map k | k in keys - todo :: d[k]
    {
      var k :| k in todo;
      popped := popped[k := rest[k]];
      rest := rest - {k};
      todo := todo - {k};
    }
  }

  /* ---- Reading a written record back ---- */

  lemma ThawFreezeFields(d: Fields)
    ensures ThawFields(FreezeFields(d)) == d
  {
    forall k | k in d ensures ThawJson(FreezeJson(d[k])) == d[k] {
      ThawFreeze(d[k]);
    }
  }

  /** What a checked record writes carries its tags, and its fields beneath them. */
  lemma WrittenForm(spec: Spec, d: Fields, version: string)
    requires WellFormed(spec) && d.Keys <= spec.allowed
    ensures var raw := ToJson(Model(spec.name, version, FreezeFields(d)));
            && raw.Obj? && raw.fields == Tags(spec.name, version) + d
            && Get(raw.fields, "record_type") == Str(spec.name) && Get(raw.fields, "schema_version") == Str(version)
            && raw.fields - {"record_type", "schema_version"} == d
  {
    ThawFreezeFields(d);
  }

  lemma TaggedFits(kind: string, version: string, d: Fields)
    ensures Fits(Obj(Tags(kind, version) + d), 0) ==> Fits(Obj(d), 0)
    ensures "record_type" !in d && "schema_version" !in d && Fits(Obj(d), 0) ==> Fits(Obj(Tags(kind, version) + d), 0)
  {
    var all := Tags(kind, version) + d;
    if Fits(Obj(all), 0) {
      forall k | k in d ensures Fits(d[k], 1) {
        assert k in all && all[k] == d[k];
      }
    }
  }

  /** The fields with the identity filled in where none was supplied. */
  function Identified(spec: Spec, d: Fields): Fields {
    if spec.identityField.Some? && Get(d, spec.identityField.value).Null?
    then d[spec.identityField.value := Str(DerivedIdentity(spec, d))] else d
  }

  lemma NewRecordForm(spec: Spec, d: Fields)
    requires NewRecord(spec, d).Ok?
    ensures var e := Identified(spec, d);
            && NewRecord(spec, d) == Checked(spec, e, CURRENT) && Fits(Obj(e), 0)
            && (spec.identityField.Some? ==> Get(e, spec.identityField.value) == Str(DerivedIdentity(spec, e)))
  {
    assert Identified(spec, d) - Hidden(spec) == d - Hidden(spec);
  }

  /** A record `new_record` built re-parses to itself, whatever its type and fields. */
  lemma NewRecordReparses(spec: Spec, d: Fields)
    requires WellFormed(spec) && NewRecord(spec, d).Ok?
    ensures Normalize(spec, ToJson(NewRecord(spec, d).value)) == NewRecord(spec, d)
  {
    var e := Identified(spec, d);
    NewRecordForm(spec, d);
    WrittenForm(spec, e, CURRENT);
    TaggedFits(spec.name, CURRENT, e);
  }

  /* ---- Migration is a fixed point, and exactly when ---- */

  /** The unknown values still nest within the limit two levels further in. */
  predicate NestsDeeper(spec: Spec, d: Fields) {
    forall k :: k in Unknown(spec, d) ==> Fits(d[k], 3)
  }

  /** The caller-visible condition under which the historical identity survives. */
  predicate Survives(spec: Spec, d: Fields, restore: bool) {
    spec.identityField.Some? ==>
      if Unknown(spec, d) == {} then restore || !HoldsUnknowns(d)
      else EXTENSIONS !in d || (d[EXTENSIONS].Obj? && d[EXTENSIONS].fields != map[])
  }

  /** What migration leaves is migrated already. */
  lemma PreservedStable(spec: Spec, d: Fields)
    requires WellFormed(spec) && Preserved(spec, Defaulted(spec, d)).Ok?
    ensures var k := Preserved(spec, Defaulted(spec, d)).value;
            k.Keys <= spec.allowed && Defaulted(spec, k) == k && Preserved(spec, k) == Ok(k)
  {
  }

  lemma PreservedFits(spec: Spec, d: Fields)
    requires WellFormed(spec) && Fits(Obj(d), 0) && Preserved(spec, d).Ok?
    ensures Fits(Obj(Preserved(spec, d).value), 0) <==> NestsDeeper(spec, d)
  {
    var k, unknown := Preserved(spec, d).value, Unknown(spec, d);
    if unknown != {} {
      var inner: Fields := map u | u in unknown :: d[u];
      var ext := Extensions(d)[UNKNOWNS := Obj(inner)];
      assert k[EXTENSIONS] == Obj(ext) && ext[UNKNOWNS] == Obj(inner);
      if Fits(Obj(k), 0) {
        assert Fits(k[EXTENSIONS], 1) && Fits(ext[UNKNOWNS], 2);
        forall u | u in unknown ensures Fits(d[u], 3) {
          assert inner[u] == d[u];
        }
      }
      if NestsDeeper(spec, d) {
        assert Fits(Obj(inner), 2);
        forall e | e in ext ensures Fits(ext[e], 2) {
          if e != UNKNOWNS {
            assert Fits(d[EXTENSIONS], 1);
          }
        }
        assert Fits(Obj(ext), 1);
      }
    }
  }

  /** Putting the unknown fields back gives the projection they were taken from. */
  lemma RestoreUndoesMove(spec: Spec, d: Fields)
    requires WellFormed(spec) && Unknown(spec, d) != {} && UNKNOWNS !in Extensions(d)
    requires EXTENSIONS !in d || (d[EXTENSIONS].Obj? && d[EXTENSIONS].fields != map[])
    ensures Restored(Projection(spec, Moved(spec, d)), true) == Projection(spec, d)
  {
    var p := Projection(spec, Moved(spec, d));
    var ext := p[EXTENSIONS].fields;
    assert HoldsUnknowns(p);
    assert ext - {UNKNOWNS} == Extensions(d);
  }

  /** With an empty or null `extensions` the restored projection has lost the key. */
  lemma RestoreDropsKey(spec: Spec, d: Fields)
    requires WellFormed(spec) && Unknown(spec, d) != {} && Extensions(d) == map[]
    ensures EXTENSIONS !in Restored(Projection(spec, Moved(spec, d)), true)
  {
    var p := Projection(spec, Moved(spec, d));
    assert HoldsUnknowns(p);
    assert p[EXTENSIONS].fields - {UNKNOWNS} == map[];
  }

  /** A JSON object is not a value two levels inside itself. */
  lemma {:induction false} NotWithinItself(j: Json)
    requires j.Obj? && UNKNOWNS in j.fields && j.fields[UNKNOWNS].Obj? && EXTENSIONS in j.fields[UNKNOWNS].fields
    ensures j.fields[UNKNOWNS].fields[EXTENSIONS] != j
  {
    assert j.fields[UNKNOWNS].fields[EXTENSIONS] < j.fields[UNKNOWNS] < j;
  }

  /** Restoring really changes a projection that holds preserved fields. */
  lemma RestoreChanges(p: Fields, q: Fields)
    requires HoldsUnknowns(p) && EXTENSIONS in q && q[EXTENSIONS] == p[EXTENSIONS]
    ensures Restored(p, true) != q
  {
    var ext := p[EXTENSIONS].fields;
    var inner, r := ext[UNKNOWNS].fields, Restored(p, true);
    if EXTENSIONS in inner {
      NotWithinItself(p[EXTENSIONS]);
      assert r[EXTENSIONS] == inner[EXTENSIONS];
    } else if ext - {UNKNOWNS} != map[] {
      assert r[EXTENSIONS] == Obj(ext - {UNKNOWNS});
      assert UNKNOWNS !in r[EXTENSIONS].fields;
    } else {
      assert EXTENSIONS !in r;
    }
  }

  /** The identity taken without the subject type. */
  function Bare(spec: Spec, d: Fields): Fields {
    if spec.legacySubject then d - {SUBJECT} else d
  }

  lemma MovedBare(spec: Spec, d: Fields)
    requires WellFormed(spec)
    ensures Bare(spec, Moved(spec, d)) == Moved(spec, Bare(spec, d)) && Unknown(spec, Bare(spec, d)) == Unknown(spec, d)
    ensures Extensions(Bare(spec, d)) == Extensions(d)
    ensures Bare(spec, Defaulted(spec, d)) == Bare(spec, d) && Unknown(spec, Defaulted(spec, d)) == Unknown(spec, d)
    ensures Extensions(Defaulted(spec, d)) == Extensions(d) && (HoldsUnknowns(Defaulted(spec, d)) <==> HoldsUnknowns(d))
  {
    var a, b := Bare(spec, Moved(spec, d)), Moved(spec, Bare(spec, d));
    assert Unknown(spec, Bare(spec, d)) == Unknown(spec, d);
    assert Unknown(spec, Defaulted(spec, d)) == Unknown(spec, d);
    var e := Bare(spec, d);
    assert (map k | k in Unknown(spec, d) :: d[k]) == (map k | k in Unknown(spec, e) :: e[k]);
    assert a == b;
  }

  /** Which form of a record the supplied identity was taken over: the record as it is, or without its subject type. */
  lemma IdentityForms(spec: Spec, d: Fields, restore: bool)
    requires WellFormed(spec) && spec.identityField.Some?
    ensures IdentityHolds(spec, d, restore) <==>
            || Reproduces(spec, d, restore)
            || (spec.legacySubject && Get(d, SUBJECT) == Str("candidate") && Reproduces(spec, Bare(spec, d), restore))
  {
  }

  /** The projection of the migrated record, undone, is the projection of the original. */
  lemma MigratedProjection(spec: Spec, d: Fields)
    requires WellFormed(spec) && Preserved(spec, d).Ok? && spec.identityField.Some?
    requires Survives(spec, d, false)
    ensures Restored(Projection(spec, Preserved(spec, d).value), true) == Projection(spec, d)
    ensures Restored(Projection(spec, d), false) == Projection(spec, d)
  {
    if Unknown(spec, d) != {} {
      RestoreUndoesMove(spec, d);
    } else {
      assert HoldsUnknowns(Projection(spec, d)) <==> HoldsUnknowns(d);
    }
  }

  lemma MigratedKeeps(spec: Spec, d: Fields)
    requires WellFormed(spec) && spec.identityField.Some? && Preserved(spec, Defaulted(spec, d)).Ok?
    ensures var k, id := Preserved(spec, Defaulted(spec, d)).value, spec.identityField.value;
            && Get(k, id) == Get(Bare(spec, k), id) == Get(d, id) == Get(Bare(spec, d), id)
            && (spec.legacySubject ==> Get(k, SUBJECT) == Get(Defaulted(spec, d), SUBJECT))
            && (Defaulted(spec, d) != d ==> Bare(spec, Defaulted(spec, d)) == d && Get(k, SUBJECT) == Str("candidate"))
  {
  }

  /** Under the condition, what migration produced reproduces the historical identity. */
  lemma IdentitySurvives(spec: Spec, d: Fields, restore: bool)
    requires WellFormed(spec) && IdentityHolds(spec, d, restore) && Preserved(spec, Defaulted(spec, d)).Ok?
    requires Survives(spec, d, restore)
    ensures IdentityHolds(spec, Preserved(spec, Defaulted(spec, d)).value, true)
  {
    if spec.identityField.Some? {
      var e, k := Defaulted(spec, d), Preserved(spec, Defaulted(spec, d)).value;
      MovedBare(spec, d);
      MovedBare(spec, e);
      if Unknown(spec, d) == {} && HoldsUnknowns(d) {
        assert k == e && restore;
        assert e != d ==> e - {SUBJECT} == d;
      } else {
        SurvivesAlone(spec, d, restore);
        MigratedProjection(spec, e);
        MigratedProjection(spec, Bare(spec, e));
        MigratedKeeps(spec, d);
        IdentityForms(spec, d, restore);
        IdentityForms(spec, k, true);
        if Reproduces(spec, d, restore) {
          assert if e == d then Reproduces(spec, k, true) else Reproduces(spec, Bare(spec, k), true);
        } else {
          assert Reproduces(spec, Bare(spec, k), true);
        }
      }
    }
  }

  /** Away from already preserved fields it does not matter how the record was first read. */
  lemma SurvivesAlone(spec: Spec, d: Fields, restore: bool)
    requires WellFormed(spec) && spec.identityField.Some? && Survives(spec, d, restore)
    requires Preserved(spec, Defaulted(spec, d)).Ok? && !(Unknown(spec, d) == {} && HoldsUnknowns(d))
    ensures var e := Defaulted(spec, d);
            && Survives(spec, e, false) && Survives(spec, Bare(spec, e), false) && Preserved(spec, Bare(spec, e)).Ok?
            && Preserved(spec, Bare(spec, e)).value == Bare(spec, Preserved(spec, e).value)
            && Restored(Projection(spec, d), restore) == Projection(spec, d)
            && Restored(Projection(spec, Bare(spec, d)), restore) == Projection(spec, Bare(spec, d))
  {
    MovedBare(spec, d);
    MovedBare(spec, Defaulted(spec, d));
    assert !HoldsUnknowns(d);
  }

  ghost predicate Injective(f: Fields -> string) {
    forall a, b :: f(a) == f(b) ==> a == b
  }

  /** Outside it, an injective identity no longer reproduces. */
  lemma IdentityLost(spec: Spec, d: Fields, restore: bool)
    requires WellFormed(spec) && IdentityHolds(spec, d, restore) && Preserved(spec, Defaulted(spec, d)).Ok?
    requires !Survives(spec, d, restore) && Injective(spec.identity)
    ensures !IdentityHolds(spec, Preserved(spec, Defaulted(spec, d)).value, true)
  {
    var e, k := Defaulted(spec, d), Preserved(spec, Defaulted(spec, d)).value;
    MovedBare(spec, d);
    MovedBare(spec, e);
    MigratedKeeps(spec, d);
    IdentityForms(spec, d, restore);
    IdentityForms(spec, k, true);
    if Unknown(spec, d) == {} {
      var ps := {Projection(spec, k), Projection(spec, Bare(spec, k))};
      var qs := {Projection(spec, d), Projection(spec, Bare(spec, d))};
      forall p, q | p in ps && q in qs
        ensures Restored(p, true) != Restored(q, restore)
      {
        RestoreChanges(p, q);
      }
    } else {
      RestoreDropsKey(spec, e);
      RestoreDropsKey(spec, Bare(spec, e));
    }
  }

  /** Migration is a fixed point exactly when the identity survives and the unknown values have two levels to spare:
      parsing what a migrated record writes gives that record again. */
  lemma LegacyFixedPoint(spec: Spec, d: Fields, restore: bool)
    requires WellFormed(spec) && Injective(spec.identity) && Fits(Obj(d), 0) && Legacy(spec, d, restore).Ok?
    ensures Normalize(spec, ToJson(Legacy(spec, d, restore).value)) == Legacy(spec, d, restore)
            <==> Survives(spec, d, restore) && NestsDeeper(spec, d)
  {
    var e := Defaulted(spec, d);
    var k := Preserved(spec, e).value;
    ReparseLegacy(spec, d, restore);
    if Survives(spec, d, restore) {
      IdentitySurvives(spec, d, restore);
    } else {
      IdentityLost(spec, d, restore);
    }
  }

  /** Parsing a migrated record again comes down to nesting and identity. */
  lemma ReparseLegacy(spec: Spec, d: Fields, restore: bool)
    requires WellFormed(spec) && Fits(Obj(d), 0) && Legacy(spec, d, restore).Ok?
    ensures Normalize(spec, ToJson(Legacy(spec, d, restore).value)) ==
            if !NestsDeeper(spec, d) then Err(RecordMalformed)
            else if !IdentityHolds(spec, Preserved(spec, Defaulted(spec, d)).value, true) then Err(RecordIdentity)
            else Legacy(spec, d, restore)
  {
    var e := Defaulted(spec, d);
    var k := Preserved(spec, e).value;
    PreservedStable(spec, d);
    WrittenForm(spec, k, LEGACY);
    TaggedFits(spec.name, LEGACY, k);
    DefaultedNests(spec, d);
    PreservedFits(spec, e);
    assert Normalize(spec, ToJson(Model(spec.name, LEGACY, FreezeFields(k)))) ==
           if !Fits(Obj(k), 0) then Err(RecordMalformed) else Legacy(spec, k, true);
  }

  lemma DefaultedNests(spec: Spec, d: Fields)
    requires WellFormed(spec) && Fits(Obj(d), 0)
    ensures Fits(Obj(Defaulted(spec, d)), 0) && (NestsDeeper(spec, Defaulted(spec, d)) <==> NestsDeeper(spec, d))
  {
    MovedBare(spec, d);
  }

  /** The condition holds without injectivity too, in the direction a reader of old ledgers relies on. */
  lemma LegacySurvives(spec: Spec, raw: Json)
    requires WellFormed(spec) && Normalize(spec, raw).Ok? && Normalize(spec, raw).value.version == LEGACY
    requires var d := raw.fields - {"record_type", "schema_version"};
             Survives(spec, d, !Get(raw.fields, "record_type").Null?) && NestsDeeper(spec, d)
    ensures Normalize(spec, ToJson(Normalize(spec, raw).value)) == Normalize(spec, raw)
  {
    var d, restore := raw.fields - {"record_type", "schema_version"}, !Get(raw.fields, "record_type").Null?;
    assert Normalize(spec, raw) == Legacy(spec, d, restore);
    assert Fits(Obj(d), 0);
    ReparseLegacy(spec, d, restore);
    IdentitySurvives(spec, d, restore);
  }

  /** The condition is needed: with an empty `extensions` beside an unknown field the migrated record is refused. */
  lemma EmptyExtensionsBreak(spec: Spec, d: Fields)
    requires WellFormed(spec) && spec.identityField.Some? && Injective(spec.identity)
    requires Fits(Obj(d), 0) && Legacy(spec, d, false).Ok? && NestsDeeper(spec, d)
    requires Unknown(spec, d) != {} && Get(d, EXTENSIONS) == Obj(map[])
    ensures Normalize(spec, ToJson(Legacy(spec, d, false).value)) == Err(RecordIdentity)
  {
    ReparseLegacy(spec, d, false);
    IdentityLost(spec, d, false);
  }
}
