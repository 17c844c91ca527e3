/** What parsing a record accepts, refuses and keeps, field by field. */
module Parsing {
  import opened Records
  import opened Migration

  /* ---- Nesting ---- */

  /** One step into a value. */
  datatype Turn = Index(i: nat) | Name(k: string)

  ghost predicate Within(j: Json, t: Turn) {
    match t
    case Index(i) => j.Arr? && i < |j.items|
    case Name(k) => j.Obj? && k in j.fields
  }

  ghost function Inner(j: Json, t: Turn): Json
    requires Within(j, t)
  {
    if t.Index? then j.items[t.i] else j.fields[t.k]
  }

  ghost predicate Leads(j: Json, path: seq<Turn>)
    decreases |path|
  {
    path != [] ==> Within(j, path[0]) && Leads(Inner(j, path[0]), path[1..])
  }

  /** A value fits exactly when no path into it goes deeper than 64 levels. */
  lemma {:induction false} FitsIff(j: Json, depth: nat)
    ensures Fits(j, depth) <==> forall path :: Leads(j, path) ==> depth + |path| <= 64
    decreases j
  {
    if Fits(j, depth) {
      forall path | Leads(j, path) ensures depth + |path| <= 64 {
        NoPathDeeper(j, depth, path);
      }
    } else {
      var path := SomePathDeeper(j, depth);
    }
  }

  lemma {:induction false} NoPathDeeper(j: Json, depth: nat, path: seq<Turn>)
    requires Fits(j, depth) && Leads(j, path)
    ensures depth + |path| <= 64
    decreases |path|
  {
    if path != [] {
      NoPathDeeper(Inner(j, path[0]), depth + 1, path[1..]);
    }
  }

  lemma {:induction false} SomePathDeeper(j: Json, depth: nat) returns (path: seq<Turn>)
    requires !Fits(j, depth)
    ensures Leads(j, path) && depth + |path| > 64
    decreases j
  {
    if depth > 64 {
      path := [];
    } else {
      var t: Turn;
      if j.Arr? {
        var i :| 0 <= i < |j.items| && !Fits(j.items[i], depth + 1);
        t := Index(i);
        path := SomePathDeeper(j.items[i], depth + 1);
      } else {
        var k :| k in j.fields && !Fits(j.fields[k], depth + 1);
        t := Name(k);
        path := SomePathDeeper(j.fields[k], depth + 1);
      }
      assert ([t] + path)[1..] == path;
      path := [t] + path;
    }
  }

  /* ---- What an identity covers ---- */

  /** The field takes part in the identity of its record. */
  predicate Visible(spec: Spec, k: string) {
    k !in spec.exclusions && spec.identityField != Some(k)
  }

  /** What the current identity is taken over: the two tags, and every visible field with its value. */
  ghost predicate Covers(p: Fields, spec: Spec, d: Fields) {
    && (forall k :: k in p <==> (k in d && Visible(spec, k)) || k == "record_type" || k == "schema_version")
    && (forall k :: k in d && Visible(spec, k) ==> p[k] == d[k])
    && p["record_type"] == Str(spec.name) && p["schema_version"] == Str("1")
  }

  lemma DerivedCovers(spec: Spec, d: Fields, p: Fields)
    requires Covers(p, spec, d) && "record_type" !in d && "schema_version" !in d
    ensures DerivedIdentity(spec, d) == spec.identity(p)
  {
    assert p == Tags(spec.name, CURRENT) + (d - Hidden(spec));
  }

  /** Every field set has such a cover, and only one. */
  lemma CoverOf(spec: Spec, d: Fields) returns (p: Fields)
    requires "record_type" !in d && "schema_version" !in d
    ensures Covers(p, spec, d) && forall q :: Covers(q, spec, d) ==> q == p
  {
    p := Tags(spec.name, CURRENT) + (d - Hidden(spec));
    forall q | Covers(q, spec, d) ensures q == p {
      assert q.Keys == p.Keys;
    }
  }

  /* ---- Current records ---- */

  /** The fields of a raw record besides its two tags. */
  function Content(raw: Json): Fields
    requires raw.Obj?
  {
    raw.fields - {"record_type", "schema_version"}
  }

  predicate Declares(raw: Json, kind: string, version: string) {
    && raw.Obj? && "record_type" in raw.fields && raw.fields["record_type"] == Str(kind)
    && "schema_version" in raw.fields && raw.fields["schema_version"] == Str(version)
  }

  /** The field checks every record has to pass. */
  ghost predicate Complete(spec: Spec, d: Fields) {
    && (forall k :: k in spec.required ==> k in d) && (forall k :: k in d ==> k in spec.allowed)
    && ("extensions" in d ==> d["extensions"].Null? || d["extensions"].Obj?)
    && spec.valid(d)
  }

  lemma CheckedIff(spec: Spec, d: Fields, version: string)
    ensures Checked(spec, d, version).Ok? <==> Complete(spec, d)
    ensures Checked(spec, d, version).Ok? ==>
              var m := Checked(spec, d, version).value;
              m.kind == spec.name && m.version == version && ThawFields(m.fields) == d
    ensures (exists k :: k in spec.required && k !in d) ==> Checked(spec, d, version) == Err(MissingField)
    ensures (forall k :: k in spec.required ==> k in d) && (exists k :: k in d && k !in spec.allowed) ==>
              Checked(spec, d, version) == Err(UnknownField)
  {
    ThawFreezeFields(d);
  }

  /** The identity field holds the identity of the tags and the visible fields, whatever set of fields covers them. */
  ghost predicate Authentic(spec: Spec, d: Fields) {
    forall f :: spec.identityField == Some(f) ==>
      f in d && forall p :: Covers(p, spec, d) ==> d[f] == Str(spec.identity(p))
  }

  lemma AuthenticIff(spec: Spec, d: Fields)
    requires "record_type" !in d && "schema_version" !in d
    ensures Authentic(spec, d) <==>
            spec.identityField.None? || Get(d, spec.identityField.value) == Str(DerivedIdentity(spec, d))
  {
    var p := CoverOf(spec, d);
    DerivedCovers(spec, d, p);
  }

  /** Parsing accepts a record as current exactly when it nests within the limit, declares the expected type and version
      1, passes the field checks and holds its own identity; and it keeps the content as it is. */
  lemma CurrentIff(spec: Spec, raw: Json)
    ensures Normalize(spec, raw).Ok? && Normalize(spec, raw).value.version == "1" <==>
            && Fits(raw, 0) && Declares(raw, spec.name, "1")
            && Complete(spec, Content(raw)) && Authentic(spec, Content(raw))
    ensures Normalize(spec, raw).Ok? && Normalize(spec, raw).value.version == "1" ==>
              var m := Normalize(spec, raw).value; m.kind == spec.name && ThawFields(m.fields) == Content(raw)
  {
    if raw.Obj? {
      var d := Content(raw);
      CheckedIff(spec, d, CURRENT);
      AuthenticIff(spec, d);
      LegacyVersion(spec, d, true);
      LegacyVersion(spec, d, false);
    }
  }

  lemma LegacyVersion(spec: Spec, d: Fields, restore: bool)
    ensures Legacy(spec, d, restore).Ok? ==> Legacy(spec, d, restore).value.version == "0.1-unversioned" != "1"
  {
  }

  /** What a record that is not current is told, in the order of the tests: an untagged one is read as it stands, one
      that was migrated before has its preserved fields put back, the others are refused. */
  lemma Routes(spec: Spec, raw: Json)
    ensures !Fits(raw, 0) || !raw.Obj? ==> Normalize(spec, raw) == Err(RecordMalformed)
    ensures Fits(raw, 0) && raw.Obj? ==>
              var kind, version := Get(raw.fields, "record_type"), Get(raw.fields, "schema_version");
              && (kind.Null? && version.Null? ==> Normalize(spec, raw) == Legacy(spec, Content(raw), false))
              && (Declares(raw, spec.name, "0.1-unversioned") ==>
                    Normalize(spec, raw) == Legacy(spec, Content(raw), true))
              && (kind.Null? != version.Null? ==> Normalize(spec, raw) == Err(RecordMetadata))
              && (!kind.Null? && !version.Null? ==>
                    && (kind != Str(spec.name) ==> Normalize(spec, raw) == Err(RecordTypeMismatch))
                    && (kind == Str(spec.name) && version !in {Str("0.1-unversioned"), Str("1")} ==>
                          Normalize(spec, raw) == Err(UnsupportedVersion))
                    && (Declares(raw, spec.name, "1") && Complete(spec, Content(raw)) ==>
                          !Authentic(spec, Content(raw)) ==> Normalize(spec, raw) == Err(RecordIdentity)))
  {
    if raw.Obj? {
      CheckedIff(spec, Content(raw), CURRENT);
      AuthenticIff(spec, Content(raw));
    }
  }

  ghost predicate AcceptedCurrent(spec: Spec, raw: Json) {
    Normalize(spec, raw).Ok? && Normalize(spec, raw).value.version == "1"
  }

  /** With an identity that tells field sets apart, the identity of an accepted record pins every visible field. */
  lemma IdentityPins(spec: Spec, a: Json, b: Json, f: string)
    requires WellFormed(spec) && Injective(spec.identity) && spec.identityField == Some(f)
    requires AcceptedCurrent(spec, a) && AcceptedCurrent(spec, b) && Get(a.fields, f) == Get(b.fields, f)
    ensures forall k :: Visible(spec, k) ==> (k in a.fields <==> k in b.fields)
    ensures forall k :: Visible(spec, k) && k in a.fields ==> a.fields[k] == b.fields[k]
  {
    CurrentIff(spec, a);
    CurrentIff(spec, b);
    var p := CoverOf(spec, Content(a));
    var q := CoverOf(spec, Content(b));
    assert Content(a)[f] == Str(spec.identity(p)) && Content(b)[f] == Str(spec.identity(q));
    assert p == q;
    forall k | Visible(spec, k)
      ensures (k in a.fields <==> k in b.fields) && (k in a.fields ==> a.fields[k] == b.fields[k])
    {
      if k != "record_type" && k != "schema_version" {
        assert k in a.fields <==> k in Content(a);
        assert k in b.fields <==> k in Content(b);
        assert k in p <==> k in Content(a);
      }
    }
  }

  /** So a current record with one visible field changed, added or removed and everything else kept is refused. */
  lemma TamperRefused(spec: Spec, a: Json, b: Json, f: string, k: string)
    requires WellFormed(spec) && Injective(spec.identity) && spec.identityField == Some(f)
    requires AcceptedCurrent(spec, a) && b.Obj? && Visible(spec, k)
    requires (k in a.fields) != (k in b.fields) || (k in a.fields && a.fields[k] != b.fields[k])
    requires Get(a.fields, f) == Get(b.fields, f)
    ensures !AcceptedCurrent(spec, b)
  {
    if AcceptedCurrent(spec, b) {
      IdentityPins(spec, a, b, f);
    }
  }

  /** `new_record` keeps the fields it is given and adds the identity where none came; it refuses a supplied one that is
      not the record's own. */
  lemma NewRecordMeans(spec: Spec, d: Fields)
    ensures ("record_type" in d || "schema_version" in d) ==> NewRecord(spec, d) == Err(MetadataSpoof)
    ensures "record_type" !in d && "schema_version" !in d && !Fits(Obj(d), 0) ==>
              NewRecord(spec, d) == Err(RecordMalformed)
    ensures "record_type" !in d && "schema_version" !in d && Fits(Obj(d), 0) ==>
              match spec.identityField
              case None =>
                && (NewRecord(spec, d).Ok? <==> Complete(spec, d))
                && (NewRecord(spec, d).Ok? ==> ThawFields(NewRecord(spec, d).value.fields) == d)
              case Some(f) =>
                forall p :: Covers(p, spec, d) ==>
                  if Get(d, f).Null? then
                    && (NewRecord(spec, d).Ok? <==> Complete(spec, d[f := Str(spec.identity(p))]))
                    && (NewRecord(spec, d).Ok? ==>
                          ThawFields(NewRecord(spec, d).value.fields) == d[f := Str(spec.identity(p))])
                  else if d[f] != Str(spec.identity(p)) then NewRecord(spec, d) == Err(RecordIdentity)
                  else
                    && (NewRecord(spec, d).Ok? <==> Complete(spec, d))
                    && (NewRecord(spec, d).Ok? ==> ThawFields(NewRecord(spec, d).value.fields) == d)
    ensures NewRecord(spec, d).Ok? ==>
              NewRecord(spec, d).value.kind == spec.name && NewRecord(spec, d).value.version == "1"
  {
    CheckedIff(spec, d, CURRENT);
    if spec.identityField.Some? && "record_type" !in d && "schema_version" !in d {
      var f := spec.identityField.value;
      forall p | Covers(p, spec, d) ensures DerivedIdentity(spec, d) == spec.identity(p) {
        DerivedCovers(spec, d, p);
      }
      CheckedIff(spec, d[f := Str(DerivedIdentity(spec, d))], CURRENT);
    }
  }

  /* ---- Legacy records ---- */

  /** The record carries fields an earlier migration preserved. */
  predicate HasPreserved(d: Fields) {
    && "extensions" in d && d["extensions"].Obj?
    && "legacy_unknown_fields" in d["extensions"].fields && d["extensions"].fields["legacy_unknown_fields"].Obj?
  }

  /** What a historical identity was taken over: every visible field with its value, preserved ones back in their place
      when they are to be restored. */
  ghost predicate Historical(p: Fields, spec: Spec, d: Fields, restore: bool) {
    if restore && HasPreserved(d) then
      var ext := d["extensions"].fields;
      var back := ext["legacy_unknown_fields"].fields;
      && (forall k :: k in p <==>
            k in back || (k in d && Visible(spec, k) && (k == "extensions" ==> |ext| > 1)))
      && (forall k :: k in back ==> p[k] == back[k])
      && (forall k :: k in p && k !in back ==>
            p[k] == if k == "extensions" then Obj(ext - {"legacy_unknown_fields"}) else d[k])
    else (forall k :: k in p <==> k in d && Visible(spec, k)) && (forall k :: k in p ==> p[k] == d[k])
  }

  lemma HistoricalIs(p: Fields, spec: Spec, d: Fields, restore: bool)
    requires WellFormed(spec)
    ensures Historical(p, spec, d, restore) <==> p == Restored(Projection(spec, d), restore)
  {
    RestoredHistorical(spec, d, restore);
    if Historical(p, spec, d, restore) {
      HistoricalUnique(p, Restored(Projection(spec, d), restore), spec, d, restore);
    }
  }

  lemma HistoricalUnique(p: Fields, q: Fields, spec: Spec, d: Fields, restore: bool)
    requires Historical(p, spec, d, restore) && Historical(q, spec, d, restore)
    ensures p == q
  {
    assert p.Keys == q.Keys;
  }

  lemma RestoredHistorical(spec: Spec, d: Fields, restore: bool)
    requires WellFormed(spec)
    ensures Historical(Restored(Projection(spec, d), restore), spec, d, restore)
  {
    var q := Projection(spec, d);
    if restore && HasPreserved(d) {
      OthersLeft(d["extensions"].fields);
      assert HoldsUnknowns(q) && q[EXTENSIONS] == d["extensions"];
    }
  }

  lemma OthersLeft(ext: Fields)
    requires UNKNOWNS in ext
    ensures ext - {UNKNOWNS} != map[] <==> |ext| > 1
  {
    var rest := ext - {UNKNOWNS};
    assert ext.Keys == rest.Keys + {UNKNOWNS};
    assert |ext.Keys| == |ext| && |rest.Keys| == |rest|;
  }

  /** The identity field holds the historical identity of the record. */
  ghost predicate Reproduced(spec: Spec, f: string, d: Fields, restore: bool) {
    f in d && forall p :: Historical(p, spec, d, restore) ==> d[f] == Str(spec.identity(p))
  }

  lemma ReproducedIff(spec: Spec, f: string, d: Fields, restore: bool)
    requires WellFormed(spec) && spec.identityField == Some(f)
    ensures Reproduced(spec, f, d, restore) <==> Reproduces(spec, d, restore)
  {
    HistoricalIs(Restored(Projection(spec, d), restore), spec, d, restore);
    forall p | Historical(p, spec, d, restore) ensures p == Restored(Projection(spec, d), restore) {
      HistoricalIs(p, spec, d, restore);
    }
  }

  /** A legacy record is refused for its identity exactly when it does not hold its historical one, taken with the
      subject type or, where that may have been defaulted, without it. */
  lemma LegacyIdentity(spec: Spec, d: Fields, restore: bool)
    requires WellFormed(spec)
    ensures Legacy(spec, d, restore) != Err(RecordIdentity) <==>
            forall f :: spec.identityField == Some(f) ==>
              || Reproduced(spec, f, d, restore)
              || (&& spec.legacySubject && "subject_type" in d && d["subject_type"] == Str("candidate")
                  && Reproduced(spec, f, d - {"subject_type"}, restore))
  {
    if spec.identityField.Some? {
      ReproducedIff(spec, spec.identityField.value, d, restore);
      ReproducedIff(spec, spec.identityField.value, d - {SUBJECT}, restore);
    }
  }

  /** With an identity that tells field sets apart, two accepted unversioned records of one identity hold the same
      visible fields, but for a subject type that says candidate. */
  lemma LegacyPins(spec: Spec, a: Fields, b: Fields, f: string, k: string)
    requires WellFormed(spec) && Injective(spec.identity) && spec.identityField == Some(f)
    requires Legacy(spec, a, false).Ok? && Legacy(spec, b, false).Ok? && Get(a, f) == Get(b, f)
    requires Visible(spec, k) && (spec.legacySubject ==> k != "subject_type")
    ensures (k in a <==> k in b) && (k in a ==> a[k] == b[k])
  {
    var p := LegacyCover(spec, a, f);
    var q := LegacyCover(spec, b, f);
    assert spec.identity(p) == spec.identity(q);
  }

  lemma LegacyCover(spec: Spec, d: Fields, f: string) returns (p: Fields)
    requires WellFormed(spec) && spec.identityField == Some(f) && Legacy(spec, d, false).Ok?
    ensures f in d && d[f] == Str(spec.identity(p))
    ensures forall k :: Visible(spec, k) && (spec.legacySubject ==> k != "subject_type") ==>
              (k in p <==> k in d) && (k in d ==> p[k] == d[k])
  {
    LegacyIdentity(spec, d, false);
    p := Projection(spec, d);
    HistoricalIs(p, spec, d, false);
    if !Reproduced(spec, f, d, false) {
      p := Projection(spec, d - {SUBJECT});
      HistoricalIs(p, spec, d - {SUBJECT}, false);
    }
  }

  /** What a migrated record holds: the known fields as they were, the unknown ones under the preservation key beside
      the extensions there were, the subject type defaulted, and nothing else. */
  ghost predicate Keeps(spec: Spec, d: Fields, out: Fields) {
    && (forall k :: k in d && k in spec.allowed && k != "extensions" ==> k in out && out[k] == d[k])
    && (forall k :: k in out && k !in d ==> k in {"extensions", "subject_type"})
    && (spec.legacySubject && "subject_type" !in d ==> Get(out, "subject_type") == Str("candidate"))
    && (!spec.legacySubject && "subject_type" !in d ==> "subject_type" !in out)
    && ((forall k :: k in d ==> k in spec.allowed) ==> Get(out, "extensions") == Get(d, "extensions"))
    && ((exists k :: k in d && k !in spec.allowed) ==> HasPreserved(out) && Preserves(spec, d, out))
  }

  lemma LegacyKeeps(spec: Spec, d: Fields, restore: bool)
    requires WellFormed(spec) && Legacy(spec, d, restore).Ok?
    ensures var m := Legacy(spec, d, restore).value;
            m.kind == spec.name && m.version == "0.1-unversioned" && Keeps(spec, d, ThawFields(m.fields))
  {
    var k := Preserved(spec, Defaulted(spec, d)).value;
    CheckedIff(spec, k, LEGACY);
    MovedBare(spec, d);
    if Migration.Unknown(spec, d) == {} {
      NothingMoved(spec, d);
    } else {
      SomethingMoved(spec, d, Defaulted(spec, d));
    }
  }

  lemma NothingMoved(spec: Spec, d: Fields)
    requires WellFormed(spec) && Migration.Unknown(spec, d) == {}
    ensures Keeps(spec, d, Defaulted(spec, d))
  {
    forall k | k in d ensures k in spec.allowed {
      assert k !in Migration.Unknown(spec, d);
    }
  }

  lemma SomethingMoved(spec: Spec, d: Fields, e: Fields)
    requires WellFormed(spec) && Migration.Unknown(spec, d) != {} && e == Defaulted(spec, d)
    requires Get(e, EXTENSIONS).Null? || Get(e, EXTENSIONS).Obj?
    requires UNKNOWNS !in Extensions(e)
    ensures Keeps(spec, d, Moved(spec, e))
  {
    MovedBare(spec, d);
    var out := Moved(spec, e);
    MovedPreserves(spec, d, e);
    var u :| u in Migration.Unknown(spec, d);
    assert u in d && u !in spec.allowed;
  }

  lemma MovedPreserves(spec: Spec, d: Fields, e: Fields)
    requires WellFormed(spec) && e == Defaulted(spec, d) && UNKNOWNS !in Extensions(e)
    requires Get(e, EXTENSIONS).Null? || Get(e, EXTENSIONS).Obj?
    ensures HasPreserved(Moved(spec, e)) && Preserves(spec, d, Moved(spec, e))
  {
    var ext := Moved(spec, e)["extensions"].fields;
    assert ext == Extensions(e)[UNKNOWNS := Obj(map k | k in Migration.Unknown(spec, e) :: e[k])];
    assert ext.Keys - {UNKNOWNS} == Extensions(e).Keys;
  }

  ghost predicate Preserves(spec: Spec, d: Fields, out: Fields)
    requires HasPreserved(out)
  {
    var ext := out["extensions"].fields;
    var kept := ext["legacy_unknown_fields"].fields;
    && (forall k :: k in kept <==> k in d && k !in spec.allowed) && (forall k :: k in kept ==> kept[k] == d[k])
    && (forall e :: e in ext && e != "legacy_unknown_fields" ==>
          && "extensions" in d && d["extensions"].Obj?
          && e in d["extensions"].fields && ext[e] == d["extensions"].fields[e])
    && ("extensions" in d ==>
          && (d["extensions"].Null? || d["extensions"].Obj?)
          && (d["extensions"].Obj? ==> d["extensions"].fields.Keys == ext.Keys - {"legacy_unknown_fields"}))
  }

  /** A record with unknown fields whose extensions are no object, or hold the preservation key already, is refused. */
  lemma LegacyConflict(spec: Spec, d: Fields, restore: bool, k: string)
    requires WellFormed(spec) && Legacy(spec, d, restore) != Err(RecordIdentity) && k in d && k !in spec.allowed
    requires "extensions" in d
    ensures !d["extensions"].Null? && !d["extensions"].Obj? ==> Legacy(spec, d, restore) == Err(RecordMalformed)
    ensures d["extensions"].Obj? && "legacy_unknown_fields" in d["extensions"].fields ==>
              Legacy(spec, d, restore) == Err(ExtensionConflict)
  {
    MovedBare(spec, d);
    assert k in Migration.Unknown(spec, d);
  }
}
