/** The declarative field-mapping tables of the loader (local attribute,
    remote key, optional `int_or_None` coercion), record construction from a
    payload (`api_object_data`) and field-level reconciliation of an existing
    record (`update_existing_obj`). */
module FieldMapper {
  import opened Values

  /** The four reference kinds that have a mapping table. */
  datatype Kind = Category | Tag | Author | Media

  /** One `(local, remote[, int_or_None])` entry of a mapping table. */
  datatype FieldSpec = FieldSpec(local: string, remote: string, coerced: bool)

  /** A decoded JSON object of the API. */
  type Payload = map<string, Value>

  /** The attributes of a local model instance; an attribute missing from the
      map reads as None. */
  type Fields = map<string, Value>

  /** `d.get(key)`: an absent key yields None. */
  function Get(d: map<string, Value>, key: string): Value
  {
    if key in d then d[key] else VNone
  }

  function FieldsMapping(kind: Kind): seq<FieldSpec>
  {
    match kind
    case Category => [
      FieldSpec("name", "name", false),
      FieldSpec("slug", "slug", false),
      FieldSpec("description", "description", false),
      FieldSpec("post_count", "post_count", false),
      FieldSpec("parent_wp_id", "parent", false)]
    case Tag => [
      FieldSpec("name", "name", false),
      FieldSpec("slug", "slug", false),
      FieldSpec("description", "description", false),
      FieldSpec("post_count", "post_count", false)]
    case Author => [
      FieldSpec("login", "login", false),
      FieldSpec("email", "email", false),
      FieldSpec("name", "name", false),
      FieldSpec("nice_name", "nice_name", false),
      FieldSpec("url", "URL", false),
      FieldSpec("avatar_url", "avatar_URL", false),
      FieldSpec("profile_url", "profile_URL", false)]
    case Media => [
      FieldSpec("url", "URL", false),
      FieldSpec("guid", "guid", false),
      FieldSpec("uploaded_date", "date", false),
      FieldSpec("post_ID", "post_ID", true),
      FieldSpec("file_name", "file", false),
      FieldSpec("file_extension", "extension", false),
      FieldSpec("mime_type", "mime_type", false),
      FieldSpec("width", "width", true),
      FieldSpec("height", "height", true),
      FieldSpec("title", "title", false),
      FieldSpec("caption", "caption", false),
      FieldSpec("description", "description", false),
      FieldSpec("alt", "alt", false),
      FieldSpec("exif", "exif", false)]
  }

  predicate DistinctLocals(fs: seq<FieldSpec>)
  {
    forall i, j :: 0 <= i < j < |fs| ==> fs[i].local != fs[j].local
  }

  function LocalNames(fs: seq<FieldSpec>): set<string>
  {
    set f | f in fs :: f.local
  }

  /** The entries from `lo` up to `hi` bind no local attribute that a later entry binds. */
  predicate DistinctRows(fs: seq<FieldSpec>, lo: int, hi: int)
  {
    forall i, j :: 0 <= i && lo <= i < hi && i < j < |fs| ==> fs[i].local != fs[j].local
  }

  lemma MediaHeadDistinct()
    ensures DistinctRows(FieldsMapping(Media), 0, 4)
  {
  }

  lemma MediaTailDistinct()
    ensures DistinctRows(FieldsMapping(Media), 4, 14)
  {
  }

  /** No table binds one local attribute twice. */
  lemma MappingIsDistinct(kind: Kind)
    ensures DistinctLocals(FieldsMapping(kind))
  {
    if kind == Media {
      MediaHeadDistinct();
      MediaTailDistinct();
    }
  }

  /** Only the media table coerces, and only post_ID, width and height. */
  lemma OnlyMediaCoerces(kind: Kind, f: FieldSpec)
    requires f in FieldsMapping(kind) && f.coerced
    ensures kind == Media && f.local in {"post_ID", "width", "height"}
  {
  }

  /** The value an entry binds from a payload: `coerce(d.get(remote))` or `d.get(remote)`. */
  function Incoming(f: FieldSpec, d: Payload): Value
  {
    if f.coerced then IntOrNone(Get(d, f.remote)) else Get(d, f.remote)
  }

  /** The dictionary the loop of `api_object_data` builds, entry by entry. */
  function ObjectData(fs: seq<FieldSpec>, d: Payload): (r: Fields)
    ensures r.Keys == LocalNames(fs)
    ensures DistinctLocals(fs) ==> forall i :: 0 <= i < |fs| ==> r[fs[i].local] == Incoming(fs[i], d)
    decreases |fs|
  {
    if fs == [] then map[]
    else
      var init := fs[..|fs| - 1];
      assert fs == init + [fs[|fs| - 1]];
      assert LocalNames(fs) == LocalNames(init) + {fs[|fs| - 1].local};
      ObjectData(init, d)[fs[|fs| - 1].local := Incoming(fs[|fs| - 1], d)]
  }

  /** With distinct local attributes, each entry's attribute holds its (coerced) value. */
  lemma ObjectDataAt(fs: seq<FieldSpec>, d: Payload, f: FieldSpec)
    requires DistinctLocals(fs) && f in fs
    ensures f.local in ObjectData(fs, d) && ObjectData(fs, d)[f.local] == Incoming(f, d)
  {
    var i :| 0 <= i < |fs| && fs[i] == f;
  }

  /** `api_object_data(kind, d)`: exactly the local keys of the kind's table, each
      bound to the (coerced) remote value. */
  function ApiObjectData(kind: Kind, d: Payload): (r: Fields)
    ensures r.Keys == LocalNames(FieldsMapping(kind))
    ensures forall f :: f in FieldsMapping(kind) ==> r[f.local] == Incoming(f, d)
  {
    MappingIsDistinct(kind);
    var r := ObjectData(FieldsMapping(kind), d);
    forall f | f in FieldsMapping(kind) ensures r[f.local] == Incoming(f, d) {
      ObjectDataAt(FieldsMapping(kind), d, f);
    }
    r
  }

  /** A remote key the payload lacks yields None, coerced or not. */
  lemma AbsentRemoteIsNone(kind: Kind, d: Payload, f: FieldSpec)
    requires f in FieldsMapping(kind) && f.remote !in d
    ensures ApiObjectData(kind, d)[f.local] == VNone
  {
  }

  // ----- update_existing_obj -----

  /** The comparison of the source: the current attribute against the RAW payload value. */
  predicate Differs(f: FieldSpec, rec: Fields, d: Payload)
  {
    !PyEq(Get(rec, f.local), Get(d, f.remote))
  }

  /** One iteration of the loop: assign the coerced value when the raw one differs. */
  function ReconcileStep(f: FieldSpec, rec: Fields, d: Payload): Fields
  {
    if Differs(f, rec, d) then rec[f.local := Incoming(f, d)] else rec
  }

  function ChangedNames(fs: seq<FieldSpec>, rec: Fields, d: Payload): set<string>
  {
    set f | f in fs && Differs(f, rec, d) :: f.local
  }

  /** The attributes after the loop of `update_existing_obj`. */
  function Reconciled(fs: seq<FieldSpec>, rec: Fields, d: Payload): Fields
    decreases |fs|
  {
    if fs == [] then rec else Reconciled(fs[1..], ReconcileStep(fs[0], rec, d), d)
  }

  lemma DistinctTail(fs: seq<FieldSpec>)
    requires fs != [] && DistinctLocals(fs)
    ensures DistinctLocals(fs[1..]) && fs[0].local !in LocalNames(fs[1..])
  {
    forall g | g in fs[1..] ensures g.local != fs[0].local {
      var j :| 0 <= j < |fs[1..]| && fs[1..][j] == g;
      assert fs[j + 1] == g;
    }
  }

  /** An attribute no entry of the table names is left as it was. */
  lemma {:induction false} ReconciledOutside(fs: seq<FieldSpec>, rec: Fields, d: Payload, k: string)
    requires k !in LocalNames(fs)
    ensures (k in Reconciled(fs, rec, d)) == (k in rec)
    ensures Get(Reconciled(fs, rec, d), k) == Get(rec, k)
    decreases |fs|
  {
    if fs != [] {
      assert fs[0] in fs;
      assert LocalNames(fs[1..]) <= LocalNames(fs) by {
        forall g | g in fs[1..] ensures g in fs { }
      }
      ReconciledOutside(fs[1..], ReconcileStep(fs[0], rec, d), d, k);
    }
  }

  /** A mapped attribute holds the (coerced) payload value iff its current value
      differs from the raw payload value, and otherwise is left as it was. */
  lemma {:induction false} ReconciledAt(fs: seq<FieldSpec>, rec: Fields, d: Payload, f: FieldSpec)
    requires DistinctLocals(fs) && f in fs
    ensures (f.local in Reconciled(fs, rec, d)) == (f.local in rec || Differs(f, rec, d))
    ensures Get(Reconciled(fs, rec, d), f.local) == if Differs(f, rec, d) then Incoming(f, d) else Get(rec, f.local)
    decreases |fs|
  {
    DistinctTail(fs);
    var step := ReconcileStep(fs[0], rec, d);
    if f == fs[0] {
      ReconciledOutside(fs[1..], step, d, f.local);
    } else {
      assert f in fs[1..];
      assert f.local != fs[0].local;
      ReconciledAt(fs[1..], step, d, f);
    }
  }

  /** No attribute appears but the ones the table names and the payload changes. */
  lemma ReconciledKeys(fs: seq<FieldSpec>, rec: Fields, d: Payload)
    requires DistinctLocals(fs)
    ensures Reconciled(fs, rec, d).Keys == rec.Keys + ChangedNames(fs, rec, d)
  {
    var r := Reconciled(fs, rec, d);
    forall k ensures k in r <==> k in rec || k in ChangedNames(fs, rec, d) {
      if k in LocalNames(fs) {
        var f :| f in fs && f.local == k;
        ReconciledAt(fs, rec, d, f);
        if k in ChangedNames(fs, rec, d) {
          var g :| g in fs && Differs(g, rec, d) && g.local == k;
          ReconciledAt(fs, rec, d, g);
        }
      } else {
        ReconciledOutside(fs, rec, d, k);
      }
    }
  }

  /** The `save_it` flag after the loop. */
  predicate SaveNeeded(fs: seq<FieldSpec>, rec: Fields, d: Payload)
    decreases |fs|
  {
    fs != [] && (Differs(fs[0], rec, d) || SaveNeeded(fs[1..], ReconcileStep(fs[0], rec, d), d))
  }

  /** A save happens iff some mapped attribute differs from the raw payload value;
      without one, the record is left exactly as it was. */
  lemma {:induction false} SaveNeededIffSomeDiffers(fs: seq<FieldSpec>, rec: Fields, d: Payload)
    requires DistinctLocals(fs)
    ensures SaveNeeded(fs, rec, d) <==> exists f :: f in fs && Differs(f, rec, d)
    ensures !SaveNeeded(fs, rec, d) ==> Reconciled(fs, rec, d) == rec
    decreases |fs|
  {
    if fs != [] {
      var rest := fs[1..];
      assert fs == [fs[0]] + rest;
      DistinctTail(fs);
      var step := ReconcileStep(fs[0], rec, d);
      SaveNeededIffSomeDiffers(rest, step, d);
      forall g | g in rest ensures Differs(g, step, d) == Differs(g, rec, d) {
        assert g.local != fs[0].local;
      }
    }
  }

  /** One differing attribute is enough for a save, whatever the table: the
      entries before the first difference leave the record as it was. */
  lemma {:induction false} DifferenceSaves(fs: seq<FieldSpec>, rec: Fields, d: Payload, f: FieldSpec)
    requires f in fs && Differs(f, rec, d)
    ensures SaveNeeded(fs, rec, d)
    decreases |fs|
  {
    if !Differs(fs[0], rec, d) {
      assert f in fs[1..];
      DifferenceSaves(fs[1..], rec, d, f);
    }
  }

  /** `update_existing_obj(fields, obj, d)` on a copy of the attributes: returns the
      new attributes and whether the source would call `save()`. */
  method UpdateExistingObj(fields: seq<FieldSpec>, existing: Fields, apiData: Payload)
    returns (updated: Fields, saveIt: bool)
    ensures updated == Reconciled(fields, existing, apiData)
    ensures saveIt == SaveNeeded(fields, existing, apiData)
  {
    updated := existing;
    saveIt := false;
    var i := 0;
    while i < |fields|
      invariant 0 <= i <= |fields|
      invariant Reconciled(fields, existing, apiData) == Reconciled(fields[i..], updated, apiData)
      invariant SaveNeeded(fields, existing, apiData) == (saveIt || SaveNeeded(fields[i..], updated, apiData))
    {
      var field := fields[i];
      assert fields[i..][1..] == fields[i + 1..];
      if !PyEq(Get(updated, field.local), Get(apiData, field.remote)) {
        saveIt := true;
        if field.coerced {
          updated := updated[field.local := IntOrNone(Get(apiData, field.remote))];
        } else {
          updated := updated[field.local := Get(apiData, field.remote)];
        }
      }
      i := i + 1;
    }
  }

  /** Every coerced entry's coercion leaves the raw value equal to itself. */
  predicate CoercionIsStable(fs: seq<FieldSpec>, d: Payload)
  {
    forall f :: f in fs ==> PyEq(Incoming(f, d), Get(d, f.remote))
  }

  /** After one reconciliation with a payload, a second one with the same payload
      does not save, provided coercion does not change any raw value. */
  lemma ReconcileSettles(fs: seq<FieldSpec>, rec: Fields, d: Payload)
    requires DistinctLocals(fs) && CoercionIsStable(fs, d)
    ensures !SaveNeeded(fs, Reconciled(fs, rec, d), d)
  {
    var r := Reconciled(fs, rec, d);
    SaveNeededIffSomeDiffers(fs, r, d);
    forall f | f in fs ensures !Differs(f, r, d) {
      ReconciledAt(fs, rec, d, f);
      PyEqIsEquivalence(Incoming(f, d), Get(d, f.remote), Get(d, f.remote));
    }
  }

  /** Category, tag and author updates are idempotent: repeating one with the same
      payload does not save. */
  lemma RepeatUpdateDoesNotSave(kind: Kind, rec: Fields, d: Payload)
    requires kind != Media
    ensures !SaveNeeded(FieldsMapping(kind), Reconciled(FieldsMapping(kind), rec, d), d)
  {
    MappingIsDistinct(kind);
    ReconcileSettles(FieldsMapping(kind), rec, d);
  }

  /** A record just built from a payload is in sync with it, when coercion is stable. */
  lemma CreatedRecordIsInSync(kind: Kind, d: Payload)
    requires CoercionIsStable(FieldsMapping(kind), d)
    ensures !SaveNeeded(FieldsMapping(kind), ApiObjectData(kind, d), d)
  {
    var fs := FieldsMapping(kind);
    MappingIsDistinct(kind);
    SaveNeededIffSomeDiffers(fs, ApiObjectData(kind, d), d);
  }

  /** Reconciling a record that already holds every value a payload binds leaves
      it unchanged, whether or not it saves. */
  lemma ReconciledFixed(fs: seq<FieldSpec>, rec: Fields, d: Payload)
    requires DistinctLocals(fs)
    requires forall f :: f in fs ==> f.local in rec && rec[f.local] == Incoming(f, d)
    ensures Reconciled(fs, rec, d) == rec
  {
    var r := Reconciled(fs, rec, d);
    ReconciledKeys(fs, rec, d);
    assert ChangedNames(fs, rec, d) <= rec.Keys;
    forall k | k in rec ensures r[k] == rec[k] {
      if k in LocalNames(fs) {
        var f :| f in fs && f.local == k;
        ReconciledAt(fs, rec, d, f);
      } else {
        ReconciledOutside(fs, rec, d, k);
      }
    }
  }

  /** A record just built from a payload is a fixed point of reconciliation with it. */
  lemma CreatedRecordIsFixed(kind: Kind, d: Payload)
    ensures Reconciled(FieldsMapping(kind), ApiObjectData(kind, d), d) == ApiObjectData(kind, d)
  {
    MappingIsDistinct(kind);
    ReconciledFixed(FieldsMapping(kind), ApiObjectData(kind, d), d);
  }

  /** Media is not idempotent: a media payload with width 0 is stored as None, and
      None differs from the raw 0, so every later sync saves an unchanged record. */
  lemma MediaZeroWidthResaves()
    ensures var d := map["width" := VInt(0)];
            SaveNeeded(FieldsMapping(Media), ApiObjectData(Media, d), d)
  {
    var d := map["width" := VInt(0)];
    var w := FieldSpec("width", "width", true);
    assert w in FieldsMapping(Media);
    assert Differs(w, ApiObjectData(Media, d), d);
    DifferenceSaves(FieldsMapping(Media), ApiObjectData(Media, d), d, w);
  }

}
