/**
 * The bundle manifest record and its key/value codec.
 *
 * The INI text is taken at the level its parser hands to the record: a
 * `[Bundle]` section is an ordered sequence of `key=value` entries, and a
 * whole file an ordered sequence of such sections.  Encoding writes the
 * record's fields in declaration order under their PascalCase keys and skips
 * fields that hold their default; decoding reads entries in order, rejects
 * unknown and repeated keys, and fills defaults for absent optional fields.
 */
module BundleManifest {
  import opened Wrappers
  import opened DecodeErrors
  import opened ScalarCodecs

  /** The manifest payload, the fields of the `[Bundle]` section. */
  datatype Bundle = Bundle(
    name: string,
    bundleType: BundleType,
    storeId: Option<string>,
    homebrewId: Option<string>,
    exec: Option<string>,
    encryptedImage: Option<string>,
    version: Option<string>,
    background: bool,
    preferXBoxMode: bool,
    launcher: Option<string>,
    launcherTags: seq<string>,
    launcherExec: Option<string>)

  /** The whole manifest: one record under the `Bundle` section. */
  datatype BundleConfig = BundleConfig(bundle: Bundle)

  datatype Entry = Entry(key: string, value: string)

  datatype Section = Section(name: string, entries: seq<Entry>)

  const SectionName: string := "Bundle"

  // ---------------------------------------------------------------------
  // Fields and their keys
  // ---------------------------------------------------------------------

  /** The record's fields, one per key, in declaration order. */
  datatype Field =
    | Name | Type | StoreID | HomebrewID | Exec | EncryptedImage | Version
    | Background | PreferXBoxMode | Launcher | LauncherTags | LauncherExec

  const AllFields: seq<Field> := [
    Name, Type, StoreID, HomebrewID, Exec, EncryptedImage, Version,
    Background, PreferXBoxMode, Launcher, LauncherTags, LauncherExec]

  /**
   * The key of a field: the field's name in PascalCase, except the renamed
   * `Type`, `StoreID`, `HomebrewID` and `PreferXBoxMode`.
   */
  function KeyOf(f: Field): string {
    match f
    case Name => "Name"
    case Type => "Type"
    case StoreID => "StoreID"
    case HomebrewID => "HomebrewID"
    case Exec => "Exec"
    case EncryptedImage => "EncryptedImage"
    case Version => "Version"
    case Background => "Background"
    case PreferXBoxMode => "PreferXBoxMode"
    case Launcher => "Launcher"
    case LauncherTags => "LauncherTags"
    case LauncherExec => "LauncherExec"
  }

  /** The first of `fields` whose key is exactly `key`, if any. */
  function FieldAmong(key: string, fields: seq<Field>): (r: Option<Field>)
    ensures r.Some? ==> KeyOf(r.value) == key && r.value in fields
    ensures r.None? ==> forall f :: f in fields ==> KeyOf(f) != key
  {
    if fields == [] then None
    else if KeyOf(fields[0]) == key then Some(fields[0])
    else FieldAmong(key, fields[1..])
  }

  /** The field a key names, by exact match; None for any other key. */
  function FieldOf(key: string): (r: Option<Field>)
    ensures r.Some? ==> KeyOf(r.value) == key
  {
    FieldAmong(key, AllFields)
  }

  /** Distinct fields have distinct keys. */
  lemma KeyOfInjective(f: Field, g: Field)
    ensures KeyOf(f) == KeyOf(g) ==> f == g
  {
  }

  /** Every field's key is recognised as that field. */
  lemma FieldOfKeyOf(f: Field)
    ensures FieldOf(KeyOf(f)) == Some(f)
  {
    InAllFields(f);
    var r := FieldOf(KeyOf(f));
    KeyOfInjective(f, r.value);
  }

  /** A key names a field exactly when it is that field's key. */
  lemma FieldOfIff(key: string, f: Field)
    ensures FieldOf(key) == Some(f) <==> key == KeyOf(f)
  {
    FieldOfKeyOf(f);
  }

  predicate IsKnownKey(key: string) {
    FieldOf(key).Some?
  }

  predicate HasKey(entries: seq<Entry>, key: string) {
    exists i :: 0 <= i < |entries| && entries[i].key == key
  }

  predicate DistinctKeys(entries: seq<Entry>) {
    forall i, j :: 0 <= i < j < |entries| ==> entries[i].key != entries[j].key
  }

  function Get<K, V>(m: map<K, V>, k: K): Option<V> {
    if k in m then Some(m[k]) else None
  }

  // ---------------------------------------------------------------------
  // Encoding
  // ---------------------------------------------------------------------

  /**
   * The text written for field `f` of `b`, or None when the field is skipped:
   * an absent option, a false flag or an empty tag list.  `Name` and `Type`
   * are never skipped.
   */
  function FieldText(b: Bundle, f: Field): Option<string> {
    match f
    case Name => Some(b.name)
    case Type => Some(BundleTypeName(b.bundleType))
    case StoreID => b.storeId
    case HomebrewID => b.homebrewId
    case Exec => b.exec
    case EncryptedImage => b.encryptedImage
    case Version => b.version
    case Background => if IsFalse(b.background) then None else Some(EncodeBool(b.background))
    case PreferXBoxMode => if IsFalse(b.preferXBoxMode) then None else Some(EncodeBool(b.preferXBoxMode))
    case Launcher => b.launcher
    case LauncherTags => if |b.launcherTags| == 0 then None else Some(EncodeList(b.launcherTags))
    case LauncherExec => b.launcherExec
  }

  /** The entries for `fields`, in that order, leaving out the skipped ones. */
  function EncodeFields(b: Bundle, fields: seq<Field>): seq<Entry> {
    if fields == [] then []
    else
      var f := fields[0];
      var head := if FieldText(b, f).Some? then [Entry(KeyOf(f), FieldText(b, f).value)] else [];
      head + EncodeFields(b, fields[1..])
  }

  /**
   * The `[Bundle]` section written for a record.  It starts with `Name` and
   * `Type`, uses only declared keys, and never repeats one.
   */
  function Encode(b: Bundle): (r: seq<Entry>)
    ensures |r| >= 2
    ensures r[0] == Entry(KeyOf(Name), b.name) && r[1] == Entry(KeyOf(Type), BundleTypeName(b.bundleType))
  {
    EncodeStartsWithNameType(b);
    EncodeFields(b, AllFields)
  }

  /** An encoded section uses only declared keys, each at most once. */
  lemma EncodeWellFormed(b: Bundle)
    ensures forall i :: 0 <= i < |Encode(b)| ==> IsKnownKey(Encode(b)[i].key)
    ensures DistinctKeys(Encode(b))
  {
    EncodeFieldsSound(b, AllFields);
    AllFieldsNoRepeats();
    EncodeFieldsDistinct(b, AllFields);
  }

  /** `Name` and `Type` are never skipped, so they open every section. */
  lemma EncodeStartsWithNameType(b: Bundle)
    ensures var r := EncodeFields(b, AllFields);
      |r| >= 2 && r[0] == Entry(KeyOf(Name), b.name) && r[1] == Entry(KeyOf(Type), BundleTypeName(b.bundleType))
  {
    var rest := AllFields[2..];
    assert AllFields == [Name] + ([Type] + rest);
    EncodeFieldsCons(b, Name, [Type] + rest);
    EncodeFieldsCons(b, Type, rest);
  }

  /** The position of a field in `AllFields`. */
  function Position(f: Field): (n: nat)
    ensures n < |AllFields| && AllFields[n] == f
  {
    match f
    case Name => 0
    case Type => 1
    case StoreID => 2
    case HomebrewID => 3
    case Exec => 4
    case EncryptedImage => 5
    case Version => 6
    case Background => 7
    case PreferXBoxMode => 8
    case Launcher => 9
    case LauncherTags => 10
    case LauncherExec => 11
  }

  /** Each field is listed once. */
  lemma AllFieldsNoRepeats()
    ensures NoRepeats(AllFields)
  {
    forall i | 0 <= i < |AllFields| ensures Position(AllFields[i]) == i {
    }
  }

  function EncodeConfig(c: BundleConfig): seq<Section> {
    [Section(SectionName, Encode(c.bundle))]
  }

  /** Encoding a concatenation of field lists concatenates their entries. */
  lemma {:induction false} EncodeFieldsAppend(b: Bundle, xs: seq<Field>, ys: seq<Field>)
    ensures EncodeFields(b, xs + ys) == EncodeFields(b, xs) + EncodeFields(b, ys)
  {
    if xs == [] {
      assert xs + ys == ys;
    } else {
      assert (xs + ys)[0] == xs[0] && (xs + ys)[1..] == xs[1..] + ys;
      EncodeFieldsAppend(b, xs[1..], ys);
    }
  }

  /** One field, then the rest: the field's entry, if written, comes first. */
  lemma EncodeFieldsCons(b: Bundle, f: Field, fields: seq<Field>)
    ensures EncodeFields(b, [f] + fields) ==
      (if FieldText(b, f).Some? then [Entry(KeyOf(f), FieldText(b, f).value)] else []) + EncodeFields(b, fields)
  {
    assert ([f] + fields)[0] == f && ([f] + fields)[1..] == fields;
  }

  /** Fields that are all skipped write nothing. */
  lemma {:induction false} EncodeFieldsAllSkipped(b: Bundle, fields: seq<Field>)
    requires forall i :: 0 <= i < |fields| ==> FieldText(b, fields[i]).None?
    ensures EncodeFields(b, fields) == []
  {
    if fields != [] {
      assert FieldText(b, fields[0]).None?;
      assert forall i :: 0 <= i < |fields[1..]| ==> fields[1..][i] == fields[i + 1];
      EncodeFieldsAllSkipped(b, fields[1..]);
    }
  }

  predicate NoRepeats(fields: seq<Field>) {
    forall i, j :: 0 <= i < j < |fields| ==> fields[i] != fields[j]
  }

  /** The entry is the one `EncodeFields` writes for a field among `fields`. */
  predicate WrittenFor(b: Bundle, fields: seq<Field>, e: Entry) {
    FieldOf(e.key).Some? && FieldOf(e.key).value in fields && FieldText(b, FieldOf(e.key).value) == Some(e.value)
  }

  /** Every encoded entry belongs to one of `fields` and holds the text `FieldText` gives for it. */
  lemma {:induction false} EncodeFieldsSound(b: Bundle, fields: seq<Field>)
    ensures forall i :: 0 <= i < |EncodeFields(b, fields)| ==> WrittenFor(b, fields, EncodeFields(b, fields)[i])
  {
    if fields != [] {
      EncodeFieldsSound(b, fields[1..]);
      var g := fields[0];
      FieldOfKeyOf(g);
      var rest := EncodeFields(b, fields[1..]);
      var r := EncodeFields(b, fields);
      var d := |r| - |rest|;
      forall i | 0 <= i < |r| ensures WrittenFor(b, fields, r[i]) {
        if i >= d {
          assert r[i] == rest[i - d];
          assert WrittenFor(b, fields[1..], rest[i - d]);
        } else {
          assert r[i] == Entry(KeyOf(g), FieldText(b, g).value);
        }
      }
    }
  }

  /** A key occurs in a concatenation exactly when it occurs in one of the parts. */
  lemma HasKeyAppend(xs: seq<Entry>, ys: seq<Entry>, key: string)
    ensures HasKey(xs + ys, key) <==> HasKey(xs, key) || HasKey(ys, key)
  {
    var zs := xs + ys;
    if HasKey(ys, key) {
      var i :| 0 <= i < |ys| && ys[i].key == key;
      assert zs[|xs| + i] == ys[i];
    }
    if HasKey(xs, key) {
      var i :| 0 <= i < |xs| && xs[i].key == key;
      assert zs[i] == xs[i];
    }
    if HasKey(zs, key) {
      var i :| 0 <= i < |zs| && zs[i].key == key;
      if i < |xs| {
        assert zs[i] == xs[i];
      } else {
        assert zs[i] == ys[i - |xs|];
      }
    }
  }

  /** A field is written exactly when it is among `fields` and not skipped. */
  lemma {:induction false} EncodeFieldsHasKey(b: Bundle, fields: seq<Field>, f: Field)
    ensures HasKey(EncodeFields(b, fields), KeyOf(f)) <==> f in fields && FieldText(b, f).Some?
  {
    if fields != [] {
      var g, tail := fields[0], fields[1..];
      assert fields == [g] + tail;
      EncodeFieldsHasKey(b, tail, f);
      KeyOfInjective(f, g);
      EncodeFieldsCons(b, g, tail);
      var head := if FieldText(b, g).Some? then [Entry(KeyOf(g), FieldText(b, g).value)] else [];
      HasKeyAppend(head, EncodeFields(b, tail), KeyOf(f));
      assert HasKey(head, KeyOf(f)) <==> FieldText(b, g).Some? && f == g by {
        if HasKey(head, KeyOf(f)) {
          var i :| 0 <= i < |head| && head[i].key == KeyOf(f);
        }
        if FieldText(b, g).Some? && f == g {
          assert head[0].key == KeyOf(f);
        }
      }
    }
  }

  /** Distinct fields give distinct keys. */
  lemma {:induction false} EncodeFieldsDistinct(b: Bundle, fields: seq<Field>)
    requires NoRepeats(fields)
    ensures DistinctKeys(EncodeFields(b, fields))
  {
    if fields != [] {
      assert NoRepeats(fields[1..]) by {
        forall i, j | 0 <= i < j < |fields[1..]| ensures fields[1..][i] != fields[1..][j] {
          assert fields[1..][i] == fields[i + 1] && fields[1..][j] == fields[j + 1];
        }
      }
      EncodeFieldsDistinct(b, fields[1..]);
      EncodeFieldsHasKey(b, fields[1..], fields[0]);
      assert fields[0] !in fields[1..] by {
        forall i | 0 <= i < |fields[1..]| ensures fields[1..][i] != fields[0] {
          assert fields[1..][i] == fields[i + 1];
        }
      }
      var rest := EncodeFields(b, fields[1..]);
      var r := EncodeFields(b, fields);
      var d := |r| - |rest|;
      forall i, j | 0 <= i < j < |r| ensures r[i].key != r[j].key {
        assert r[j] == rest[j - d];
        if i >= d {
          assert r[i] == rest[i - d];
        }
      }
    }
  }

  // ---------------------------------------------------------------------
  // Decoding
  // ---------------------------------------------------------------------

  /** The error the value of field `f` raises when it is parsed, if any. */
  function ValueError(f: Field, value: string): Option<DecodeError> {
    match f
    case Type => if ParseBundleType(value).Err? then Some(ParseBundleType(value).error) else None
    case Background => if DecodeBool(value).Err? then Some(DecodeBool(value).error) else None
    case PreferXBoxMode => if DecodeBool(value).Err? then Some(DecodeBool(value).error) else None
    case _ => None
  }

  /** An entry the decoder takes on its own: a declared key with a value of the right form. */
  predicate Admissible(e: Entry) {
    FieldOf(e.key).Some? && ValueError(FieldOf(e.key).value, e.value).None?
  }

  /** The sections the decoder accepts apart from the required keys: admissible entries, no key twice. */
  predicate Acceptable(entries: seq<Entry>) {
    (forall i :: 0 <= i < |entries| ==> Admissible(entries[i])) && DistinctKeys(entries)
  }

  /** The fields seen so far, each with the text it was given. */
  predicate WellTyped(seen: map<Field, string>) {
    forall f :: f in seen ==> ValueError(f, seen[f]).None?
  }

  /**
   * One entry of the section: an undeclared key is rejected, a key seen
   * before is rejected, then the value is parsed, and only then recorded.
   */
  function Absorb(seen: map<Field, string>, e: Entry): (r: Result<map<Field, string>, DecodeError>)
    requires WellTyped(seen)
    ensures r.Ok? <==> Admissible(e) && FieldOf(e.key).value !in seen
    ensures r.Ok? ==> r.value == seen[FieldOf(e.key).value := e.value] && WellTyped(r.value)
  {
    match FieldOf(e.key)
    case None => Err(UnknownField(e.key))
    case Some(f) =>
      if f in seen then Err(DuplicateField(e.key))
      else if ValueError(f, e.value).Some? then Err(ValueError(f, e.value).value)
      else Ok(seen[f := e.value])
  }

  /** The entries taken in order; the first that fails decides the error. */
  function Collect(entries: seq<Entry>, seen: map<Field, string>): (r: Result<map<Field, string>, DecodeError>)
    requires WellTyped(seen)
    ensures r.Ok? ==> WellTyped(r.value)
    decreases |entries|
  {
    if entries == [] then Ok(seen)
    else
      var next :- Absorb(seen, entries[0]);
      Collect(entries[1..], next)
  }

  /**
   * The record built from the collected fields: `Name` then `Type` must be
   * present; an absent flag is false, absent tags are empty, an absent
   * option is None.
   */
  function Finish(seen: map<Field, string>): Result<Bundle, DecodeError>
    requires WellTyped(seen)
  {
    if Name !in seen then Err(MissingField(KeyOf(Name)))
    else if Type !in seen then Err(MissingField(KeyOf(Type)))
    else
      assert ValueError(Type, seen[Type]).None?;
      Ok(Bundle(
        seen[Name],
        ParseBundleType(seen[Type]).value,
        Get(seen, StoreID),
        Get(seen, HomebrewID),
        Get(seen, Exec),
        Get(seen, EncryptedImage),
        Get(seen, Version),
        Background in seen && seen[Background] == "true",
        PreferXBoxMode in seen && seen[PreferXBoxMode] == "true",
        Get(seen, Launcher),
        if LauncherTags in seen then DecodeList(seen[LauncherTags]) else [],
        Get(seen, LauncherExec)))
  }

  /** Decodes the entries of a `[Bundle]` section into a record. */
  function Decode(entries: seq<Entry>): Result<Bundle, DecodeError> {
    var seen :- Collect(entries, map[]);
    Finish(seen)
  }

  /**
   * The sections taken in order: other sections are skipped, a second
   * `Bundle` section is rejected, and the first one is decoded.
   */
  function CollectSections(sections: seq<Section>, found: Option<Bundle>): Result<Option<Bundle>, DecodeError>
    decreases |sections|
  {
    if sections == [] then Ok(found)
    else if sections[0].name != SectionName then CollectSections(sections[1..], found)
    else if found.Some? then Err(DuplicateField(SectionName))
    else
      var b :- Decode(sections[0].entries);
      CollectSections(sections[1..], Some(b))
  }

  /** Decodes a whole manifest; it must hold a `Bundle` section. */
  function DecodeConfig(sections: seq<Section>): Result<BundleConfig, DecodeError> {
    var found :- CollectSections(sections, None);
    if found.None? then Err(MissingField(SectionName)) else Ok(BundleConfig(found.value))
  }

  // ---------------------------------------------------------------------
  // The section as a dictionary from fields to texts
  // ---------------------------------------------------------------------

  /** The declared fields of a section with their texts; when a key repeats, its first entry wins. */
  function FieldMap(entries: seq<Entry>): map<Field, string> {
    if entries == [] then map[]
    else
      var m := FieldMap(entries[1..]);
      match FieldOf(entries[0].key)
      case None => m
      case Some(f) => m[f := entries[0].value]
  }

  lemma {:induction false} FieldMapKeys(entries: seq<Entry>, f: Field)
    ensures f in FieldMap(entries) <==> HasKey(entries, KeyOf(f))
  {
    if entries != [] {
      FieldMapKeys(entries[1..], f);
      FieldOfIff(entries[0].key, f);
      assert entries == [entries[0]] + entries[1..];
      HasKeyAppend([entries[0]], entries[1..], KeyOf(f));
      assert HasKey([entries[0]], KeyOf(f)) <==> entries[0].key == KeyOf(f);
    }
  }

  /** With no key repeated, each entry's text is the one the dictionary holds for its field. */
  lemma {:induction false} FieldMapValue(entries: seq<Entry>, i: int, f: Field)
    requires DistinctKeys(entries) && 0 <= i < |entries| && entries[i].key == KeyOf(f)
    ensures f in FieldMap(entries) && FieldMap(entries)[f] == entries[i].value
  {
    if i == 0 {
      FieldOfKeyOf(f);
    } else {
      assert entries[1..][i - 1] == entries[i];
      FieldMapValue(entries[1..], i - 1, f);
    }
  }

  /** Acceptability taken one entry at a time. */
  lemma AcceptableCons(entries: seq<Entry>)
    requires entries != []
    ensures Acceptable(entries) <==>
      Admissible(entries[0]) && Acceptable(entries[1..]) && !HasKey(entries[1..], entries[0].key)
  {
    var rest := entries[1..];
    if Admissible(entries[0]) && Acceptable(rest) && !HasKey(rest, entries[0].key) {
      forall i, j | 0 <= i < j < |entries| ensures entries[i].key != entries[j].key {
        assert entries[j] == rest[j - 1];
        if i > 0 {
          assert entries[i] == rest[i - 1];
        }
      }
      forall i | 0 <= i < |entries| ensures Admissible(entries[i]) {
        if i > 0 {
          assert entries[i] == rest[i - 1];
        }
      }
    }
    if Acceptable(entries) {
      forall i | 0 <= i < |rest| ensures rest[i].key != entries[0].key && Admissible(rest[i]) {
        assert rest[i] == entries[i + 1];
      }
    }
  }

  /** No entry names a field seen already. */
  predicate Unseen(entries: seq<Entry>, seen: map<Field, string>) {
    forall f :: f in seen ==> !HasKey(entries, KeyOf(f))
  }

  lemma UnseenCons(entries: seq<Entry>, seen: map<Field, string>, f: Field)
    requires entries != [] && entries[0].key == KeyOf(f)
    ensures Unseen(entries, seen) && !HasKey(entries[1..], entries[0].key) <==>
      f !in seen && Unseen(entries[1..], seen[f := entries[0].value])
  {
    var rest := entries[1..];
    forall g ensures HasKey(entries, KeyOf(g)) <==> g == f || HasKey(rest, KeyOf(g)) {
      KeyOfInjective(f, g);
      if HasKey(rest, KeyOf(g)) {
        var i :| 0 <= i < |rest| && rest[i].key == KeyOf(g);
        assert entries[i + 1] == rest[i];
      }
      if HasKey(entries, KeyOf(g)) && KeyOf(g) != entries[0].key {
        var i :| 0 <= i < |entries| && entries[i].key == KeyOf(g);
        assert entries[i] == rest[i - 1];
      }
    }
  }

  lemma UpdateThenUnion<K, V>(seen: map<K, V>, m: map<K, V>, k: K, v: V)
    requires k !in m
    ensures seen[k := v] + m == seen + m[k := v]
  {
  }

  // ---------------------------------------------------------------------
  // What decoding accepts and what it yields
  // ---------------------------------------------------------------------

  /**
   * Collecting succeeds exactly on acceptable entries that name no field seen
   * before, and then adds the section's dictionary to what was seen.
   */
  lemma {:induction false} CollectSpec(entries: seq<Entry>, seen: map<Field, string>)
    requires WellTyped(seen)
    ensures Collect(entries, seen).Ok? <==> Acceptable(entries) && Unseen(entries, seen)
    ensures Collect(entries, seen).Ok? ==> Collect(entries, seen).value == seen + FieldMap(entries)
  {
    if entries != [] {
      var e, rest := entries[0], entries[1..];
      AcceptableCons(entries);
      match FieldOf(e.key)
      case None =>
      case Some(f) =>
        UnseenCons(entries, seen, f);
        FieldMapKeys(rest, f);
        if Absorb(seen, e).Ok? {
          CollectSpec(rest, seen[f := e.value]);
          if !HasKey(rest, e.key) {
            UpdateThenUnion(seen, FieldMap(rest), f, e.value);
          }
        }
    }
  }

  /** Collecting from nothing seen yields the section's dictionary. */
  lemma CollectFromEmpty(entries: seq<Entry>)
    ensures Collect(entries, map[]).Ok? <==> Acceptable(entries)
    ensures Collect(entries, map[]).Ok? ==> Collect(entries, map[]).value == FieldMap(entries)
  {
    CollectSpec(entries, map[]);
    assert map[] + FieldMap(entries) == FieldMap(entries);
  }

  /**
   * A section decodes exactly when every key is declared, no key repeats,
   * every value parses, and both `Name` and `Type` are given.  Any other key
   * is rejected rather than ignored.
   */
  lemma DecodeAccepts(entries: seq<Entry>)
    ensures Decode(entries).Ok? <==>
      Acceptable(entries) && HasKey(entries, KeyOf(Name)) && HasKey(entries, KeyOf(Type))
  {
    CollectFromEmpty(entries);
    FieldMapKeys(entries, Name);
    FieldMapKeys(entries, Type);
  }

  /** A decoded section is `Finish` applied to its dictionary. */
  lemma DecodeIsFinishOfMap(entries: seq<Entry>)
    requires Decode(entries).Ok?
    ensures Acceptable(entries) && WellTyped(FieldMap(entries)) && Decode(entries) == Finish(FieldMap(entries))
  {
    CollectFromEmpty(entries);
  }

  /** What the text given for field `f` says about a decoded record. */
  predicate FieldAgrees(b: Bundle, f: Field, text: string) {
    match f
    case Background => b.background == (text == "true")
    case PreferXBoxMode => b.preferXBoxMode == (text == "true")
    case LauncherTags => b.launcherTags == DecodeList(text)
    case _ => FieldText(b, f) == Some(text)
  }

  /** The record `Finish` builds reflects each collected text in its field. */
  lemma FinishAgrees(seen: map<Field, string>, f: Field)
    requires WellTyped(seen) && Finish(seen).Ok? && f in seen
    ensures FieldAgrees(Finish(seen).value, f, seen[f])
  {
    if f == Type {
      assert ValueError(Type, seen[Type]).None?;
    }
  }

  /** Every entry of a decoded section is reflected in the record, in the field its key names. */
  lemma DecodeFields(entries: seq<Entry>)
    requires Decode(entries).Ok?
    ensures forall i :: 0 <= i < |entries| ==> IsKnownKey(entries[i].key)
    ensures forall i, f :: 0 <= i < |entries| && entries[i].key == KeyOf(f) ==>
      FieldAgrees(Decode(entries).value, f, entries[i].value)
  {
    DecodeIsFinishOfMap(entries);
    var m := FieldMap(entries);
    forall i, f | 0 <= i < |entries| && entries[i].key == KeyOf(f)
      ensures FieldAgrees(Decode(entries).value, f, entries[i].value)
    {
      FieldMapValue(entries, i, f);
      FinishAgrees(m, f);
    }
  }

  /** An absent flag decodes to false, absent tags to the empty list, an absent option to None. */
  lemma DecodeDefaults(entries: seq<Entry>)
    requires Decode(entries).Ok?
    ensures var b := Decode(entries).value;
      && (!HasKey(entries, KeyOf(Background)) ==> !b.background)
      && (!HasKey(entries, KeyOf(PreferXBoxMode)) ==> !b.preferXBoxMode)
      && (!HasKey(entries, KeyOf(LauncherTags)) ==> b.launcherTags == [])
      && (!HasKey(entries, KeyOf(StoreID)) ==> b.storeId == None)
      && (!HasKey(entries, KeyOf(HomebrewID)) ==> b.homebrewId == None)
      && (!HasKey(entries, KeyOf(Exec)) ==> b.exec == None)
      && (!HasKey(entries, KeyOf(EncryptedImage)) ==> b.encryptedImage == None)
      && (!HasKey(entries, KeyOf(Version)) ==> b.version == None)
      && (!HasKey(entries, KeyOf(Launcher)) ==> b.launcher == None)
      && (!HasKey(entries, KeyOf(LauncherExec)) ==> b.launcherExec == None)
  {
    DecodeIsFinishOfMap(entries);
    forall f ensures f in FieldMap(entries) <==> HasKey(entries, KeyOf(f)) {
      FieldMapKeys(entries, f);
    }
  }

  /** With every entry acceptable, a missing `Name`, then a missing `Type`, is the error. */
  lemma DecodeMissingRequired(entries: seq<Entry>)
    requires Acceptable(entries)
    ensures !HasKey(entries, KeyOf(Name)) ==> Decode(entries) == Err(MissingField(KeyOf(Name)))
    ensures HasKey(entries, KeyOf(Name)) && !HasKey(entries, KeyOf(Type)) ==> Decode(entries) == Err(MissingField(KeyOf(Type)))
  {
    CollectFromEmpty(entries);
    FieldMapKeys(entries, Name);
    FieldMapKeys(entries, Type);
  }

  /** Collecting a sequence goes through its prefix first. */
  lemma {:induction false} CollectPrefix(entries: seq<Entry>, seen: map<Field, string>, i: int)
    requires WellTyped(seen) && 0 <= i <= |entries|
    requires Collect(entries[..i], seen).Ok?
    ensures Collect(entries, seen) == Collect(entries[i..], Collect(entries[..i], seen).value)
  {
    if i > 0 {
      var next := Absorb(seen, entries[0]);
      assert entries[..i][0] == entries[0] && entries[..i][1..] == entries[1..][..i - 1];
      assert entries[1..][i - 1..] == entries[i..];
      CollectPrefix(entries[1..], next.value, i - 1);
    }
  }

  /**
   * Entries are taken in order and the first one that fails decides the
   * error: an undeclared key, then a repeated key, then a value that does not
   * parse.
   */
  lemma DecodeFirstBadEntry(entries: seq<Entry>, i: int)
    requires 0 <= i < |entries| && Acceptable(entries[..i])
    requires !Admissible(entries[i]) || HasKey(entries[..i], entries[i].key)
    ensures !IsKnownKey(entries[i].key) ==> Decode(entries) == Err(UnknownField(entries[i].key))
    ensures IsKnownKey(entries[i].key) && HasKey(entries[..i], entries[i].key) ==>
      Decode(entries) == Err(DuplicateField(entries[i].key))
    ensures IsKnownKey(entries[i].key) && !HasKey(entries[..i], entries[i].key) ==>
      Decode(entries) == Err(ValueError(FieldOf(entries[i].key).value, entries[i].value).value)
  {
    CollectFromEmpty(entries[..i]);
    CollectPrefix(entries, map[], i);
    assert entries[i..][0] == entries[i];
    if IsKnownKey(entries[i].key) {
      FieldMapKeys(entries[..i], FieldOf(entries[i].key).value);
    }
  }

  // ---------------------------------------------------------------------
  // Order of entries
  // ---------------------------------------------------------------------

  /** Two positions holding the same entry make it occur twice. */
  lemma TwiceInMultiset(s: seq<Entry>, i: int, j: int)
    requires 0 <= i < j < |s| && s[i] == s[j]
    ensures multiset(s)[s[i]] >= 2
  {
    assert s == s[..j] + [s[j]] + s[j + 1..];
    assert s[..j][i] == s[i];
    assert multiset(s) == multiset(s[..j]) + multiset{s[j]} + multiset(s[j + 1..]);
  }

  /** An entry occurring twice sits at two positions. */
  lemma TwoPositions(s: seq<Entry>, x: Entry) returns (p: int, q: int)
    requires multiset(s)[x] >= 2
    ensures 0 <= p < q < |s| && s[p] == x && s[q] == x
  {
    assert x in multiset(s);
    var k :| 0 <= k < |s| && s[k] == x;
    assert s == s[..k] + [s[k]] + s[k + 1..];
    assert multiset(s) == multiset(s[..k]) + multiset{x} + multiset(s[k + 1..]);
    if x in s[..k] {
      var m :| 0 <= m < k && s[..k][m] == x;
      p, q := m, k;
    } else {
      assert x in multiset(s[k + 1..]);
      var m :| 0 <= m < |s[k + 1..]| && s[k + 1..][m] == x;
      p, q := k, k + 1 + m;
    }
  }

  /** Reordering keeps acceptability and, for acceptable entries, the dictionary. */
  lemma ReorderKeepsMap(entries: seq<Entry>, other: seq<Entry>)
    requires multiset(entries) == multiset(other)
    requires Acceptable(entries)
    ensures Acceptable(other) && FieldMap(other) == FieldMap(entries)
  {
    forall i | 0 <= i < |other| ensures Admissible(other[i]) {
      assert other[i] in multiset(entries);
    }
    forall i, j | 0 <= i < j < |other| ensures other[i].key != other[j].key {
      assert other[i] in multiset(entries) && other[j] in multiset(entries);
      if other[i] == other[j] {
        TwiceInMultiset(other, i, j);
        var p, q := TwoPositions(entries, other[i]);
      }
    }
    forall f ensures f in FieldMap(other) <==> f in FieldMap(entries) {
      FieldMapKeys(other, f);
      FieldMapKeys(entries, f);
      if HasKey(other, KeyOf(f)) {
        var i :| 0 <= i < |other| && other[i].key == KeyOf(f);
        assert other[i] in multiset(entries);
      }
      if HasKey(entries, KeyOf(f)) {
        var i :| 0 <= i < |entries| && entries[i].key == KeyOf(f);
        assert entries[i] in multiset(other);
      }
    }
    forall f | f in FieldMap(entries) ensures FieldMap(other)[f] == FieldMap(entries)[f] {
      FieldMapKeys(entries, f);
      var i :| 0 <= i < |entries| && entries[i].key == KeyOf(f);
      assert entries[i] in multiset(other);
      var j :| 0 <= j < |other| && other[j] == entries[i];
      FieldMapValue(entries, i, f);
      FieldMapValue(other, j, f);
    }
  }

  /** The order of the entries does not matter to a section that decodes. */
  lemma DecodeOrderIrrelevant(entries: seq<Entry>, other: seq<Entry>)
    requires multiset(entries) == multiset(other)
    requires Decode(entries).Ok?
    ensures Decode(other) == Decode(entries)
  {
    DecodeIsFinishOfMap(entries);
    ReorderKeepsMap(entries, other);
    CollectFromEmpty(other);
  }

  // ---------------------------------------------------------------------
  // Round trip
  // ---------------------------------------------------------------------

  /** Every field is among `AllFields`. */
  lemma InAllFields(f: Field)
    ensures f in AllFields
  {
    match f
    case Name =>
    case Type =>
    case StoreID =>
    case HomebrewID =>
    case Exec =>
    case EncryptedImage =>
    case Version =>
    case Background =>
    case PreferXBoxMode =>
    case Launcher =>
    case LauncherTags =>
    case LauncherExec =>
  }

  /** The text written for a field always parses as that field's value. */
  lemma WrittenTextParses(b: Bundle, f: Field)
    requires FieldText(b, f).Some?
    ensures ValueError(f, FieldText(b, f).value).None?
  {
    BundleTypeRoundTrip(b.bundleType);
  }

  /** The dictionary of an encoded section holds, for each field, the text `FieldText` gives. */
  lemma EncodedMap(b: Bundle, f: Field)
    ensures Get(FieldMap(Encode(b)), f) == FieldText(b, f)
  {
    var r := Encode(b);
    EncodeWellFormed(b);
    FieldMapKeys(r, f);
    InAllFields(f);
    EncodeFieldsHasKey(b, AllFields, f);
    if HasKey(r, KeyOf(f)) {
      var i :| 0 <= i < |r| && r[i].key == KeyOf(f);
      FieldMapValue(r, i, f);
      EncodeFieldsSound(b, AllFields);
      assert WrittenFor(b, AllFields, r[i]);
      FieldOfKeyOf(f);
    }
  }

  /** Every entry `Encode` writes is admissible, so the whole section is acceptable. */
  lemma EncodeAcceptable(b: Bundle)
    ensures Acceptable(Encode(b))
  {
    var r := Encode(b);
    EncodeWellFormed(b);
    EncodeFieldsSound(b, AllFields);
    forall i | 0 <= i < |r| ensures Admissible(r[i]) {
      assert WrittenFor(b, AllFields, r[i]);
      WrittenTextParses(b, FieldOf(r[i].key).value);
    }
  }

  /** The dictionary holds, for every field, the text written for it, and nothing for a skipped one. */
  predicate HoldsWritten(m: map<Field, string>, b: Bundle) {
    && Get(m, Name) == FieldText(b, Name)
    && Get(m, Type) == FieldText(b, Type)
    && Get(m, StoreID) == FieldText(b, StoreID)
    && Get(m, HomebrewID) == FieldText(b, HomebrewID)
    && Get(m, Exec) == FieldText(b, Exec)
    && Get(m, EncryptedImage) == FieldText(b, EncryptedImage)
    && Get(m, Version) == FieldText(b, Version)
    && Get(m, Background) == FieldText(b, Background)
    && Get(m, PreferXBoxMode) == FieldText(b, PreferXBoxMode)
    && Get(m, Launcher) == FieldText(b, Launcher)
    && Get(m, LauncherTags) == FieldText(b, LauncherTags)
    && Get(m, LauncherExec) == FieldText(b, LauncherExec)
  }

  /** A dictionary holding the text of every written field finishes as the record it was written from. */
  lemma FinishWritten(m: map<Field, string>, b: Bundle)
    requires WellTyped(m) && HoldsWritten(m, b)
    ensures Finish(m) == Ok(b.(launcherTags := DecodeList(EncodeList(b.launcherTags))))
  {
    BundleTypeRoundTrip(b.bundleType);
    if b.launcherTags == [] {
      ListRoundTrip([]);
    }
  }

  /**
   * Decoding an encoded record always succeeds and gives the record back,
   * except that the tag list comes back as the list codec carries it.
   */
  lemma EncodeThenDecode(b: Bundle)
    ensures Decode(Encode(b)) == Ok(b.(launcherTags := DecodeList(EncodeList(b.launcherTags))))
  {
    var r := Encode(b);
    EncodeAcceptable(b);
    CollectFromEmpty(r);
    forall f ensures Get(FieldMap(r), f) == FieldText(b, f) {
      EncodedMap(b, f);
    }
    assert HoldsWritten(FieldMap(r), b);
    FinishWritten(FieldMap(r), b);
  }

  /** A record survives encoding and decoding exactly when its tag list is one the list codec carries. */
  lemma RoundTrip(b: Bundle)
    ensures Decode(Encode(b)) == Ok(b) <==> ListRoundTrips(b.launcherTags)
  {
    EncodeThenDecode(b);
    ListRoundTrip(b.launcherTags);
  }

  /** Encoding omits every default-valued field and always writes `Name` and `Type`. */
  lemma EncodeOmitsDefaults(b: Bundle)
    ensures HasKey(Encode(b), KeyOf(Name)) && HasKey(Encode(b), KeyOf(Type))
    ensures HasKey(Encode(b), KeyOf(StoreID)) <==> b.storeId.Some?
    ensures HasKey(Encode(b), KeyOf(HomebrewID)) <==> b.homebrewId.Some?
    ensures HasKey(Encode(b), KeyOf(Exec)) <==> b.exec.Some?
    ensures HasKey(Encode(b), KeyOf(EncryptedImage)) <==> b.encryptedImage.Some?
    ensures HasKey(Encode(b), KeyOf(Version)) <==> b.version.Some?
    ensures HasKey(Encode(b), KeyOf(Background)) <==> b.background
    ensures HasKey(Encode(b), KeyOf(PreferXBoxMode)) <==> b.preferXBoxMode
    ensures HasKey(Encode(b), KeyOf(Launcher)) <==> b.launcher.Some?
    ensures HasKey(Encode(b), KeyOf(LauncherTags)) <==> b.launcherTags != []
    ensures HasKey(Encode(b), KeyOf(LauncherExec)) <==> b.launcherExec.Some?
  {
    EncodeHasKey(b, Name);
    EncodeHasKey(b, Type);
    EncodeHasKey(b, StoreID);
    EncodeHasKey(b, HomebrewID);
    EncodeHasKey(b, Exec);
    EncodeHasKey(b, EncryptedImage);
    EncodeHasKey(b, Version);
    EncodeHasKey(b, Background);
    EncodeHasKey(b, PreferXBoxMode);
    EncodeHasKey(b, Launcher);
    EncodeHasKey(b, LauncherTags);
    EncodeHasKey(b, LauncherExec);
  }

  /** A field's key is written exactly when the field is not skipped. */
  lemma EncodeHasKey(b: Bundle, f: Field)
    ensures HasKey(Encode(b), KeyOf(f)) <==> FieldText(b, f).Some?
  {
    InAllFields(f);
    EncodeFieldsHasKey(b, AllFields, f);
  }

  // ---------------------------------------------------------------------
  // The whole manifest
  // ---------------------------------------------------------------------

  /** Sections without the `Bundle` name are passed over. */
  lemma {:induction false} CollectSectionsSkips(sections: seq<Section>, found: Option<Bundle>)
    requires forall j :: 0 <= j < |sections| ==> sections[j].name != SectionName
    ensures CollectSections(sections, found) == Ok(found)
  {
    if sections != [] {
      CollectSectionsSkips(sections[1..], found);
    }
  }

  /** Sections before the first `Bundle` section are passed over. */
  lemma {:induction false} CollectSectionsSkipsPrefix(sections: seq<Section>, i: int)
    requires 0 <= i <= |sections|
    requires forall j :: 0 <= j < i ==> sections[j].name != SectionName
    ensures CollectSections(sections, None) == CollectSections(sections[i..], None)
  {
    if i > 0 {
      assert sections[1..][i - 1..] == sections[i..];
      CollectSectionsSkipsPrefix(sections[1..], i - 1);
    }
  }

  /** With a record already found, the next `Bundle` section is a duplicate. */
  lemma {:induction false} CollectSectionsFound(sections: seq<Section>, found: Option<Bundle>, j: int)
    requires found.Some? && 0 <= j < |sections| && sections[j].name == SectionName
    requires forall k :: 0 <= k < j ==> sections[k].name != SectionName
    ensures CollectSections(sections, found) == Err(DuplicateField(SectionName))
  {
    if j > 0 {
      assert sections[1..][j - 1] == sections[j];
      CollectSectionsFound(sections[1..], found, j - 1);
    }
  }

  /**
   * A manifest with one `Bundle` section decodes as that section, whatever
   * other sections surround it.
   */
  lemma DecodeConfigOneSection(sections: seq<Section>, i: int)
    requires 0 <= i < |sections| && sections[i].name == SectionName
    requires forall j :: 0 <= j < |sections| && j != i ==> sections[j].name != SectionName
    ensures Decode(sections[i].entries).Ok? ==>
      DecodeConfig(sections) == Ok(BundleConfig(Decode(sections[i].entries).value))
    ensures Decode(sections[i].entries).Err? ==>
      DecodeConfig(sections) == Err(Decode(sections[i].entries).error)
  {
    CollectSectionsSkipsPrefix(sections, i);
    assert sections[i..][0] == sections[i] && sections[i..][1..] == sections[i + 1..];
    if Decode(sections[i].entries).Ok? {
      CollectSectionsSkips(sections[i + 1..], Some(Decode(sections[i].entries).value));
    }
  }

  /** A manifest without a `Bundle` section is a missing-field error. */
  lemma DecodeConfigMissing(sections: seq<Section>)
    requires forall j :: 0 <= j < |sections| ==> sections[j].name != SectionName
    ensures DecodeConfig(sections) == Err(MissingField(SectionName))
  {
    CollectSectionsSkips(sections, None);
  }

  /** A second `Bundle` section after one that decodes is rejected. */
  lemma DecodeConfigDuplicate(sections: seq<Section>, i: int, j: int)
    requires 0 <= i < j < |sections|
    requires sections[i].name == SectionName && sections[j].name == SectionName
    requires forall k :: 0 <= k < j && k != i ==> sections[k].name != SectionName
    requires Decode(sections[i].entries).Ok?
    ensures DecodeConfig(sections) == Err(DuplicateField(SectionName))
  {
    CollectSectionsSkipsPrefix(sections, i);
    var later := sections[i + 1..];
    assert sections[i..][0] == sections[i] && sections[i..][1..] == later;
    assert later[j - i - 1] == sections[j];
    assert forall k :: 0 <= k < j - i - 1 ==> later[k] == sections[k + i + 1];
    CollectSectionsTakes(sections[i..], Decode(sections[i].entries).value);
    CollectSectionsFound(later, Some(Decode(sections[i].entries).value), j - i - 1);
  }

  /** The first `Bundle` section that decodes becomes the record found so far. */
  lemma CollectSectionsTakes(sections: seq<Section>, b: Bundle)
    requires sections != [] && sections[0].name == SectionName
    requires Decode(sections[0].entries) == Ok(b)
    ensures CollectSections(sections, None) == CollectSections(sections[1..], Some(b))
  {
  }

  /** A whole manifest survives encoding and decoding exactly when its tag list is one the list codec carries. */
  lemma ConfigRoundTrip(c: BundleConfig)
    ensures DecodeConfig(EncodeConfig(c)) == Ok(c) <==> ListRoundTrips(c.bundle.launcherTags)
  {
    RoundTrip(c.bundle);
    DecodeConfigOneSection(EncodeConfig(c), 0);
  }
}
