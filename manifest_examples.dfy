/**
 * Concrete manifests: the sections the library's own tests read, and what
 * the codec makes of them.  Keys are written through `KeyOf`, whose table
 * gives the literal key text (`KeyOf(StoreID)` is `StoreID`).
 */
module ManifestExamples {
  import opened Wrappers
  import opened DecodeErrors
  import opened ScalarCodecs
  import opened BundleManifest

  /** A store manifest with a version and an encrypted image, and no launcher fields. */
  function ImageBundle(name: string, t: BundleType, storeId: string, version: string, image: string): Bundle {
    Bundle(name, t, Some(storeId), None, None, Some(image), Some(version), false, false, None, [], None)
  }

  /** The fields up to `Version`, where such a record's entries all lie. */
  lemma ImageBundleLeading(b: Bundle)
    requires b.homebrewId.None? && b.exec.None? && b.storeId.Some? && b.encryptedImage.Some? && b.version.Some?
    ensures EncodeFields(b, [Name, Type, StoreID, HomebrewID, Exec, EncryptedImage, Version]) == [
      Entry(KeyOf(Name), b.name), Entry(KeyOf(Type), BundleTypeName(b.bundleType)),
      Entry(KeyOf(StoreID), b.storeId.value), Entry(KeyOf(EncryptedImage), b.encryptedImage.value),
      Entry(KeyOf(Version), b.version.value)]
  {
    var ev := Entry(KeyOf(Version), b.version.value);
    var ei := Entry(KeyOf(EncryptedImage), b.encryptedImage.value);
    var es := Entry(KeyOf(StoreID), b.storeId.value);
    var et := Entry(KeyOf(Type), BundleTypeName(b.bundleType));
    EncodeFieldsCons(b, Version, []);
    EncodeFieldsCons(b, EncryptedImage, [Version]);
    EncodeFieldsCons(b, Exec, [EncryptedImage, Version]);
    EncodeFieldsCons(b, HomebrewID, [Exec, EncryptedImage, Version]);
    EncodeFieldsCons(b, StoreID, [HomebrewID, Exec, EncryptedImage, Version]);
    EncodeFieldsCons(b, Type, [StoreID, HomebrewID, Exec, EncryptedImage, Version]);
    EncodeFieldsCons(b, Name, [Type, StoreID, HomebrewID, Exec, EncryptedImage, Version]);
  }

  /** The encoder writes such a record's fields in declaration order: `EncryptedImage` before `Version`. */
  lemma ImageBundleWritten(name: string, t: BundleType, storeId: string, version: string, image: string)
    ensures Encode(ImageBundle(name, t, storeId, version, image)) == [
      Entry(KeyOf(Name), name), Entry(KeyOf(Type), BundleTypeName(t)),
      Entry(KeyOf(StoreID), storeId), Entry(KeyOf(EncryptedImage), image),
      Entry(KeyOf(Version), version)]
  {
    var b := ImageBundle(name, t, storeId, version, image);
    var head := [Name, Type, StoreID, HomebrewID, Exec, EncryptedImage, Version];
    var tail := [Background, PreferXBoxMode, Launcher, LauncherTags, LauncherExec];
    assert AllFields == head + tail;
    EncodeFieldsAppend(b, head, tail);
    assert forall i :: 0 <= i < |tail| ==> FieldText(b, tail[i]).None?;
    EncodeFieldsAllSkipped(b, tail);
    ImageBundleLeading(b);
  }

  /** Exchanging the last two of five entries keeps the same entries. */
  lemma SwapLastTwo(w: seq<Entry>)
    requires |w| == 5
    ensures multiset(w) == multiset([w[0], w[1], w[2], w[4], w[3]])
  {
    assert w == [w[0], w[1], w[2]] + [w[3], w[4]];
    assert [w[0], w[1], w[2], w[4], w[3]] == [w[0], w[1], w[2]] + [w[4], w[3]];
  }

  /** The section as the library's test writes it: `Version` before `EncryptedImage`. */
  function ImageSection(name: string, t: BundleType, storeId: string, version: string, image: string): seq<Entry> {
    [Entry(KeyOf(Name), name), Entry(KeyOf(Type), BundleTypeName(t)),
     Entry(KeyOf(StoreID), storeId), Entry(KeyOf(Version), version),
     Entry(KeyOf(EncryptedImage), image)]
  }

  /**
   * A section listing `Version` before `EncryptedImage` decodes to the
   * record, and writing that record and reading it back gives it again.
   */
  lemma ImageBundleDecodes(name: string, t: BundleType, storeId: string, version: string, image: string)
    ensures Decode(ImageSection(name, t, storeId, version, image)) == Ok(ImageBundle(name, t, storeId, version, image))
    ensures Decode(Encode(ImageBundle(name, t, storeId, version, image))) == Ok(ImageBundle(name, t, storeId, version, image))
  {
    var b := ImageBundle(name, t, storeId, version, image);
    RoundTrip(b);
    ImageBundleWritten(name, t, storeId, version, image);
    var w := Encode(b);
    SwapLastTwo(w);
    DecodeOrderIrrelevant(w, ImageSection(name, t, storeId, version, image));
  }
}
