/**
 * The manifest builders.  `BundleConfigBuilder` holds the two mandatory
 * fields and chooses the identification mode: a homebrew id or a store id.
 * Each mode has its own builder whose setters update single fields in place
 * and whose `Build` pins the fields that mode does not use.
 */
module Builders {
  import opened Wrappers
  import opened DecodeErrors
  import opened ScalarCodecs
  import opened BundleManifest

  // ---------------------------------------------------------------------
  // Builder states and what `Build` makes of them
  // ---------------------------------------------------------------------

  /** The fields of a homebrew builder. */
  datatype HomebrewState = HomebrewState(
    name: string,
    bundleType: BundleType,
    homebrewId: string,
    exec: Option<string>,
    version: Option<string>,
    preferXBoxMode: bool,
    launcher: Option<string>)

  /** The fields of a store builder. */
  datatype StoreState = StoreState(
    name: string,
    bundleType: BundleType,
    storeId: string,
    exec: Option<string>,
    version: Option<string>,
    background: bool,
    preferXBoxMode: bool,
    launcher: Option<string>,
    launcherTags: seq<string>,
    launcherExec: Option<string>,
    encryptedImage: Option<string>)

  /** The manifest a homebrew builder produces. */
  function HomebrewBuilt(s: HomebrewState): BundleConfig {
    BundleConfig(Bundle(
      name := s.name,
      bundleType := s.bundleType,
      storeId := None,
      homebrewId := Some(s.homebrewId),
      exec := s.exec,
      encryptedImage := None,
      version := s.version,
      background := false,
      preferXBoxMode := s.preferXBoxMode,
      launcher := s.launcher,
      launcherTags := [],
      launcherExec := None))
  }

  /** The manifest a store builder produces. */
  function StoreBuilt(s: StoreState): BundleConfig {
    BundleConfig(Bundle(
      name := s.name,
      bundleType := s.bundleType,
      storeId := Some(s.storeId),
      homebrewId := None,
      exec := s.exec,
      encryptedImage := s.encryptedImage,
      version := s.version,
      background := s.background,
      preferXBoxMode := s.preferXBoxMode,
      launcher := s.launcher,
      launcherTags := s.launcherTags,
      launcherExec := s.launcherExec))
  }

  /** The starting state of a homebrew builder: every optional field unset. */
  function HomebrewStart(name: string, bundleType: BundleType, id: string): HomebrewState {
    HomebrewState(name, bundleType, id, None, None, false, None)
  }

  /** The starting state of a store builder: every optional field unset. */
  function StoreStart(name: string, bundleType: BundleType, id: string): StoreState {
    StoreState(name, bundleType, id, None, None, false, false, None, [], None, None)
  }

  // ---------------------------------------------------------------------
  // Builder classes
  // ---------------------------------------------------------------------

  /** Holds the mandatory name and type until the identification mode is chosen. */
  class BundleConfigBuilder {
    var name: string
    var bundleType: BundleType

    constructor (name: string, bundleType: BundleType)
      ensures this.name == name && this.bundleType == bundleType
    {
      this.name := name;
      this.bundleType := bundleType;
    }

    /** Switches to a homebrew builder carrying the name, the type and the id. */
    method HomebrewId(id: string) returns (r: HomebrewBundleConfigBuilder)
      ensures fresh(r)
      ensures r.State() == HomebrewStart(name, bundleType, id)
    {
      r := new HomebrewBundleConfigBuilder(name, bundleType, id);
    }

    /** Switches to a store builder carrying the name, the type and the id. */
    method StoreId(id: string) returns (r: StoreBundleConfigBuilder)
      ensures fresh(r)
      ensures r.State() == StoreStart(name, bundleType, id)
    {
      r := new StoreBundleConfigBuilder(name, bundleType, id);
    }
  }

  /** Builds a manifest identified by a homebrew id. */
  class HomebrewBundleConfigBuilder {
    var name: string
    var bundleType: BundleType
    var homebrewId: string
    var exec: Option<string>
    var version: Option<string>
    var preferXBoxMode: bool
    var launcher: Option<string>

    function State(): HomebrewState
      reads this
    {
      HomebrewState(name, bundleType, homebrewId, exec, version, preferXBoxMode, launcher)
    }

    constructor (name: string, bundleType: BundleType, id: string)
      ensures State() == HomebrewStart(name, bundleType, id)
    {
      this.name := name;
      this.bundleType := bundleType;
      this.homebrewId := id;
      this.exec := None;
      this.version := None;
      this.preferXBoxMode := false;
      this.launcher := None;
    }

    method Version(version: string)
      modifies this
      ensures State() == old(State()).(version := Some(version))
    {
      this.version := Some(version);
    }

    method PreferXBoxMode(prefer: bool)
      modifies this
      ensures State() == old(State()).(preferXBoxMode := prefer)
    {
      this.preferXBoxMode := prefer;
    }

    method RequiresLauncher(launcher: string)
      modifies this
      ensures State() == old(State()).(launcher := Some(launcher))
    {
      this.launcher := Some(launcher);
    }

    method Exec(exec: string)
      modifies this
      ensures State() == old(State()).(exec := Some(exec))
    {
      this.exec := Some(exec);
    }

    method SetVersion(version: Option<string>)
      modifies this
      ensures State() == old(State()).(version := version)
    {
      this.version := version;
    }

    /** An absent flag resets the field to false. */
    method SetPreferXBoxMode(prefer: Option<bool>)
      modifies this
      ensures State() == old(State()).(preferXBoxMode := prefer.Some? && prefer.value)
    {
      this.preferXBoxMode := prefer.GetOr(false);
    }

    method SetRequiresLauncher(launcher: Option<string>)
      modifies this
      ensures State() == old(State()).(launcher := launcher)
    {
      this.launcher := launcher;
    }

    method SetExec(exec: Option<string>)
      modifies this
      ensures State() == old(State()).(exec := exec)
    {
      this.exec := exec;
    }

    /**
     * The manifest for the current fields.  It is identified by the homebrew
     * id alone and carries none of the store-only fields, whatever setters
     * were called.
     */
    method Build() returns (c: BundleConfig)
      ensures c == HomebrewBuilt(State())
      ensures c.bundle.storeId == None && c.bundle.homebrewId == Some(homebrewId)
      ensures !c.bundle.background && c.bundle.launcherTags == []
      ensures c.bundle.launcherExec == None && c.bundle.encryptedImage == None
      ensures c.bundle.name == name && c.bundle.bundleType == bundleType && c.bundle.exec == exec
      ensures c.bundle.version == version && c.bundle.preferXBoxMode == preferXBoxMode
      ensures c.bundle.launcher == launcher
    {
      c := BundleConfig(Bundle(
        name := name,
        bundleType := bundleType,
        storeId := None,
        homebrewId := Some(homebrewId),
        exec := exec,
        encryptedImage := None,
        version := version,
        background := false,
        preferXBoxMode := preferXBoxMode,
        launcher := launcher,
        launcherTags := [],
        launcherExec := None));
    }
  }

  /** Builds a manifest identified by a store id. */
  class StoreBundleConfigBuilder {
    var name: string
    var bundleType: BundleType
    var storeId: string
    var exec: Option<string>
    var version: Option<string>
    var background: bool
    var preferXBoxMode: bool
    var launcher: Option<string>
    var launcherTags: seq<string>
    var launcherExec: Option<string>
    var encryptedImage: Option<string>

    function State(): StoreState
      reads this
    {
      StoreState(name, bundleType, storeId, exec, version, background, preferXBoxMode,
        launcher, launcherTags, launcherExec, encryptedImage)
    }

    constructor (name: string, bundleType: BundleType, id: string)
      ensures State() == StoreStart(name, bundleType, id)
    {
      this.name := name;
      this.bundleType := bundleType;
      this.storeId := id;
      this.exec := None;
      this.version := None;
      this.background := false;
      this.preferXBoxMode := false;
      this.launcher := None;
      this.launcherTags := [];
      this.launcherExec := None;
      this.encryptedImage := None;
    }

    method Version(version: string)
      modifies this
      ensures State() == old(State()).(version := Some(version))
    {
      this.version := Some(version);
    }

    method Background(background: bool)
      modifies this
      ensures State() == old(State()).(background := background)
    {
      this.background := background;
    }

    method PreferXBoxMode(prefer: bool)
      modifies this
      ensures State() == old(State()).(preferXBoxMode := prefer)
    {
      this.preferXBoxMode := prefer;
    }

    method RequiresLauncher(launcher: string)
      modifies this
      ensures State() == old(State()).(launcher := Some(launcher))
    {
      this.launcher := Some(launcher);
    }

    /** Marks the bundle as a launcher: its executable and the tags it serves, together. */
    method ProvidesLauncher(exec: string, tags: seq<string>)
      modifies this
      ensures State() == old(State()).(launcherExec := Some(exec), launcherTags := tags)
    {
      this.launcherExec := Some(exec);
      this.launcherTags := tags;
    }

    method Exec(exec: string)
      modifies this
      ensures State() == old(State()).(exec := Some(exec))
    {
      this.exec := Some(exec);
    }

    method EncryptedImage(image: string)
      modifies this
      ensures State() == old(State()).(encryptedImage := Some(image))
    {
      this.encryptedImage := Some(image);
    }

    method SetVersion(version: Option<string>)
      modifies this
      ensures State() == old(State()).(version := version)
    {
      this.version := version;
    }

    /** An absent flag resets the field to false. */
    method SetBackground(background: Option<bool>)
      modifies this
      ensures State() == old(State()).(background := background.Some? && background.value)
    {
      this.background := background.GetOr(false);
    }

    /** An absent flag resets the field to false. */
    method SetPreferXBoxMode(prefer: Option<bool>)
      modifies this
      ensures State() == old(State()).(preferXBoxMode := prefer.Some? && prefer.value)
    {
      this.preferXBoxMode := prefer.GetOr(false);
    }

    method SetRequiresLauncher(launcher: Option<string>)
      modifies this
      ensures State() == old(State()).(launcher := launcher)
    {
      this.launcher := launcher;
    }

    /**
     * With an executable, sets it and the tags together; without one,
     * changes nothing, not even the tags.
     */
    method SetProvidesLauncher(exec: Option<string>, tags: seq<string>)
      modifies this
      ensures exec.Some? ==> State() == old(State()).(launcherExec := exec, launcherTags := tags)
      ensures exec.None? ==> State() == old(State())
    {
      if exec.Some? {
        this.launcherExec := exec;
        this.launcherTags := tags;
      }
    }

    method SetExec(exec: Option<string>)
      modifies this
      ensures State() == old(State()).(exec := exec)
    {
      this.exec := exec;
    }

    /** The manifest for the current fields, identified by the store id alone; every other field is copied. */
    method Build() returns (c: BundleConfig)
      ensures c == StoreBuilt(State())
      ensures c.bundle.storeId == Some(storeId) && c.bundle.homebrewId == None
      ensures c.bundle.name == name && c.bundle.bundleType == bundleType && c.bundle.exec == exec
      ensures c.bundle.version == version && c.bundle.background == background
      ensures c.bundle.preferXBoxMode == preferXBoxMode && c.bundle.launcher == launcher
      ensures c.bundle.launcherTags == launcherTags && c.bundle.launcherExec == launcherExec
      ensures c.bundle.encryptedImage == encryptedImage
    {
      c := BundleConfig(Bundle(
        name := name,
        bundleType := bundleType,
        storeId := Some(storeId),
        homebrewId := None,
        exec := exec,
        encryptedImage := encryptedImage,
        version := version,
        background := background,
        preferXBoxMode := preferXBoxMode,
        launcher := launcher,
        launcherTags := launcherTags,
        launcherExec := launcherExec));
    }
  }

  // ---------------------------------------------------------------------
  // What the built manifests promise
  // ---------------------------------------------------------------------

  /** Every homebrew manifest survives writing and reading back unchanged. */
  lemma HomebrewBuildRoundTrip(s: HomebrewState)
    ensures DecodeConfig(EncodeConfig(HomebrewBuilt(s))) == Ok(HomebrewBuilt(s))
  {
    ConfigRoundTrip(HomebrewBuilt(s));
  }

  /**
   * A store manifest survives writing and reading back exactly when its
   * launcher tags are a list the `;` codec carries: no tag holds `;` and the
   * last tag is not empty.
   */
  lemma StoreBuildRoundTrip(s: StoreState)
    ensures DecodeConfig(EncodeConfig(StoreBuilt(s))) == Ok(StoreBuilt(s)) <==> ListRoundTrips(s.launcherTags)
  {
    ConfigRoundTrip(StoreBuilt(s));
  }

  /** The first four fields written, then whatever the rest write. */
  lemma EncodeLeadingFields(b: Bundle)
    ensures Encode(b) == EncodeFields(b, [Name, Type, StoreID, HomebrewID]) + EncodeFields(b, AllFields[4..])
  {
    assert Encode(b) == EncodeFields(b, AllFields);
    assert AllFields == [Name, Type, StoreID, HomebrewID] + AllFields[4..];
    EncodeFieldsAppend(b, [Name, Type, StoreID, HomebrewID], AllFields[4..]);
  }

  /** What the first four fields write. */
  lemma LeadingFieldsWritten(b: Bundle)
    ensures EncodeFields(b, [Name, Type, StoreID, HomebrewID]) ==
      [Entry(KeyOf(Name), b.name), Entry(KeyOf(Type), BundleTypeName(b.bundleType))]
      + (if b.storeId.Some? then [Entry(KeyOf(StoreID), b.storeId.value)] else [])
      + (if b.homebrewId.Some? then [Entry(KeyOf(HomebrewID), b.homebrewId.value)] else [])
  {
    assert [Name, Type, StoreID, HomebrewID][1..] == [Type, StoreID, HomebrewID];
    assert [Type, StoreID, HomebrewID][1..] == [StoreID, HomebrewID];
    assert [StoreID, HomebrewID][1..] == [HomebrewID];
    assert [HomebrewID][1..] == [];
    var h := if b.homebrewId.Some? then [Entry(KeyOf(HomebrewID), b.homebrewId.value)] else [];
    var t := if b.storeId.Some? then [Entry(KeyOf(StoreID), b.storeId.value)] else [];
    assert EncodeFields(b, [HomebrewID]) == h + EncodeFields(b, []);
    assert EncodeFields(b, [StoreID, HomebrewID]) == t + h;
    assert EncodeFields(b, [Type, StoreID, HomebrewID]) == [Entry(KeyOf(Type), BundleTypeName(b.bundleType))] + (t + h);
  }

  /** A homebrew builder with only its mandatory fields writes the name, the type and the id, nothing else. */
  lemma HomebrewStartWritesIdOnly(name: string, bundleType: BundleType, id: string)
    ensures Encode(HomebrewBuilt(HomebrewStart(name, bundleType, id)).bundle) ==
      [Entry(KeyOf(Name), name), Entry(KeyOf(Type), BundleTypeName(bundleType)), Entry(KeyOf(HomebrewID), id)]
  {
    var b := HomebrewBuilt(HomebrewStart(name, bundleType, id)).bundle;
    var tail := AllFields[4..];
    assert forall i :: 0 <= i < |tail| ==> FieldText(b, tail[i]).None?;
    EncodeFieldsAllSkipped(b, tail);
    EncodeLeadingFields(b);
    LeadingFieldsWritten(b);
  }

  /** A store builder with only its mandatory fields writes the name, the type and the id, nothing else. */
  lemma StoreStartWritesIdOnly(name: string, bundleType: BundleType, id: string)
    ensures Encode(StoreBuilt(StoreStart(name, bundleType, id)).bundle) ==
      [Entry(KeyOf(Name), name), Entry(KeyOf(Type), BundleTypeName(bundleType)), Entry(KeyOf(StoreID), id)]
  {
    var b := StoreBuilt(StoreStart(name, bundleType, id)).bundle;
    var tail := AllFields[4..];
    assert forall i :: 0 <= i < |tail| ==> FieldText(b, tail[i]).None?;
    EncodeFieldsAllSkipped(b, tail);
    EncodeLeadingFields(b);
    LeadingFieldsWritten(b);
  }
}
