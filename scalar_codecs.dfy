/**
 * The scalar codecs of the bundle manifest: the closed `BundleType` enum,
 * booleans written as the literal words `true`/`false`, and string lists
 * written as one `;`-separated scalar.
 */
module ScalarCodecs {
  import opened Wrappers
  import opened DecodeErrors

  // ---------------------------------------------------------------------
  // BundleType: printed as its variant name, parsed by exact match
  // ---------------------------------------------------------------------

  datatype BundleType = Game | Application | LauncherOnly

  /** The textual form of a bundle type: the variant's name. */
  function BundleTypeName(t: BundleType): string {
    match t
    case Game => "Game"
    case Application => "Application"
    case LauncherOnly => "LauncherOnly"
  }

  /** Parses a bundle type; only the three variant names, case-sensitive, are accepted. */
  function ParseBundleType(s: string): (r: Result<BundleType, DecodeError>)
    ensures r.Ok? <==> s == "Game" || s == "Application" || s == "LauncherOnly"
    ensures r.Ok? ==> BundleTypeName(r.value) == s
    ensures r.Err? ==> r.error == InvalidBundleType(s)
  {
    if s == "Game" then Ok(Game)
    else if s == "Application" then Ok(Application)
    else if s == "LauncherOnly" then Ok(LauncherOnly)
    else Err(InvalidBundleType(s))
  }

  /** Parsing the printed name of a bundle type gives that type back. */
  lemma BundleTypeRoundTrip(t: BundleType)
    ensures ParseBundleType(BundleTypeName(t)) == Ok(t)
  {
  }

  // ---------------------------------------------------------------------
  // Boolean codec
  // ---------------------------------------------------------------------

  /** The omission test for boolean fields: a false flag is not written. */
  function IsFalse(b: bool): bool {
    !b
  }

  function EncodeBool(b: bool): string {
    if b then "true" else "false"
  }

  /** Accepts exactly the two words `EncodeBool` writes; any other text is an error naming it. */
  function DecodeBool(s: string): (r: Result<bool, DecodeError>)
    ensures r.Ok? <==> s == "true" || s == "false"
    ensures r.Ok? ==> EncodeBool(r.value) == s
    ensures r.Err? ==> r.error == InvalidBoolean(s)
  {
    if s == "true" then Ok(true)
    else if s == "false" then Ok(false)
    else Err(InvalidBoolean(s))
  }

  /** Decoding an encoded boolean gives it back. */
  lemma BoolRoundTrip(b: bool)
    ensures DecodeBool(EncodeBool(b)) == Ok(b)
  {
  }

  // ---------------------------------------------------------------------
  // Semicolon-separated list codec
  // ---------------------------------------------------------------------

  const Separator: char := ';'

  /** The elements joined with one separator between neighbours (`intersperse` then `collect`). */
  function EncodeList(xs: seq<string>): string {
    if |xs| == 0 then ""
    else if |xs| == 1 then xs[0]
    else xs[0] + [Separator] + EncodeList(xs[1..])
  }

  /**
   * Rust's `str::split(';')`: the maximal separator-free segments, in order.
   * There is always at least one segment, and joining them restores the text.
   */
  function Split(s: string): (r: seq<string>)
    ensures |r| >= 1
    ensures forall i :: 0 <= i < |r| ==> Separator !in r[i]
    ensures EncodeList(r) == s
  {
    if s == [] then [""]
    else
      var rest := Split(s[1..]);
      if s[0] == Separator then
        assert ([""] + rest)[1..] == rest;
        [""] + rest
      else
        var r := [[s[0]] + rest[0]] + rest[1..];
        assert r[1..] == rest[1..];
        assert s == [s[0]] + s[1..];
        r
  }

  /** The text with one trailing separator removed, if it ends with one. */
  function WithoutTrailingSeparator(s: string): string {
    if s != [] && s[|s| - 1] == Separator then s[..|s| - 1] else s
  }

  /**
   * Splits on the separator and drops the last segment when it is empty, so a
   * single trailing separator is absorbed and the empty text gives no elements.
   * The elements carry no separator, and re-encoding them gives the text back
   * up to that one trailing separator.
   */
  function DecodeList(s: string): (r: seq<string>)
    ensures forall i :: 0 <= i < |r| ==> Separator !in r[i]
    ensures EncodeList(r) == WithoutTrailingSeparator(s)
    ensures r == [] <==> s == ""
  {
    var v := Split(s);
    if v[|v| - 1] == "" then
      DropLastEmptySegment(v);
      v[..|v| - 1]
    else
      KeepLastSegment(v);
      v
  }

  /** Joining after an empty last element leaves a trailing separator. */
  lemma DropLastEmptySegment(v: seq<string>)
    requires |v| >= 1 && v[|v| - 1] == ""
    requires forall i :: 0 <= i < |v| ==> Separator !in v[i]
    ensures EncodeList(v[..|v| - 1]) == WithoutTrailingSeparator(EncodeList(v))
    ensures EncodeList(v) == [] || EncodeList(v)[|EncodeList(v)| - 1] == Separator
  {
    if |v| == 1 {
    } else {
      var init := v[..|v| - 1];
      assert v == init + [""];
      EncodeListSnoc(init, "");
      assert EncodeList(v) == EncodeList(init) + [Separator];
    }
  }

  /** Joining after a non-empty separator-free last element never ends with a separator. */
  lemma KeepLastSegment(v: seq<string>)
    requires |v| >= 1 && v[|v| - 1] != ""
    requires Separator !in v[|v| - 1]
    ensures WithoutTrailingSeparator(EncodeList(v)) == EncodeList(v)
  {
    var last := v[|v| - 1];
    if |v| == 1 {
      assert last[|last| - 1] in last;
    } else {
      var init := v[..|v| - 1];
      assert v == init + [last];
      EncodeListSnoc(init, last);
      var s := EncodeList(v);
      assert s[|s| - 1] == last[|last| - 1];
      assert last[|last| - 1] in last;
    }
  }

  /** Appending an element appends a separator and that element. */
  lemma {:induction false} EncodeListSnoc(xs: seq<string>, x: string)
    requires |xs| >= 1
    ensures EncodeList(xs + [x]) == EncodeList(xs) + [Separator] + x
  {
    if |xs| == 1 {
      assert (xs + [x])[1..] == [x];
    } else {
      assert (xs + [x])[1..] == xs[1..] + [x];
      EncodeListSnoc(xs[1..], x);
    }
  }

  /** A separator-free text is a single segment. */
  lemma {:induction false} SplitSingleSegment(a: string)
    requires Separator !in a
    ensures Split(a) == [a]
  {
    if a != [] {
      assert Separator !in a[1..] by {
        forall i | 0 <= i < |a[1..]| ensures a[1..][i] != Separator {
          assert a[1..][i] == a[i + 1];
        }
      }
      SplitSingleSegment(a[1..]);
      assert [a[0]] + a[1..] == a;
    }
  }

  /** A separator-free prefix followed by a separator becomes the first segment. */
  lemma {:induction false} SplitLeadingSegment(a: string, t: string)
    requires Separator !in a
    ensures Split(a + [Separator] + t) == [a] + Split(t)
  {
    var s := a + [Separator] + t;
    if a == [] {
      assert s[0] == Separator && s[1..] == t;
    } else {
      assert s[0] == a[0] && s[0] != Separator;
      assert s[1..] == a[1..] + [Separator] + t;
      assert Separator !in a[1..] by {
        forall i | 0 <= i < |a[1..]| ensures a[1..][i] != Separator {
          assert a[1..][i] == a[i + 1];
        }
      }
      SplitLeadingSegment(a[1..], t);
      assert [a[0]] + a[1..] == a;
    }
  }

  /** Splitting is the inverse of joining a non-empty list of separator-free elements. */
  lemma {:induction false} SplitEncodeList(xs: seq<string>)
    requires |xs| >= 1
    requires forall i :: 0 <= i < |xs| ==> Separator !in xs[i]
    ensures Split(EncodeList(xs)) == xs
  {
    if |xs| == 1 {
      SplitSingleSegment(xs[0]);
    } else {
      SplitEncodeList(xs[1..]);
      SplitLeadingSegment(xs[0], EncodeList(xs[1..]));
      assert xs == [xs[0]] + xs[1..];
    }
  }

  /** The lists the list codec carries unchanged: no element holds the separator, and the last is non-empty. */
  predicate ListRoundTrips(xs: seq<string>) {
    && (forall i :: 0 <= i < |xs| ==> Separator !in xs[i])
    && (xs == [] || xs[|xs| - 1] != "")
  }

  /** Decoding an encoded list gives it back exactly when the list is one the codec can carry. */
  lemma ListRoundTrip(xs: seq<string>)
    ensures DecodeList(EncodeList(xs)) == xs <==> ListRoundTrips(xs)
  {
    var r := DecodeList(EncodeList(xs));
    if ListRoundTrips(xs) {
      if xs != [] {
        SplitEncodeList(xs);
      }
    } else if forall i :: 0 <= i < |xs| ==> Separator !in xs[i] {
      SplitEncodeList(xs);
      assert |r| == |xs| - 1;
    } else {
      var i :| 0 <= i < |xs| && Separator in xs[i];
      assert i < |r| ==> r[i] != xs[i];
    }
  }

  /** Splitting a text that ends in a separator gives an extra empty last segment. */
  lemma {:induction false} SplitTrailingSeparator(s: string)
    ensures Split(s + [Separator]) == Split(s) + [""]
  {
    var t := s + [Separator];
    if s == [] {
      assert t[1..] == [];
    } else {
      assert t[0] == s[0] && t[1..] == s[1..] + [Separator];
      SplitTrailingSeparator(s[1..]);
    }
  }

  /** One trailing separator after a non-empty last segment changes nothing: `"A;B;"` decodes like `"A;B"`. */
  lemma TrailingSeparatorAbsorbed(s: string)
    requires s != [] && s[|s| - 1] != Separator
    ensures DecodeList(s + [Separator]) == DecodeList(s)
  {
    var v := Split(s);
    SplitTrailingSeparator(s);
    var w := Split(s + [Separator]);
    assert w == v + [""];
    assert w[..|w| - 1] == v;
    if v[|v| - 1] == "" {
      DropLastEmptySegment(v);
      assert false;
    }
  }

  /** The empty text decodes to no elements. */
  lemma DecodeListEmpty()
    ensures DecodeList("") == []
  {
  }

  /** A lone separator is one empty element: only the second of its two empty segments is dropped. */
  lemma DecodeListLoneSeparator()
    ensures DecodeList(";") == [""]
  {
    assert Split(";") == [""] + Split("");
  }

  /** A trailing separator is absorbed: `"A;B;"` decodes to two elements. */
  lemma DecodeListTrailing()
    ensures DecodeList("A;B;") == ["A", "B"]
  {
    SplitEncodeList(["A", "B", ""]);
    assert EncodeList(["A", "B", ""]) == "A;B;";
  }

  /** An interior empty segment is kept: `"A;;B"` decodes to three elements. */
  lemma DecodeListInteriorEmpty()
    ensures DecodeList("A;;B") == ["A", "", "B"]
  {
    SplitEncodeList(["A", "", "B"]);
    assert EncodeList(["A", "", "B"]) == "A;;B";
  }

  /** Four tags separated by `;` decode to the four tags. */
  lemma DecodeListFourTags()
    ensures DecodeList("Tag1;Tag2;Tag3;Tag4") == ["Tag1", "Tag2", "Tag3", "Tag4"]
  {
    SplitEncodeList(["Tag1", "Tag2", "Tag3", "Tag4"]);
    assert EncodeList(["Tag1", "Tag2", "Tag3", "Tag4"]) == "Tag1;Tag2;Tag3;Tag4";
  }
}
