/**
  Associating model pictures with registered codes: the extension filter over
  a folder listing, the substring test, and what a scan of a folder does to
  the registry. The folder listing and the set of paths that exist are inputs.
 */
module PictureScan {
  import opened EanCode

  /** The suffixes the folder filter keeps, tested case-sensitively and
      without a dot. */
  const PictureSuffixes: seq<string> := ["jpg", "jpeg", "png", "gif", "tif", "tiff"]

  /** `name.endswith(('jpg', 'jpeg', 'png', 'gif', 'tif', 'tiff'))`. */
  function IsPictureName(name: string): (picture: bool)
    ensures picture ==> |name| >= 3
  {
    exists suffix :: suffix in PictureSuffixes && EndsWith(name, suffix)
  }

  /** The test is case-sensitive and does not look for a dot. */
  lemma PictureNameExamples()
    ensures IsPictureName("shoe.jpg") && IsPictureName("shoejpg") && IsPictureName("shoe.tiff")
    ensures !IsPictureName("shoe.JPG") && !IsPictureName("shoe.bmp")
  {
    assert EndsWith("shoe.jpg", PictureSuffixes[0]);
    assert EndsWith("shoejpg", PictureSuffixes[0]);
    assert EndsWith("shoe.tiff", PictureSuffixes[5]);
    NoPictureEnding("shoe.JPG");
    NoPictureEnding("shoe.bmp");
  }

  /** Every suffix ends in 'g' or 'f', so a name ending otherwise is dropped. */
  lemma NoPictureEnding(name: string)
    requires name != [] && name[|name| - 1] != 'g' && name[|name| - 1] != 'f'
    ensures !IsPictureName(name)
  {
    forall suffix | suffix in PictureSuffixes ensures !EndsWith(name, suffix) {
      LastCharOfSuffix(name, suffix);
    }
  }

  lemma LastCharOfSuffix(name: string, suffix: string)
    requires suffix != []
    ensures EndsWith(name, suffix) ==> name[|name| - 1] == suffix[|suffix| - 1]
  {
    if EndsWith(name, suffix) {
      assert name[|name| - |suffix|..][|suffix| - 1] == name[|name| - 1];
    }
  }

  /** The listing filtered to picture names, in listing order. */
  function KeepPictures(listing: seq<string>): (kept: seq<string>)
    ensures |kept| <= |listing|
    ensures forall name :: name in kept ==> IsPictureName(name)
  {
    if listing == [] then []
    else
      var init, last := listing[..|listing| - 1], listing[|listing| - 1];
      KeepPictures(init) + (if IsPictureName(last) then [last] else [])
  }

  /** The filter keeps every picture name as often as the listing holds it,
      and nothing else. */
  lemma {:induction false} KeepPicturesCounts(listing: seq<string>, name: string)
    ensures multiset(KeepPictures(listing))[name] == if IsPictureName(name) then multiset(listing)[name] else 0
  {
    if listing != [] {
      var init, last := listing[..|listing| - 1], listing[|listing| - 1];
      KeepPicturesCounts(init, name);
      assert listing == init + [last];
      assert multiset(listing) == multiset(init) + multiset([last]);
    }
  }

  /** The filter keeps the listing's order: filtering a concatenation is
      concatenating the filtered parts. */
  lemma {:induction false} KeepPicturesAppend(a: seq<string>, b: seq<string>)
    ensures KeepPictures(a + b) == KeepPictures(a) + KeepPictures(b)
  {
    if b == [] {
      assert a + b == a;
    } else {
      var init, last := b[..|b| - 1], b[|b| - 1];
      KeepPicturesAppend(a, init);
      var tail := if IsPictureName(last) then [last] else [];
      assert (a + b)[..|a + b| - 1] == a + init;
      assert (a + b)[|a + b| - 1] == last;
      assert KeepPictures(a + b) == KeepPictures(a + init) + tail;
      assert KeepPictures(b) == KeepPictures(init) + tail;
    }
  }

  /** `code` occurs in `name` at position i. */
  predicate OccursAt(code: string, name: string, i: int) {
    0 <= i && i + |code| <= |name| && name[i..i + |code|] == code
  }

  /** Python's `code in name` for strings, decided left to right. */
  function IsSubstring(code: string, name: string): (found: bool)
    ensures found ==> |code| <= |name|
    ensures code == "" ==> found
    ensures EndsWith(name, code) ==> found
    decreases |name|
  {
    if |name| < |code| then false
    else name[..|code|] == code || IsSubstring(code, name[1..])
  }

  /** The decision procedure agrees with the definition of occurrence, both ways. */
  lemma {:induction false} IsSubstringIff(code: string, name: string)
    ensures IsSubstring(code, name) <==> exists i :: OccursAt(code, name, i)
    decreases |name|
  {
    if |name| < |code| {
      forall i | OccursAt(code, name, i) ensures false { }
    } else if name[..|code|] == code {
      assert OccursAt(code, name, 0);
    } else {
      IsSubstringIff(code, name[1..]);
      if IsSubstring(code, name[1..]) {
        var i :| OccursAt(code, name[1..], i);
        assert name[1..][i..i + |code|] == name[i + 1..i + 1 + |code|];
        assert OccursAt(code, name, i + 1);
      } else {
        forall i | OccursAt(code, name, i) ensures false {
          if i != 0 {
            assert name[1..][i - 1..i - 1 + |code|] == name[i..i + |code|];
            assert OccursAt(code, name[1..], i - 1);
          }
        }
      }
    }
  }

  /** The test the scan applies to a kept name: the code occurs in it and the
      joined path exists. */
  function Matches(code: string, folder: string, name: string, existing: set<string>): (matched: bool)
    ensures matched <==> (exists i :: OccursAt(code, name, i)) && Join(folder, name) in existing
  {
    IsSubstringIff(code, name);
    IsSubstring(code, name) && Join(folder, name) in existing
  }

  /** The position of the last name in `names` that matches `code`. */
  function LastMatch(code: string, folder: string, names: seq<string>, existing: set<string>): (r: Option<nat>)
    ensures r.Some? ==> r.value < |names| && Matches(code, folder, names[r.value], existing)
    ensures r.Some? ==> forall j :: r.value < j < |names| ==> !Matches(code, folder, names[j], existing)
    ensures r.None? ==> forall j :: 0 <= j < |names| ==> !Matches(code, folder, names[j], existing)
  {
    if names == [] then None
    else if Matches(code, folder, names[|names| - 1], existing) then Some(|names| - 1)
    else LastMatch(code, folder, names[..|names| - 1], existing)
  }

  /** An entry after the scan has offered it every name in `names`. */
  function Rescan(e: Entry, code: string, folder: string, names: seq<string>, existing: set<string>): (r: Entry)
    ensures r.eanCode == e.eanCode && r.product == e.product && r.brand == e.brand && r.imagePath == e.imagePath
  {
    match LastMatch(code, folder, names, existing)
    case Some(j) => e.(modelPath := Join(folder, names[j]))
    case None => e
  }

  /** Offering one more name changes the entry exactly when that name matches. */
  lemma RescanStep(e: Entry, code: string, folder: string, names: seq<string>, j: nat, existing: set<string>)
    requires j < |names|
    ensures Rescan(e, code, folder, names[..j + 1], existing)
         == if Matches(code, folder, names[j], existing) then e.(modelPath := Join(folder, names[j]))
            else Rescan(e, code, folder, names[..j], existing)
  {
    assert names[..j + 1][..j] == names[..j];
  }

  /** The registry after `browse_modelpicture_folder` has scanned the kept
      names of one folder. */
  function ScanModels(m: Codes, folder: string, kept: seq<string>, existing: set<string>): (r: Codes)
    ensures r.Keys == m.Keys
    ensures forall k :: k in m ==>
      && r[k].eanCode == m[k].eanCode && r[k].product == m[k].product
      && r[k].brand == m[k].brand && r[k].imagePath == m[k].imagePath
  {
    map k | k in m :: Rescan(m[k], k, folder, kept, existing)
  }

  /** A code that occurs in some kept, existing file ends up with the path of
      the last such file in listing order; a code with no such file keeps the
      model path it had. */
  lemma ScanModelsPath(m: Codes, folder: string, kept: seq<string>, existing: set<string>, code: string)
    requires code in m
    ensures var r := ScanModels(m, folder, kept, existing);
      if exists j :: 0 <= j < |kept| && Matches(code, folder, kept[j], existing) then
        exists j :: 0 <= j < |kept| && Matches(code, folder, kept[j], existing)
          && r[code].modelPath == Join(folder, kept[j])
          && forall j' :: j < j' < |kept| ==> !Matches(code, folder, kept[j'], existing)
      else
        r[code].modelPath == m[code].modelPath
  {
  }

  /** Scanning the same listing twice gives what scanning it once gives. */
  lemma ScanModelsIdempotent(m: Codes, folder: string, kept: seq<string>, existing: set<string>)
    ensures ScanModels(ScanModels(m, folder, kept, existing), folder, kept, existing)
         == ScanModels(m, folder, kept, existing)
  {
  }
}
