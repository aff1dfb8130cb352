/**
  EAN-13 codes and the records the registry keeps for them, together with the
  map-level functions that specify how the registry changes.
 */
module EanCode {

  datatype Option<T> = None | Some(value: T)

  /** A decimal digit. Python's `str.isdigit` also accepts other Unicode
      digits; this model keeps to '0'..'9'. */
  predicate IsDigit(c: char) {
    '0' <= c <= '9'
  }

  /** The format test every registry operation starts with: exactly 13
      characters, all of them digits. */
  function IsValidCode(code: string): (valid: bool)
    ensures valid <==> |code| == 13 && forall c :: c in code ==> IsDigit(c)
  {
    |code| == 13 && forall i :: 0 <= i < |code| ==> IsDigit(code[i])
  }

  /** One registry record: the code, its product and brand names, and the two
      picture paths (product photo and model photo). */
  datatype Entry = Entry(eanCode: string, product: string, brand: string, imagePath: string, modelPath: string)

  /** The registry's dictionary, keyed by code. */
  type Codes = map<string, Entry>

  /** Which of the two picture paths of an entry an operation sets. */
  datatype PathField = ImagePath | ModelPath

  /** How a path update ends: done, refused for its format, or refused because
      the code is well-formed but not registered (a KeyError in Python). */
  datatype Outcome = Updated | InvalidCode | UnknownCode

  predicate EndsWith(s: string, suffix: string) {
    |suffix| <= |s| && s[|s| - |suffix|..] == suffix
  }

  predicate StartsWith(s: string, prefix: string) {
    |prefix| <= |s| && s[..|prefix|] == prefix
  }

  /** The separator a relative name is joined to `folder` with. */
  function Separator(folder: string): string {
    if folder == "" || EndsWith(folder, "/") then "" else "/"
  }

  /** POSIX `os.path.join` of two components: an absolute name replaces the
      folder; otherwise a '/' goes between them unless the folder is empty or
      already ends with one. */
  function Join(folder: string, name: string): (path: string)
    ensures EndsWith(path, name)
    ensures StartsWith(name, "/") ==> path == name
    ensures !StartsWith(name, "/") ==> StartsWith(path, folder) && |folder| + |name| <= |path| <= |folder| + |name| + 1
    ensures !StartsWith(name, "/") ==>
      (|path| == |folder| + |name| + 1 <==> folder != "" && !EndsWith(folder, "/"))
    ensures |path| == |folder| + |name| + 1 ==> path[|folder|] == '/'
  {
    if StartsWith(name, "/") then name else folder + Separator(folder) + name
  }

  /** The registry after `add_ean_code`: a well-formed code is stored with both
      picture paths reset to the placeholder, replacing any earlier entry; any
      other code leaves the registry as it was. */
  function AddCode(m: Codes, code: string, product: string, brand: string, placeholder: string): (r: Codes)
    ensures IsValidCode(code) ==> r.Keys == m.Keys + {code}
    ensures IsValidCode(code) ==> r[code] == Entry(code, product, brand, placeholder, placeholder)
    ensures !IsValidCode(code) ==> r == m
    ensures forall k :: k in m && k != code ==> k in r && r[k] == m[k]
  {
    if IsValidCode(code) then m[code := Entry(code, product, brand, placeholder, placeholder)] else m
  }

  /** The dictionary's key order after `add_ean_code`: a well-formed code not
      yet present goes to the end; a code already present keeps its place. */
  function AddKey(order: seq<string>, code: string): seq<string> {
    if IsValidCode(code) && code !in order then order + [code] else order
  }

  /** No key occurs twice. */
  predicate Distinct(keys: seq<string>) {
    forall i, j :: 0 <= i < j < |keys| ==> keys[i] != keys[j]
  }

  /** The outcome of `add_ean_image` / `add_ean_model` for a code. */
  function SetPathOutcome(m: Codes, code: string): (r: Outcome)
    ensures r == Updated <==> IsValidCode(code) && code in m
    ensures r == InvalidCode <==> !IsValidCode(code)
    ensures r == UnknownCode <==> IsValidCode(code) && code !in m
  {
    if !IsValidCode(code) then InvalidCode
    else if code !in m then UnknownCode
    else Updated
  }

  function PathOf(e: Entry, field: PathField): string {
    match field
    case ImagePath => e.imagePath
    case ModelPath => e.modelPath
  }

  function Other(field: PathField): PathField {
    match field
    case ImagePath => ModelPath
    case ModelPath => ImagePath
  }

  /** The entry with one picture path replaced. */
  function WithPath(e: Entry, field: PathField, path: string): (r: Entry)
    ensures PathOf(r, field) == path
    ensures PathOf(r, Other(field)) == PathOf(e, Other(field))
    ensures r.eanCode == e.eanCode && r.product == e.product && r.brand == e.brand
  {
    match field
    case ImagePath => e.(imagePath := path)
    case ModelPath => e.(modelPath := path)
  }

  /** The registry after `add_ean_image` (field ImagePath) or `add_ean_model`
      (field ModelPath): only the named path of the named entry changes, and
      only when the update succeeds. */
  function SetPath(m: Codes, code: string, field: PathField, path: string): (r: Codes)
    ensures r.Keys == m.Keys
    ensures forall k :: k in m && k != code ==> r[k] == m[k]
    ensures SetPathOutcome(m, code) != Updated ==> r == m
    ensures SetPathOutcome(m, code) == Updated ==>
      && PathOf(r[code], field) == path
      && PathOf(r[code], Other(field)) == PathOf(m[code], Other(field))
      && r[code].eanCode == m[code].eanCode
      && r[code].product == m[code].product
      && r[code].brand == m[code].brand
  {
    if SetPathOutcome(m, code) == Updated then m[code := WithPath(m[code], field, path)] else m
  }

  /** `get_image_path` / `get_model_path`: the stored path, or None where
      Python raises KeyError. */
  function Lookup(m: Codes, code: string, field: PathField): (r: Option<string>)
    ensures r.Some? <==> code in m
    ensures code in m ==> r.value == PathOf(m[code], field)
  {
    if code in m then Some(PathOf(m[code], field)) else None
  }

  /** After a successful update the getter returns exactly the path just set,
      and the other getter still returns what it did before. */
  lemma LookupAfterSetPath(m: Codes, code: string, field: PathField, path: string)
    requires SetPathOutcome(m, code) == Updated
    ensures Lookup(SetPath(m, code, field, path), code, field) == Some(path)
    ensures Lookup(SetPath(m, code, field, path), code, Other(field)) == Lookup(m, code, Other(field))
  {
  }

  /** Re-adding a code discards the pictures associated with it before: both
      getters return the placeholder. */
  lemma LookupAfterAddCode(m: Codes, code: string, product: string, brand: string, placeholder: string, field: PathField)
    requires IsValidCode(code)
    ensures Lookup(AddCode(m, code, product, brand, placeholder), code, field) == Some(placeholder)
  {
  }
}
