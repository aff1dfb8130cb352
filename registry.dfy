/**
  The in-memory EAN registry (the Python class `EAN`): a dictionary from code
  to record, updated in place.
 */
module Registry {
  import opened EanCode

  class Ean {
    /** The dictionary `ean_codes`. */
    var codes: Codes
    /** The dictionary's keys in insertion order (the order Python iterates
        them in); overwriting an existing key keeps its position. */
    var order: seq<string>
    /** The placeholder picture, `error.jpg` beside the program. */
    const placeholder: string

    ghost predicate Valid()
      reads this
    {
      && (forall k :: k in codes ==> IsValidCode(k) && codes[k].eanCode == k)
      && (forall k :: k in codes <==> k in order)
      && (forall i, j :: 0 <= i < j < |order| ==> order[i] != order[j])
    }

    constructor (programDirectory: string)
      ensures Valid()
      ensures codes == map[] && order == []
      ensures placeholder == Join(programDirectory, "error.jpg")
    {
      codes := map[];
      order := [];
      placeholder := Join(programDirectory, "error.jpg");
    }

    /** `add_ean_code`; `added` is what the source reports on its console. */
    method AddEanCode(code: string, product: string, brand: string) returns (added: bool)
      requires Valid()
      modifies this
      ensures Valid()
      ensures added == IsValidCode(code)
      ensures codes == AddCode(old(codes), code, product, brand, placeholder)
      ensures order == AddKey(old(order), code)
    {
      added := IsValidCode(code);
      if added {
        if code !in codes {
          order := order + [code];
        }
        codes := codes[code := Entry(code, product, brand, placeholder, placeholder)];
      }
    }

    /** Shared body of `add_ean_image` and `add_ean_model`. */
    method UpdatePath(code: string, field: PathField, path: string) returns (outcome: Outcome)
      requires Valid()
      modifies this
      ensures Valid()
      ensures outcome == SetPathOutcome(old(codes), code)
      ensures codes == SetPath(old(codes), code, field, path)
      ensures order == old(order)
    {
      outcome := SetPathOutcome(codes, code);
      if outcome == Updated {
        codes := codes[code := WithPath(codes[code], field, path)];
      }
    }

    /** `add_ean_image`: sets the product photo of a registered code. */
    method AddEanImage(code: string, imagePath: string) returns (outcome: Outcome)
      requires Valid()
      modifies this
      ensures Valid()
      ensures outcome == SetPathOutcome(old(codes), code)
      ensures codes == SetPath(old(codes), code, ImagePath, imagePath)
      ensures order == old(order)
    {
      outcome := UpdatePath(code, ImagePath, imagePath);
    }

    /** `add_ean_model`: sets the model photo of a registered code. */
    method AddEanModel(code: string, modelPath: string) returns (outcome: Outcome)
      requires Valid()
      modifies this
      ensures Valid()
      ensures outcome == SetPathOutcome(old(codes), code)
      ensures codes == SetPath(old(codes), code, ModelPath, modelPath)
      ensures order == old(order)
    {
      outcome := UpdatePath(code, ModelPath, modelPath);
    }

    /** `get_ean_codes`: the dictionary itself, not a copy. */
    function GetEanCodes(): (r: Codes)
      reads this
      ensures r == codes
      ensures Valid() ==> forall k :: k in r ==> IsValidCode(k) && r[k].eanCode == k && k in order
    {
      codes
    }

    /** `get_image_path`: None where Python raises KeyError. */
    function GetImagePath(code: string): (r: Option<string>)
      reads this
      ensures r.Some? <==> code in codes
      ensures r.Some? ==> r.value == codes[code].imagePath
    {
      Lookup(codes, code, ImagePath)
    }

    /** `get_model_path`: None where Python raises KeyError. */
    function GetModelPath(code: string): (r: Option<string>)
      reads this
      ensures r.Some? <==> code in codes
      ensures r.Some? ==> r.value == codes[code].modelPath
    {
      Lookup(codes, code, ModelPath)
    }
  }
}
