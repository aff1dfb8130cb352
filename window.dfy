/**
  The state behind the application window (the Python class `MainWindow`):
  the registry and the display lines of imported records, with the two actions
  that change them, importing a CSV file and scanning a model-picture folder.
  The widgets themselves are not modelled.
 */
module Window {
  import opened EanCode
  import opened Registry
  import opened CsvImport
  import opened PictureScan

  /** The first incomplete record of a run whose earlier records are complete
      is where the import stops. */
  lemma CompletePrefixAt(rows: seq<seq<string>>, i: nat)
    requires i < |rows| && AllComplete(rows[..i]) && !IsComplete(rows[i])
    ensures CompletePrefix(rows) == i
  {
    var n := CompletePrefix(rows);
    forall j | 0 <= j < i ensures IsComplete(rows[j]) {
      assert rows[..i][j] == rows[j];
    }
  }

  /** Setting the model path of an entry whose model path alone was already
      changed gives the entry with only the new model path. */
  lemma SetModelPathOver(m: Codes, code: string, current: Entry, path: string)
    requires code in m && IsValidCode(code)
    requires current == m[code].(modelPath := current.modelPath)
    ensures SetPath(m[code := current], code, ModelPath, path) == m[code := m[code].(modelPath := path)]
  {
  }

  /** Part way through a folder scan: the codes in `done` have been scanned,
      every other code is as it was `before`. */
  ghost predicate ScannedFor(current: Codes, before: Codes, done: set<string>, folder: string, kept: seq<string>, existing: set<string>) {
    && current.Keys == before.Keys
    && forall k :: k in before ==>
         current[k] == if k in done then Rescan(before[k], k, folder, kept, existing) else before[k]
  }

  /** Scanning one more code extends the scanned part by that code. */
  lemma ScannedForStep(current: Codes, before: Codes, done: set<string>, code: string, folder: string, kept: seq<string>, existing: set<string>)
    requires ScannedFor(current, before, done, folder, kept, existing)
    requires code in before && code !in done
    ensures ScannedFor(current[code := Rescan(current[code], code, folder, kept, existing)], before, done + {code}, folder, kept, existing)
  {
  }

  /** Once every code is scanned, the registry is the scan's result. */
  lemma ScannedForAll(current: Codes, before: Codes, done: set<string>, folder: string, kept: seq<string>, existing: set<string>)
    requires ScannedFor(current, before, done, folder, kept, existing) && before.Keys <= done
    ensures current == ScanModels(before, folder, kept, existing)
  {
  }

  class MainWindow {
    /** `ean_manager`. */
    const manager: Ean
    /** `ean_info`: one display line per imported record. */
    var eanInfo: seq<string>

    ghost predicate Valid()
      reads this, manager
    {
      manager.Valid()
    }

    constructor (programDirectory: string)
      ensures Valid() && fresh(manager)
      ensures manager.codes == map[] && manager.order == [] && eanInfo == []
    {
      manager := new Ean(programDirectory);
      eanInfo := [];
    }

    /** `import_ean_from_csv` on a file already read and split at ';':
        `header` is its first record and `rows` the records after it. Every
        record `DictReader` yields before the first failure goes through
        `add_ean_code` and adds one display line. */
    method ImportEanFromCsv(header: seq<string>, rows: seq<seq<string>>) returns (outcome: ImportOutcome)
      requires Valid()
      modifies this, manager
      ensures Valid()
      ensures var records := DictRecords(rows);
        && outcome == ImportOutcomeOf(header, records)
        && manager.codes == ImportRows(old(manager.codes), records[..ImportedCount(header, records)], manager.placeholder)
        && manager.order == ImportOrder(old(manager.order), records[..ImportedCount(header, records)])
        && eanInfo == old(eanInfo) + InfoLines(records[..ImportedCount(header, records)])
    {
      if header == [] {
        return NoHeader;
      }
      outcome := ImportRecords(header, DictRecords(rows));
    }

    /** The loop over the records of a file with a header row. */
    method ImportRecords(header: seq<string>, records: seq<seq<string>>) returns (outcome: ImportOutcome)
      requires Valid() && header != []
      modifies this, manager
      ensures Valid()
      ensures outcome == ImportOutcomeOf(header, records)
      ensures manager.codes == ImportRows(old(manager.codes), records[..ImportedCount(header, records)], manager.placeholder)
      ensures manager.order == ImportOrder(old(manager.order), records[..ImportedCount(header, records)])
      ensures eanInfo == old(eanInfo) + InfoLines(records[..ImportedCount(header, records)])
    {
      var i := 0;
      while i < |records|
        invariant 0 <= i <= |records|
        invariant Valid()
        invariant AllComplete(records[..i]) && (|header| < 3 ==> i == 0)
        invariant manager.codes == ImportRows(old(manager.codes), records[..i], manager.placeholder)
        invariant manager.order == ImportOrder(old(manager.order), records[..i])
        invariant eanInfo == old(eanInfo) + InfoLines(records[..i])
      {
        if |header| < 3 || !IsComplete(records[i]) {
          if |header| >= 3 {
            CompletePrefixAt(records, i);
          }
          return Aborted(i);
        }
        ImportStep(old(manager.codes), old(manager.order), records, i, manager.placeholder);
        ImportRecord(records[i]);
        i := i + 1;
      }
      assert records[..i] == records;
      return Imported;
    }

    /** One pass of the import loop: `add_ean_code(row[2], row[1], row[0])`
        and one display line. */
    method ImportRecord(row: seq<string>)
      requires Valid() && IsComplete(row)
      modifies this, manager
      ensures Valid()
      ensures manager.codes == AddCode(old(manager.codes), row[2], row[1], row[0], manager.placeholder)
      ensures manager.order == AddKey(old(manager.order), row[2])
      ensures eanInfo == old(eanInfo) + [InfoLine(row)]
    {
      var brand, product, code := row[0], row[1], row[2];
      var added := manager.AddEanCode(code, product, brand);
      eanInfo := eanInfo + [InfoLine(row)];
    }

    /** `browse_modelpicture_folder` on a folder whose listing is `listing`;
        `existing` is the set of paths that exist. An empty folder path (the
        dialog cancelled) does nothing. */
    method BrowseModelPictureFolder(folder: string, listing: seq<string>, existing: set<string>)
      requires Valid()
      modifies manager
      ensures Valid()
      ensures manager.order == old(manager.order)
      ensures manager.codes == if folder == "" then old(manager.codes)
                               else ScanModels(old(manager.codes), folder, KeepPictures(listing), existing)
    {
      if folder == "" {
        return;
      }
      var kept := KeepPictures(listing);
      var keys := manager.order;
      ghost var before := manager.codes;
      ghost var done: set<string> := {};
      var i := 0;
      while i < |keys|
        invariant 0 <= i <= |keys|
        invariant manager.Valid() && manager.order == keys
        invariant ScannedFor(manager.codes, before, done, folder, kept, existing)
        invariant forall j :: 0 <= j < i ==> keys[j] in done
        invariant forall j :: i <= j < |keys| ==> keys[j] !in done
      {
        var code := keys[i];
        ScannedForStep(manager.codes, before, done, code, folder, kept, existing);
        AssociateModel(code, folder, kept, existing);
        done := done + {code};
        i := i + 1;
      }
      ScannedForAll(manager.codes, before, done, folder, kept, existing);
    }

    /** The inner loop of the folder scan: offers every kept name to one
        registered code, updating its model path on each match. */
    method AssociateModel(code: string, folder: string, kept: seq<string>, existing: set<string>)
      requires Valid() && code in manager.codes
      modifies manager
      ensures Valid() && manager.order == old(manager.order)
      ensures manager.codes == old(manager.codes)[code := Rescan(old(manager.codes)[code], code, folder, kept, existing)]
    {
      ghost var start := manager.codes;
      assert start[code := Rescan(start[code], code, folder, kept[..0], existing)] == start;
      var j := 0;
      while j < |kept|
        invariant 0 <= j <= |kept|
        invariant manager.Valid() && manager.order == old(manager.order)
        invariant manager.codes == start[code := Rescan(start[code], code, folder, kept[..j], existing)]
      {
        var name := kept[j];
        ghost var current := Rescan(start[code], code, folder, kept[..j], existing);
        if IsSubstring(code, name) {
          var path := Join(folder, name);
          if path in existing {
            var outcome := manager.AddEanModel(code, path);
            SetModelPathOver(start, code, current, path);
          }
        }
        RescanStep(start[code], code, folder, kept, j, existing);
        j := j + 1;
      }
      assert kept[..j] == kept;
    }
  }
}
