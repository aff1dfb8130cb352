/**
  What importing a CSV file does to the registry and to the list of display
  lines. A record is the sequence of its fields, by position: brand first,
  product second, code third.
 */
module CsvImport {
  import opened EanCode

  /** The records `csv.DictReader` hands to the import loop: the reader's
      records after the header without the empty ones (blank lines), which
      `DictReader` skips, in file order. */
  function DictRecords(rows: seq<seq<string>>): (records: seq<seq<string>>)
    ensures |records| <= |rows|
    ensures forall record :: record in records ==> record != []
  {
    if rows == [] then []
    else
      var init, last := rows[..|rows| - 1], rows[|rows| - 1];
      DictRecords(init) + (if last == [] then [] else [last])
  }

  /** Every non-empty record is handed on as often as the file holds it, and
      no empty one is. */
  lemma {:induction false} DictRecordsCounts(rows: seq<seq<string>>, record: seq<string>)
    ensures multiset(DictRecords(rows))[record] == if record == [] then 0 else multiset(rows)[record]
  {
    if rows != [] {
      var init, last := rows[..|rows| - 1], rows[|rows| - 1];
      DictRecordsCounts(init, record);
      assert rows == init + [last];
      assert multiset(rows) == multiset(init) + multiset([last]);
    }
  }

  /** Blank lines are skipped in place: the records keep their file order. */
  lemma {:induction false} DictRecordsAppend(a: seq<seq<string>>, b: seq<seq<string>>)
    ensures DictRecords(a + b) == DictRecords(a) + DictRecords(b)
  {
    if b == [] {
      assert a + b == a;
    } else {
      var init, last := b[..|b| - 1], b[|b| - 1];
      DictRecordsAppend(a, init);
      var tail := if last == [] then [] else [last];
      assert (a + b)[..|a + b| - 1] == a + init;
      assert (a + b)[|a + b| - 1] == last;
      assert DictRecords(a + b) == DictRecords(a + init) + tail;
      assert DictRecords(b) == DictRecords(init) + tail;
    }
  }

  /** A record that reaches `add_ean_code` with three strings. A shorter one
      gives None for the code and makes the import stop. */
  predicate IsComplete(row: seq<string>) {
    |row| >= 3
  }

  predicate AllComplete(rows: seq<seq<string>>) {
    forall i :: 0 <= i < |rows| ==> IsComplete(rows[i])
  }

  /** The number of leading complete records. */
  function CompletePrefix(rows: seq<seq<string>>): (n: nat)
    ensures n <= |rows|
    ensures forall j :: 0 <= j < n ==> IsComplete(rows[j])
    ensures AllComplete(rows[..n])
    ensures n < |rows| ==> !IsComplete(rows[n])
  {
    if rows == [] || !IsComplete(rows[0]) then 0
    else
      var n := 1 + CompletePrefix(rows[1..]);
      assert rows[..n] == [rows[0]] + rows[1..][..n - 1];
      n
  }

  /** How many records the import hands to the registry before it stops: none
      when the header names fewer than three columns (the third column name is
      looked up for the first record and is missing), otherwise every record up
      to the first incomplete one. */
  function ImportedCount(header: seq<string>, rows: seq<seq<string>>): (n: nat)
    ensures n <= |rows|
    ensures AllComplete(rows[..n])
    ensures |header| < 3 ==> n == 0
    ensures |header| >= 3 && AllComplete(rows) ==> n == |rows|
    ensures |header| >= 3 && n < |rows| ==> !IsComplete(rows[n])
  {
    if |header| < 3 then 0 else CompletePrefix(rows)
  }

  /** How `import_ean_from_csv` ends. */
  datatype ImportOutcome =
    | Imported            // every record went through add_ean_code
    | NoHeader            // the file has no header row; nothing happened
    | Aborted(at: nat)    // an exception stopped the loop at record `at`

  function ImportOutcomeOf(header: seq<string>, rows: seq<seq<string>>): (r: ImportOutcome)
    ensures r == NoHeader <==> header == []
    ensures r == Imported ==> ImportedCount(header, rows) == |rows|
    ensures r.Aborted? ==> r.at == ImportedCount(header, rows) < |rows|
  {
    if header == [] then NoHeader
    else if ImportedCount(header, rows) < |rows| then Aborted(ImportedCount(header, rows))
    else Imported
  }

  /** The display line appended to `ean_info` for one record. */
  function InfoLine(row: seq<string>): (line: string)
    requires IsComplete(row)
    ensures |line| == 25 + |row[2]| + |row[1]| + |row[0]|
    ensures line[..5] == "EAN: " && line[5..5 + |row[2]|] == row[2]
    ensures line[5 + |row[2]|..16 + |row[2]|] == ", Product: "
    ensures line[16 + |row[2]|..16 + |row[2]| + |row[1]|] == row[1]
    ensures line[16 + |row[2]| + |row[1]|..25 + |row[2]| + |row[1]|] == ", Brand: "
    ensures line[25 + |row[2]| + |row[1]|..] == row[0]
  {
    "EAN: " + row[2] + ", Product: " + row[1] + ", Brand: " + row[0]
  }

  /** The display lines for a run of records: one per record, valid code or not. */
  function InfoLines(rows: seq<seq<string>>): (lines: seq<string>)
    requires AllComplete(rows)
    ensures |lines| == |rows|
    ensures forall i :: 0 <= i < |rows| ==> lines[i] == InfoLine(rows[i])
  {
    if rows == [] then []
    else InfoLines(rows[..|rows| - 1]) + [InfoLine(rows[|rows| - 1])]
  }

  /** The registry after feeding every record, in order, to add_ean_code. */
  function ImportRows(m: Codes, rows: seq<seq<string>>, placeholder: string): (r: Codes)
    requires AllComplete(rows)
    ensures m.Keys <= r.Keys
    ensures forall k :: k in r && k !in m ==> IsValidCode(k)
    ensures forall k :: k in m && (forall i :: 0 <= i < |rows| ==> rows[i][2] != k) ==> r[k] == m[k]
  {
    if rows == [] then m
    else
      var row := rows[|rows| - 1];
      AddCode(ImportRows(m, rows[..|rows| - 1], placeholder), row[2], row[1], row[0], placeholder)
  }

  /** The registry's key order after feeding every record, in order, to
      add_ean_code: a well-formed code not yet present is appended when first
      met, and a code already present keeps its place. */
  function ImportOrder(order: seq<string>, rows: seq<seq<string>>): (r: seq<string>)
    requires AllComplete(rows)
    ensures order <= r
    ensures forall i :: |order| <= i < |r| ==> IsValidCode(r[i]) && r[i] !in order
  {
    if rows == [] then order
    else
      AddKey(ImportOrder(order, rows[..|rows| - 1]), rows[|rows| - 1][2])
  }

  /** The key order after an import lists every well-formed code among the
      records, holds nothing but the old keys and the records' codes, and
      lists no key twice when the old order did not. */
  lemma {:induction false} ImportOrderKeys(order: seq<string>, rows: seq<seq<string>>)
    requires AllComplete(rows)
    ensures forall i :: 0 <= i < |rows| && IsValidCode(rows[i][2]) ==> rows[i][2] in ImportOrder(order, rows)
    ensures forall k :: k in ImportOrder(order, rows) ==> k in order || exists i :: 0 <= i < |rows| && rows[i][2] == k
    ensures Distinct(order) ==> Distinct(ImportOrder(order, rows))
  {
    if rows != [] {
      var init, code := rows[..|rows| - 1], rows[|rows| - 1][2];
      ImportOrderKeys(order, init);
      var before := ImportOrder(order, init);
      assert ImportOrder(order, rows) == AddKey(before, code);
      forall i | 0 <= i < |init| ensures rows[i] == init[i] { }
      forall k | k in ImportOrder(order, rows) ensures k in order || exists i :: 0 <= i < |rows| && rows[i][2] == k {
        if k !in before {
          assert rows[|rows| - 1][2] == k;
        } else if k !in order {
          var i :| 0 <= i < |init| && init[i][2] == k;
          assert rows[i][2] == k;
        }
      }
    }
  }

  /** The index of the first record whose code is `code`, if any. */
  function FirstRowFor(rows: seq<seq<string>>, code: string): (r: Option<nat>)
    requires AllComplete(rows)
    ensures r.Some? ==> r.value < |rows| && rows[r.value][2] == code
    ensures r.Some? ==> forall j :: 0 <= j < r.value ==> rows[j][2] != code
    ensures r.None? ==> forall j :: 0 <= j < |rows| ==> rows[j][2] != code
  {
    if rows == [] then None
    else
      var first := FirstRowFor(rows[..|rows| - 1], code);
      if first.Some? then first
      else if rows[|rows| - 1][2] == code then Some(|rows| - 1)
      else None
  }

  /** The keys an import appends follow the order of their first records,
      as a Python dict keeps first insertion order. */
  lemma {:induction false} ImportOrderFirstSeen(order: seq<string>, rows: seq<seq<string>>)
    requires AllComplete(rows)
    ensures forall p :: |order| <= p < |ImportOrder(order, rows)| ==> FirstRowFor(rows, ImportOrder(order, rows)[p]).Some?
    ensures forall p, q :: |order| <= p < q < |ImportOrder(order, rows)| ==>
      FirstRowFor(rows, ImportOrder(order, rows)[p]).value < FirstRowFor(rows, ImportOrder(order, rows)[q]).value
  {
    if rows != [] {
      var init, code := rows[..|rows| - 1], rows[|rows| - 1][2];
      ImportOrderFirstSeen(order, init);
      ImportOrderKeys(order, init);
      var before := ImportOrder(order, init);
      var r := ImportOrder(order, rows);
      assert r == AddKey(before, code);
      if r != before {
        assert FirstRowFor(init, code).None?;
        assert FirstRowFor(rows, code) == Some(|rows| - 1);
        forall p | |order| <= p < |before| ensures FirstRowFor(rows, r[p]).value < FirstRowFor(rows, r[|r| - 1]).value {
          assert r[p] == before[p];
        }
      }
      forall p, q | |order| <= p < q < |before|
        ensures FirstRowFor(rows, r[p]).value < FirstRowFor(rows, r[q]).value
      {
        assert r[p] == before[p] && r[q] == before[q];
        assert FirstRowFor(init, before[p]).Some? && FirstRowFor(init, before[q]).Some?;
        assert FirstRowFor(rows, before[p]) == FirstRowFor(init, before[p]);
        assert FirstRowFor(rows, before[q]) == FirstRowFor(init, before[q]);
        assert FirstRowFor(init, before[p]).value < FirstRowFor(init, before[q]).value;
      }
    }
  }

  /** Importing one more record is one more add_ean_code, one more display
      line and at most one more key in the order. */
  lemma ImportStep(m: Codes, order: seq<string>, rows: seq<seq<string>>, i: nat, placeholder: string)
    requires i < |rows| && AllComplete(rows[..i]) && IsComplete(rows[i])
    ensures AllComplete(rows[..i + 1])
    ensures ImportRows(m, rows[..i + 1], placeholder)
         == AddCode(ImportRows(m, rows[..i], placeholder), rows[i][2], rows[i][1], rows[i][0], placeholder)
    ensures InfoLines(rows[..i + 1]) == InfoLines(rows[..i]) + [InfoLine(rows[i])]
    ensures ImportOrder(order, rows[..i + 1]) == AddKey(ImportOrder(order, rows[..i]), rows[i][2])
  {
    assert rows[..i + 1][..i] == rows[..i];
  }

  /** The index of the last record whose code is `code`, if any. */
  function LastRowFor(rows: seq<seq<string>>, code: string): (r: Option<nat>)
    requires AllComplete(rows)
    ensures r.Some? ==> r.value < |rows| && rows[r.value][2] == code
    ensures r.Some? ==> forall j :: r.value < j < |rows| ==> rows[j][2] != code
    ensures r.None? ==> forall j :: 0 <= j < |rows| ==> rows[j][2] != code
  {
    if rows == [] then None
    else if rows[|rows| - 1][2] == code then Some(|rows| - 1)
    else LastRowFor(rows[..|rows| - 1], code)
  }

  /** Last record wins: after an import a well-formed code that appears in the
      records holds the product and brand of its last record and placeholder
      paths; every other code is exactly as it was before the import. */
  lemma {:induction false} ImportLastRowWins(m: Codes, rows: seq<seq<string>>, placeholder: string, code: string)
    requires AllComplete(rows)
    ensures var r := ImportRows(m, rows, placeholder);
      if IsValidCode(code) && LastRowFor(rows, code).Some? then
        var row := rows[LastRowFor(rows, code).value];
        code in r && r[code] == Entry(code, row[1], row[0], placeholder, placeholder)
      else
        (code in r <==> code in m) && (code in m ==> r[code] == m[code])
  {
    if rows != [] {
      var init := rows[..|rows| - 1];
      ImportLastRowWins(m, init, placeholder, code);
      if rows[|rows| - 1][2] != code {
        assert LastRowFor(rows, code) == LastRowFor(init, code);
        if LastRowFor(init, code).Some? {
          assert rows[LastRowFor(init, code).value] == init[LastRowFor(init, code).value];
        }
      }
    }
  }

  /** The codes registered after an import are those registered before plus the
      well-formed codes among the records. */
  lemma {:induction false} ImportKeys(m: Codes, rows: seq<seq<string>>, placeholder: string)
    requires AllComplete(rows)
    ensures ImportRows(m, rows, placeholder).Keys
         == m.Keys + (set i | 0 <= i < |rows| && IsValidCode(rows[i][2]) :: rows[i][2])
  {
    if rows != [] {
      var init := rows[..|rows| - 1];
      ImportKeys(m, init, placeholder);
      var n := |rows| - 1;
      assert (set i | 0 <= i < |rows| && IsValidCode(rows[i][2]) :: rows[i][2])
          == (set i | 0 <= i < |init| && IsValidCode(init[i][2]) :: init[i][2])
           + (if IsValidCode(rows[n][2]) then {rows[n][2]} else {});
    }
  }
}
