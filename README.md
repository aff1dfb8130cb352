# EAN label generator: registry, import, picture association and label grid

This project models the core of a small desktop tool that prints EAN-13 product
labels. The tool keeps an in-memory registry of EAN codes, each with a product
name, a brand name and two picture paths. The registry is filled from a CSV
file. A folder of model pictures is then matched against the codes by file
name. Finally the tool lays out a grid of identical labels for each code.

The Dafny modules follow the program's parts:

- `EanCode` (`ean_code.dfy`): the code format test, the registry record, and
  the functions on the registry's dictionary that specify each update (`AddCode`,
  `SetPath`, `Lookup`). It also holds POSIX `os.path.join`.
- `Registry` (`registry.dfy`): the class `EAN` as class `Ean`. Its dictionary
  is a `map` field and its insertion order is a `seq` field. The methods update
  both in place. Each method's `ensures` ties the new dictionary to the
  `EanCode` function of the old one.
- `CsvImport` (`csv_import.dfy`): what importing a file's records does. This
  covers where the import stops, the display lines it appends, and the registry
  it leaves. The main result is that the last record for a code wins.
- `PictureScan` (`picture_scan.dfy`): the extension filter, Python's substring
  test, the "last matching file in listing order" rule, and the registry after
  a scan. Scanning is proved idempotent.
- `Window` (`window.dfy`): the state of the class `MainWindow` (the registry
  and the display lines) with the import loop and the nested scan loop as
  methods. These methods are proved against the `CsvImport` and `PictureScan`
  functions.
- `Tickets` (`tickets.dfy`): the cell loop of `generate_tickets_pdf`. It places
  exactly `duplicates` tickets, ticket `i` goes to column `i % 3` and row `i // 3`,
  cells are never shared, and the loop ignores the computed `rows`.

Inputs that come from the outside world are parameters:

- CSV records arrive already split into fields at `;`.
- A folder listing is a sequence of names.
- `os.path.exists` is a set of existing paths.
- The program's own directory is a constructor argument.

Behaviour of the code that the model keeps exactly:

- Label count: the cell loop places all `duplicates` cells, including row
  indices at or past the computed `rows`; no label is dropped. `Tickets.TicketsWithinRows` states
  exactly when this happens. The program's only call uses the default of 33
  labels, and the page holds `int(844.72 / 80) = 10` rows, so labels 30 to 32
  get row index 10, one past the computed `rows` (`Tickets.DefaultCallOverflows`).
- Extension filter: `endswith` with the six suffixes `jpg`, `jpeg`, `png`,
  `gif`, `tif` and `tiff` is case-sensitive and needs no dot.
- Match rule: the code may occur anywhere in the file name.
- Which picture is set: a scan sets `model_path`, and the label shows
  `model_path`, not `image_path`.
- CSV records: fields are split at `;` whatever the sniffed dialect says,
  because the explicit `delimiter=';'` overrides it. Blank lines are skipped by
  `DictReader` and never reach the loop (`CsvImport.DictRecords`).

## Model

| member | source | states |
|---|---|---|
| `EanCode.Join` | main.py:275 | the joined path ends with the file name; an absolute name replaces the folder; otherwise the path starts with the folder, and exactly one `/` is inserted, at the folder's end, precisely when the folder is non-empty and does not already end in `/` |
| `EanCode.IsValidCode` | main.py:42 | a code passes the format test exactly when it has 13 characters and each of them is a digit `0`..`9` |
| `EanCode.AddCode` | main.py:41-48 | a 13-digit code is stored as {code, product, brand} with both paths set to the placeholder, replacing any earlier entry and its pictures, and the key set grows by that code only; any other code leaves the registry unchanged; other entries never change |
| `EanCode.SetPathOutcome` | main.py:51-64 | an update succeeds exactly for a well-formed registered code, is refused as invalid exactly for a malformed code, and fails as unknown (KeyError) exactly for a well-formed unregistered code |
| `EanCode.WithPath` | main.py:53 | replacing one picture path sets that path and leaves the other path, the code, the product and the brand as they were |
| `EanCode.SetPath` | main.py:51-64 | a path update keeps the key set; it changes only the named path of the named entry, and only on success; a malformed or unknown code leaves the registry unchanged |
| `EanCode.Lookup` | main.py:69-73 | a getter returns a path exactly for a registered code, and that path is the one stored in its entry |
| `EanCode.LookupAfterSetPath` | main.py:51-73 | after a successful update the getter returns exactly the path just set, and the other getter's result is unchanged |
| `EanCode.LookupAfterAddCode` | main.py:41-73 | after re-adding a code both getters return the placeholder, so earlier picture associations are lost |
| `Registry.Ean.constructor` | main.py:33-39 | a new registry is empty and its placeholder is `error.jpg` joined to the program directory |
| `Registry.Ean.AddEanCode` | main.py:41-48 | reports success exactly for a 13-digit code; the new dictionary is `AddCode` of the old; a new key is appended to the iteration order and an overwritten key keeps its place; the registry invariant (valid keys, each entry's code equals its key, order lists the keys once each) is kept |
| `Registry.Ean.UpdatePath` | main.py:51-64 | the outcome is `SetPathOutcome` and the new dictionary is `SetPath` of the old; the order and the invariant are kept |
| `Registry.Ean.AddEanImage` | main.py:51-56 | sets the product photo path as `SetPath` with the image field and reports the outcome; the invalid and unknown cases change nothing |
| `Registry.Ean.AddEanModel` | main.py:59-64 | sets the model photo path as `SetPath` with the model field and reports the outcome; the invalid and unknown cases change nothing |
| `Registry.Ean.GetEanCodes` | main.py:66-67 | returns the registry's own dictionary, in which every key is a 13-digit code, equals its entry's code and is listed in the key order |
| `Registry.Ean.GetImagePath` | main.py:69-70 | returns the stored product photo path exactly when the code is registered, and None where Python raises KeyError |
| `Registry.Ean.GetModelPath` | main.py:72-73 | returns the stored model photo path exactly when the code is registered, and None where Python raises KeyError |
| `CsvImport.DictRecords` | main.py:247-250 | the records the loop sees are the reader's records without the blank ones; no record handed on is empty |
| `CsvImport.DictRecordsCounts` | main.py:247-250 | every non-empty record is handed on as often as the file holds it, and no blank one is |
| `CsvImport.DictRecordsAppend` | main.py:247-250 | skipping blank lines keeps the records in file order |
| `CsvImport.CompletePrefix` | main.py:250-254 | the count of leading records that have a third field: every one before it has one, and the record at it has not |
| `CsvImport.ImportedCount` | main.py:249-254 | no record reaches the registry when the header has fewer than three names; with three or more names every record before the count is complete, and the record at the count (if any) is the first incomplete one |
| `CsvImport.ImportOutcomeOf` | main.py:241-264 | the import reports "no header" exactly for an empty header row; it completes only when every record was imported, and otherwise aborts at the first record it could not import |
| `CsvImport.InfoLine` | main.py:255 | the display line is `EAN: `, the code, `, Product: `, the product, `, Brand: `, the brand, so each field can be read back at its position |
| `CsvImport.InfoLines` | main.py:255 | one display line per record, whether or not its code is valid, in record order, each `EAN: …, Product: …, Brand: …` |
| `CsvImport.ImportRows` | main.py:250-254 | an import never removes a code, only adds well-formed ones, and leaves every code that no record carries exactly as it was |
| `CsvImport.ImportOrder` | main.py:250-254 | the key order after an import extends the old order, and every appended key is a well-formed code that was not there before |
| `CsvImport.ImportOrderKeys` | main.py:250-254 | after an import the key order holds every well-formed record code, nothing but old keys and record codes, and no key twice when the old order had none twice |
| `CsvImport.FirstRowFor` | main.py:250-254 | finds the first record whose code column equals the code, with no earlier record for it, or None when no record has it |
| `CsvImport.ImportOrderFirstSeen` | main.py:250-254 | every key an import appends has a record, and appended keys follow the order of their first records, as a dict keeps first insertion order |
| `CsvImport.ImportStep` | main.py:250-255 | importing one more complete record applies `add_ean_code` to its third, second and first fields, and appends exactly one display line |
| `CsvImport.LastRowFor` | main.py:250-254 | finds the last record whose code column equals the code, with no later record for it, or None when no record has it |
| `CsvImport.ImportLastRowWins` | main.py:250-254 | after an import a well-formed code that some record carries holds the product and brand of its last record, with placeholder paths; every other code is exactly as before |
| `CsvImport.ImportKeys` | main.py:250-254 | after an import the registered codes are the old ones plus the well-formed codes among the records |
| `PictureScan.IsPictureName` | main.py:270-271 | a name the filter accepts is at least three characters long |
| `PictureScan.PictureNameExamples` | main.py:271 | `shoe.jpg`, `shoejpg` and `shoe.tiff` are kept; `shoe.JPG` and `shoe.bmp` are dropped |
| `PictureScan.KeepPictures` | main.py:270-271 | every kept name ends in one of the six picture suffixes, and the filter never lengthens the listing |
| `PictureScan.KeepPicturesCounts` | main.py:270-271 | each picture name is kept as many times as the listing holds it, and no other name is kept |
| `PictureScan.KeepPicturesAppend` | main.py:270-271 | the filter keeps listing order: filtering a concatenation concatenates the filtered parts |
| `PictureScan.IsSubstringIff` | main.py:274 | the substring test holds exactly when the code occurs at some position of the name (both directions) |
| `PictureScan.IsSubstring` | main.py:274 | a code found in a name is no longer than it; the empty code is found in every name; a code at the end of the name is found |
| `PictureScan.Matches` | main.py:274-276 | a name matches exactly when the code occurs in it at some position and the folder joined with the name exists |
| `PictureScan.LastMatch` | main.py:273-277 | finds the last kept name that contains the code and whose joined path exists, with no later name matching, or None when no name matches |
| `PictureScan.RescanStep` | main.py:273-277 | offering one more name to an entry sets its model path to that name's path exactly when the name matches, and otherwise leaves the result of the earlier names |
| `PictureScan.Rescan` | main.py:273-277 | offering names to an entry keeps its code, product, brand and product photo path |
| `PictureScan.ScanModels` | main.py:272-277 | a scan keeps the registered codes and every field except the model path |
| `PictureScan.ScanModelsPath` | main.py:272-277 | a code with some matching kept, existing file gets the folder joined with the last such file in listing order; a code with none keeps its model path |
| `PictureScan.ScanModelsIdempotent` | main.py:266-277 | scanning the same listing twice gives the same registry as scanning it once |
| `Window.MainWindow.constructor` | main.py:204-205 | a new window has an empty registry and no display lines |
| `Window.MainWindow.ImportEanFromCsv` | main.py:240-264 | an empty header ends with "no header" and changes nothing; otherwise blank lines are skipped and the outcome is `ImportOutcomeOf` of the remaining records; the records before the stopping point go through `add_ean_code` in order (the registry is `ImportRows` of the old one, the key order is `ImportOrder` of the old one) and add one display line each |
| `Window.MainWindow.ImportRecords` | main.py:250-264 | the loop over the records of a file with a header: outcome, registry, key order and display lines as for the whole import |
| `Window.MainWindow.ImportRecord` | main.py:251-255 | one record: the registry becomes `AddCode` with its third, second and first fields, the key order gains the code if it is new and well-formed, and one display line is appended |
| `Window.MainWindow.BrowseModelPictureFolder` | main.py:266-277 | a cancelled dialog changes nothing; otherwise the registry becomes `ScanModels` of the old one over the filtered listing, and the key order is kept |
| `Window.MainWindow.AssociateModel` | main.py:273-277 | offering every kept name to one registered code changes only that code's entry, to the entry after the last match |
| `Tickets.PlaceTickets` | main.py:109-162 | exactly `duplicates` tickets are placed (none for a negative count); ticket i lies in column i mod 3 (always less than 3) and row i div 3; each shows the entry's model picture, its code, and the product and brand lines |
| `Tickets.TicketsFillGrid` | main.py:109-112 | distinct tickets occupy distinct (row, column) cells, and each cell of the filled grid holds the ticket whose index it denotes |
| `Tickets.RowsNeeded` | main.py:102 | the rows needed are the ceiling of the count divided by 3 |
| `Tickets.Rows` | main.py:102 | `rows` is the smaller of the rows needed and the rows that fit on the page |
| `Tickets.TicketsWithinRows` | main.py:101-112 | every placed ticket lies within the first `rows` rows if and only if the count is at most 3 times the page capacity; beyond that, tickets are still placed in further rows |
| `Tickets.DefaultCallOverflows` | main.py:76-112 | with the default 33 tickets and a page of 10 rows, `rows` is 10 but tickets 30 to 32 are placed in row 10 |

## Left out

- Digits: Python's `str.isdigit` accepts every Unicode character with a digit value, including non-decimal ones such as superscript `²` and circled digits. The model accepts only `'0'`..`'9'`. Dafny characters are Unicode scalar values, so the only Python strings the model cannot represent are those holding lone surrogates.
- Console messages (`print`): they are modelled as returned outcomes (`added`, `Outcome`, `ImportOutcome`), not as text.
- CSV parsing: opening the file, reading it, and splitting it into records at `;` are library I/O. The sniffed dialect still supplies the quoting rules, which are not modelled. A file that cannot be opened, or whose sample the sniffer rejects, ends the import before any record; the model has no input for either case. A file is given as its header record and its later records, with columns taken by position. Two things are not modelled:
  - the way `DictReader` maps duplicate header names;
  - a record with more fields than the header.
- File system: `os.listdir` and `os.path.exists` are inputs (a listing and a set of existing paths), and they do not change during a scan. `os.path.join` is modelled with POSIX rules only.
- GUI: every PyQt5 widget is left out. This includes the list widgets and their refresh after an import or a scan, the thumbnails, the dialogs, the progress bar and `processEvents`. An empty folder path stands for a cancelled dialog.
- PDF output: everything reportlab draws is left out. This covers the canvas, dashed rectangles, images, paragraphs and saving. Every floating-point layout value is left out too: margins, spacings, x/y coordinates, and the `mm` and A4 sizes. The page capacity, `int(available_height / (label_height + vertical_spacing))`, is a parameter of `Tickets.Rows`.
- Barcodes: rendering the EAN-13 barcode, its check digit and its temporary file happen inside the barcode library and the OS, so they are left out. A ticket records only the code handed to the barcode generator; the digits the library finally draws (it computes its own check digit) are not modelled.
- Visible rows: the model gives each ticket a row index, not a position on the page. Which rows are visible is not modelled. The y coordinate at main.py:115 is the label's lower edge, so row 0 is drawn above the page's top edge, while row index 10 of the default call lies almost entirely on the page.
- Batch generation: `generate_pdf` and `generate_pdf_for_ean` are not modelled. These are the per-entry PDF loop, the output file name `<code>_EAN_labels.pdf` and the progress percentage. They only call `generate_tickets_pdf` once per registry entry.
- Tickets.RowsNeeded: Python computes `ceil(duplicates / cols)` with float division. The model uses exact integer ceiling, which differs only for counts too large to be exact as floats.
- The pip-install bootstrap at start-up is not modelled.
