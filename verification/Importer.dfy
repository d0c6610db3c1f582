/** Importing the OCR sheet of one job: one record per row, each under a key that a second import
    recognises and that rows without a record number of their own do not share. */
module Importer {
  import opened Wrappers
  import opened NotRecorded
  import opened OrderedDict
  import L = RecordLog
  import ColumnNames

  /** A row under its header, in the order of the columns. */
  type Row = Dict<Value>

  function Cell(row: Row, column: string): Value {
    Get(row.vals, column)
  }

  datatype RecordKey = RecordKey(source: string, page: Option<int>, index: nat)

  /** A record as it is stored, with what its review does not change. */
  datatype Imported = Imported(record: L.Record, issues: seq<string>, confidence: Option<real>)

  type Records = map<RecordKey, Imported>

  /** `pageOf` and `confidenceOf` read a number from a cell, if it holds one; `page` is the real page when
      the document was split; `shown` is what a value of the audit is to whoever reads the record. */
  datatype Import = Import(page: Option<int>, pageOf: Value -> Option<int>, confidenceOf: Value -> Option<real>,
                           autoApprove: bool, normalizer: Normalizer, shown: Datum -> Value)

  const LOW_CONFIDENCE_THRESHOLD := 0.70

  const METADATA_COLUMNS := {
    "Confidence", "Status", "Created At", "Updated At", "Status Review", "Review Reason", "Missing Fields",
    "Source File", "Source Page", "Source Record", "Crop Folder", "Raw OCR JSON"}

  const EMPTY_FIELD_PLACEHOLDER := "TIADA MAKLUMAT"

  predicate IsMetadata(name: string) {
    name in METADATA_COLUMNS || "Raw " <= name || (|name| >= 4 && name[|name| - 4..] == " Raw")
  }

  predicate IsEmptyRow(row: Row) {
    forall k | k in row.vals :: row.vals[k] == Nil || row.vals[k] == Text("")
  }

  /** The items between semicolons, stripped, without the empty ones; `item` is the one being read. */
  function SplitItems(s: string, item: string): seq<string> {
    if s == "" then ItemOf(item)
    else if s[0] == ';' then ItemOf(item) + SplitItems(s[1..], "")
    else SplitItems(s[1..], item + [s[0]])
  }

  function ItemOf(item: string): seq<string> {
    if Strip(item) == "" then [] else [Strip(item)]
  }

  function SplitSemicolons(v: Value): seq<string> {
    if Falsy(v) then [] else SplitItems(Str(v), "")
  }

  function FillEmpty(fields: L.Fields, names: seq<string>): L.Fields {
    if names == [] then fields
    else
      var filled := FillEmpty(fields, names[..|names| - 1]);
      var name := names[|names| - 1];
      if Strip(StrOrEmpty(Cell(filled, name))) == "" then Put(filled, name, Text(EMPTY_FIELD_PLACEHOLDER)) else filled
  }

  predicate IsField(row: Row, k: string) {
    k != "" && !IsMetadata(k) && k in row.vals && row.vals[k] != Nil
  }

  /** The columns that hold a business value, in their order. */
  function FieldNames(row: Row, columns: seq<string>): seq<string> {
    if columns == [] then []
    else
      var last := columns[|columns| - 1];
      FieldNames(row, columns[..|columns| - 1]) + if IsField(row, last) then [last] else []
  }

  function FieldsOf(row: Row): L.Fields {
    var fields := Dict(FieldNames(row, row.keys), map k | k in row.vals && IsField(row, k) :: row.vals[k]);
    FillEmpty(fields, SplitSemicolons(Cell(row, "Missing Fields")))
  }

  /** The resolver's values: it writes over fields that are there, except for a Mas Kahwin it may add. */
  function WithValues(fields: L.Fields, values: Values): L.Fields {
    Dict(fields.keys + if MAS_KAHWIN in values && MAS_KAHWIN !in fields.vals then [MAS_KAHWIN] else [], values)
  }

  /** The audit as a dictionary. */
  function AuditFields(shown: Datum -> Value, normalized: map<string, Datum>): L.Fields {
    Dict((if AUDIT_ISSUES in normalized then [AUDIT_ISSUES] else [])
         + (if AUDIT_ORIGINALS in normalized then [AUDIT_ORIGINALS] else []),
         map k | k in normalized && k in {AUDIT_ISSUES, AUDIT_ORIGINALS} :: shown(normalized[k]))
  }

  /** What a record that nobody has approved starts with. */
  function InitialStatus(missing: seq<string>, confidence: Option<real>): L.Status {
    if missing != [] || (confidence.Some? && confidence.value < LOW_CONFIDENCE_THRESHOLD) then L.PendingReview
    else L.Approved
  }

  /** The resolver's answer for a row. */
  function ResolvedRow(imp: Import, row: Row): Option<Resolution> {
    if imp.autoApprove
    then Resolved(imp.normalizer, FieldsOf(row).vals, SplitSemicolons(Cell(row, "Review Reason")), map[])
    else None
  }

  function Payload(imp: Import, row: Row): Imported {
    var fields, issues := FieldsOf(row), SplitSemicolons(Cell(row, "Review Reason"));
    var confidence := imp.confidenceOf(Cell(row, "Confidence"));
    match ResolvedRow(imp, row)
    case Some(r) =>
      Imported(L.Created(WithValues(fields, r.values), AuditFields(imp.shown, r.normalized), [], L.Approved), [], confidence)
    case None => Imported(L.Created(fields, Empty(), [], InitialStatus([], confidence)), issues, confidence)
  }

  // ---- keys ----

  function ParseDecimal(digits: string): nat {
    if digits == "" then 0
    else
      var last := digits[|digits| - 1];
      10 * ParseDecimal(digits[..|digits| - 1]) + if IsDigit(last) then last as nat - '0' as nat else 0
  }

  function RecordIndex(v: Value): nat {
    if v == Nil then 0 else ParseDecimal(Digits(Str(v)))
  }

  function PageText(page: Option<int>): string {
    match page
    case None => "None"
    case Some(n) => if n < 0 then "-" + ColumnNames.Decimal(-n) else ColumnNames.Decimal(n)
  }

  function PageOf(imp: Import, row: Row): Option<int> {
    if imp.page.Some? then imp.page else imp.pageOf(Cell(row, "Source Page"))
  }

  /** The key text of the row at `position` of the sheet, counting from 1. */
  function SourceKey(imp: Import, row: Row, position: nat): string {
    var file, record := Cell(row, "Source File"), Cell(row, "Source Record");
    if !Falsy(record) then Str(file) + ":p" + PageText(PageOf(imp, row)) + ":" + Str(record)
    else if !Falsy(file) then Str(file) + ":p" + PageText(PageOf(imp, row)) + ":row-" + ColumnNames.Decimal(position)
    else "row-" + ColumnNames.Decimal(position)
  }

  function KeyOf(imp: Import, row: Row, position: nat): RecordKey {
    RecordKey(SourceKey(imp, row, position), PageOf(imp, row), RecordIndex(Cell(row, "Source Record")))
  }

  // ---- the import ----

  function CreateIfMissing(records: Records, key: RecordKey, payload: Imported): Records {
    if key in records then records else records[key := payload]
  }

  /** The records after the first `n` rows. */
  function AfterRows(imp: Import, records: Records, rows: seq<Row>, n: nat): Records
    requires n <= |rows|
  {
    if n == 0 then records
    else
      var before := AfterRows(imp, records, rows, n - 1);
      var row := rows[n - 1];
      if IsEmptyRow(row) then before else CreateIfMissing(before, KeyOf(imp, row, n), Payload(imp, row))
  }

  class RecordTable {
    var records: Records

    method CreateRecordIfMissing(key: RecordKey, payload: Imported) returns (created: bool)
      modifies this
      ensures records == CreateIfMissing(old(records), key, payload) && (created <==> key !in old(records))
    {
      if key in records {
        return false;
      }
      records := records[key := payload];
      created := true;
    }

    /** Imports the sheet and counts the records it created. */
    method ImportXlsx(imp: Import, rows: seq<Row>) returns (created: nat)
      modifies this
      ensures records == AfterRows(imp, old(records), rows, |rows|)
      ensures created == |records| - |old(records)|
    {
      hide KeyOf, Payload, IsEmptyRow;
      created := 0;
      for i := 0 to |rows|
        invariant records == AfterRows(imp, old(records), rows, i)
        invariant created == |records| - |old(records)|
      {
        if IsEmptyRow(rows[i]) {
          continue;
        }
        var isNew := CreateRecordIfMissing(KeyOf(imp, rows[i], i + 1), Payload(imp, rows[i]));
        if isNew {
          created := created + 1;
        }
      }
    }
  }

  // ---- what is stored ----

  lemma {:induction false} FillEmptyValid(fields: L.Fields, names: seq<string>)
    requires OrderedDict.Valid(fields)
    ensures OrderedDict.Valid(FillEmpty(fields, names))
  {
    hide OrderedDict.Valid, Put, Strip;
    if names != [] {
      FillEmptyValid(fields, names[..|names| - 1]);
      PutValid(FillEmpty(fields, names[..|names| - 1]), names[|names| - 1], Text(EMPTY_FIELD_PLACEHOLDER));
    }
  }

  lemma {:induction false} FieldNamesOnce(row: Row, columns: seq<string>)
    requires forall i, j :: 0 <= i < j < |columns| ==> columns[i] != columns[j]
    ensures forall k :: k in FieldNames(row, columns) <==> k in columns && IsField(row, k)
    ensures forall i, j :: 0 <= i < j < |FieldNames(row, columns)| ==>
              FieldNames(row, columns)[i] != FieldNames(row, columns)[j]
  {
    hide IsField;
    if columns != [] {
      var rest, last := columns[..|columns| - 1], columns[|columns| - 1];
      FieldNamesOnce(row, rest);
      assert last !in rest && columns == rest + [last];
    }
  }

  lemma FieldsValid(row: Row)
    requires OrderedDict.Valid(row)
    ensures OrderedDict.Valid(FieldsOf(row))
  {
    hide FillEmpty, SplitSemicolons, IsMetadata;
    FieldNamesOnce(row, row.keys);
    var fields: L.Fields := Dict(FieldNames(row, row.keys), map k | k in row.vals && IsField(row, k) :: row.vals[k]);
    assert OrderedDict.Valid(fields);
    FillEmptyValid(fields, SplitSemicolons(Cell(row, "Missing Fields")));
  }

  lemma {:induction false} FormatKeepsKeys(st: State, fields: seq<string>)
    ensures FormatFields(st, fields).Some? ==> FormatFields(st, fields).value.values.Keys == st.values.Keys
  {
    hide Upper, Strip, FormatIc;
    if fields != [] {
      FormatKeepsKeys(st, fields[..|fields| - 1]);
      assert Upper(Strip("")) in NOT_RECORDED by { BlankIsNotRecorded(); }
    }
  }

  lemma BlankIsNotRecorded()
    ensures Upper(Strip("")) in NOT_RECORDED
  {
    assert Strip("") == "" && Upper("") == "";
  }

  lemma {:induction false} ResolveKeepsKeys(normalizer: Normalizer, values: Values, issues: seq<string>)
    ensures ResolveIssues(normalizer, values, issues).Some? ==>
              var keys := ResolveIssues(normalizer, values, issues).value.values.Keys;
              values.Keys <= keys <= values.Keys + {MAS_KAHWIN}
  {
    hide KindOf, FormatFields, IsNotRecorded, Amount;
    if issues != [] {
      ResolveKeepsKeys(normalizer, values, issues[..|issues| - 1]);
      var before := ResolveIssues(normalizer, values, issues[..|issues| - 1]);
      if before.Some? && KindOf(issues[|issues| - 1]).NeedsIcs? {
        FormatKeepsKeys(before.value, KindOf(issues[|issues| - 1]).fields);
      }
    }
  }

  lemma WithValuesValid(fields: L.Fields, values: Values)
    requires OrderedDict.Valid(fields) && fields.vals.Keys <= values.Keys <= fields.vals.Keys + {MAS_KAHWIN}
    ensures OrderedDict.Valid(WithValues(fields, values))
  {
    var all := WithValues(fields, values).keys;
    forall i, j | 0 <= i < j < |all| ensures all[i] != all[j] {
      if j == |fields.keys| {
        assert fields.keys[i] in fields.keys;
      }
    }
  }

  lemma ResolvedKeys(imp: Import, row: Row)
    requires ResolvedRow(imp, row).Some?
    ensures var r := ResolvedRow(imp, row).value;
      && FieldsOf(row).vals.Keys <= r.values.Keys <= FieldsOf(row).vals.Keys + {MAS_KAHWIN}
      && AUDIT_ISSUES in r.normalized && r.normalized.Keys <= {AUDIT_ISSUES, AUDIT_ORIGINALS}
  {
    hide FieldsOf, SplitSemicolons, KeptAsIs, ResolveIssues;
    ResolveKeepsKeys(imp.normalizer, FieldsOf(row).vals, SplitSemicolons(Cell(row, "Review Reason")));
  }

  /** Every imported record starts as RecordLog takes it, with well-formed dictionaries: approved by the
      resolver, with no issues and only the audit in `normalized_data`, or else with its confidence
      deciding its status, and no `normalized_data` of its own. */
  lemma ImportedRecord(imp: Import, row: Row)
    requires OrderedDict.Valid(row)
    ensures var i, fields := Payload(imp, row), FieldsOf(row);
      if ResolvedRow(imp, row).Some?
      then var r := ResolvedRow(imp, row).value;
           var audit := AuditFields(imp.shown, r.normalized);
           && L.StartsCreated([i.record], WithValues(fields, r.values), audit)
           && i.issues == [] && i.record.status == L.Approved && AUDIT_ISSUES in audit.vals
           && audit.vals.Keys <= {AUDIT_ISSUES, AUDIT_ORIGINALS}
      else && L.StartsCreated([i.record], fields, Empty())
           && (i.record.status == L.Approved <==>
                 i.confidence.None? || i.confidence.value >= LOW_CONFIDENCE_THRESHOLD)
  {
    hide FieldsOf, SplitSemicolons, ResolvedRow, WithValues;
    FieldsValid(row);
    if ResolvedRow(imp, row).Some? {
      ResolvedKeys(imp, row);
      WithValuesValid(FieldsOf(row), ResolvedRow(imp, row).value.values);
    }
  }

  /** The export of an imported record, after any history of corrections and approvals: if the resolver
      approved it, a field that was never corrected is missing; otherwise the current values are there. */
  lemma ImportedExport(imp: Import, row: Row, history: seq<L.Record>, requests: seq<L.Request>, k: nat)
    requires OrderedDict.Valid(row) && L.IsHistory(history, requests) && history[0] == Payload(imp, row).record
    requires k < |history|
    ensures ResolvedRow(imp, row).None? ==> L.EffectiveValues(history[k]) == history[k].fieldValues
    ensures ResolvedRow(imp, row).Some? ==>
              forall f :: f in FieldsOf(row).vals && f !in {AUDIT_ISSUES, AUDIT_ORIGINALS}
                          && f !in history[k].corrected.vals ==>
                f in history[k].fieldValues.vals && f !in L.EffectiveValues(history[k]).vals
  {
    hide FieldsOf, SplitSemicolons, ResolvedRow, Payload, L.EffectiveValues, OrderedDict.Valid, L.IsHistory, AuditFields;
    ImportedRecord(imp, row);
    if ResolvedRow(imp, row).Some? {
      ResolvedKeys(imp, row);
      var r := ResolvedRow(imp, row).value;
      var base, audit := WithValues(FieldsOf(row), r.values), AuditFields(imp.shown, r.normalized);
      AuditKeys(imp.shown, r.normalized);
      SameStart(history, Payload(imp, row).record, base, audit);
      forall f | f in FieldsOf(row).vals && f !in {AUDIT_ISSUES, AUDIT_ORIGINALS} && f !in history[k].corrected.vals
        ensures f in history[k].fieldValues.vals && f !in L.EffectiveValues(history[k]).vals
      {
        L.AuditOnlyExportLosesFields(history, requests, base, audit, k, f);
      }
    } else {
      SameStart(history, Payload(imp, row).record, FieldsOf(row), Empty());
      L.ExportsCurrentValues(history, requests, FieldsOf(row), k);
    }
  }

  lemma AuditKeys(shown: Datum -> Value, normalized: map<string, Datum>)
    requires AUDIT_ISSUES in normalized
    ensures AuditFields(shown, normalized).keys != []
  {
  }

  lemma SameStart(history: seq<L.Record>, record: L.Record, base: L.Fields, normalized: L.Fields)
    requires history != [] && history[0] == record && L.StartsCreated([record], base, normalized)
    ensures L.StartsCreated(history, base, normalized)
  {
  }

  // ---- importing again ----

  /** What was there stays as it was, and there is a record for each row that is not empty. */
  lemma {:induction false} ImportOnlyAdds(imp: Import, records: Records, rows: seq<Row>, n: nat)
    requires n <= |rows|
    ensures forall key :: key in records ==>
              key in AfterRows(imp, records, rows, n) && AfterRows(imp, records, rows, n)[key] == records[key]
    ensures forall i :: 0 <= i < n && !IsEmptyRow(rows[i]) ==> KeyOf(imp, rows[i], i + 1) in AfterRows(imp, records, rows, n)
    ensures forall key :: key in AfterRows(imp, records, rows, n) ==>
              key in records || exists i :: 0 <= i < n && !IsEmptyRow(rows[i]) && KeyOf(imp, rows[i], i + 1) == key
  {
    hide KeyOf, Payload, IsEmptyRow;
    if n > 0 {
      ImportOnlyAdds(imp, records, rows, n - 1);
    }
  }

  lemma {:induction false} NothingNew(imp: Import, records: Records, rows: seq<Row>, n: nat)
    requires n <= |rows| && forall i :: 0 <= i < n && !IsEmptyRow(rows[i]) ==> KeyOf(imp, rows[i], i + 1) in records
    ensures AfterRows(imp, records, rows, n) == records
  {
    hide KeyOf, Payload, IsEmptyRow;
    if n > 0 {
      NothingNew(imp, records, rows, n - 1);
    }
  }

  /** Idempotence: importing the same sheet once more changes nothing. */
  lemma ImportTwice(imp: Import, records: Records, rows: seq<Row>)
    ensures var once := AfterRows(imp, records, rows, |rows|);
      AfterRows(imp, once, rows, |rows|) == once
  {
    ImportOnlyAdds(imp, records, rows, |rows|);
    NothingNew(imp, AfterRows(imp, records, rows, |rows|), rows, |rows|);
  }

  // ---- no row is taken for another ----

  /** What a cell prints when it counts as empty has no digit but 0. */
  predicate PrintsZero(v: Value) {
    Falsy(v) ==> v.Nil? || forall c | c in Str(v) :: IsDigit(c) ==> c == '0'
  }

  function TrailingDigits(s: string): string {
    if s == "" || !IsDigit(s[|s| - 1]) then "" else TrailingDigits(s[..|s| - 1]) + [s[|s| - 1]]
  }

  lemma {:induction false} TrailAfter(a: string, c: char, b: string)
    requires !IsDigit(c)
    ensures TrailingDigits(a + [c] + b) == TrailingDigits(b)
    ensures forall d :: d in TrailingDigits(b) ==> d in b
  {
    var s := a + [c] + b;
    if b == "" {
      assert s == a + [c];
    } else {
      assert s[..|s| - 1] == a + [c] + b[..|b| - 1];
      TrailAfter(a, c, b[..|b| - 1]);
    }
  }

  lemma {:induction false} AllTrailing(s: string)
    requires forall c :: c in s ==> IsDigit(c)
    ensures TrailingDigits(s) == s
  {
    if s != "" {
      AllTrailing(s[..|s| - 1]);
      assert s == s[..|s| - 1] + [s[|s| - 1]];
    }
  }

  lemma {:induction false} DigitsKept(s: string, c: char)
    requires c in s && IsDigit(c)
    ensures c in Digits(s)
  {
    if c != s[0] {
      assert s == [s[0]] + s[1..];
      DigitsKept(s[1..], c);
    }
  }

  lemma {:induction false} DigitsAmong(s: string)
    ensures forall c :: c in Digits(s) ==> c in s && IsDigit(c)
  {
    if s != "" {
      DigitsAmong(s[1..]);
    }
  }

  lemma {:induction false} ParsePositive(digits: string)
    requires forall c :: c in digits ==> IsDigit(c)
    ensures ParseDecimal(digits) == 0 <==> forall c :: c in digits ==> c == '0'
  {
    if digits != "" {
      var rest, last := digits[..|digits| - 1], digits[|digits| - 1];
      assert digits == rest + [last];
      ParsePositive(rest);
      assert last in digits && IsDigit(last);
      assert forall c :: c in digits <==> c in rest || c == last;
      assert ParseDecimal(digits) == 10 * ParseDecimal(rest) + (last as nat - '0' as nat);
    }
  }

  lemma IndexZero(v: Value)
    ensures v.Nil? || (forall c :: c in Str(v) && IsDigit(c) ==> c == '0') <==> RecordIndex(v) == 0
  {
    if !v.Nil? {
      DigitsAmong(Str(v));
      ParsePositive(Digits(Str(v)));
      forall c | c in Str(v) && IsDigit(c) ensures c in Digits(Str(v)) {
        DigitsKept(Str(v), c);
      }
    }
  }

  lemma EndsInPosition(head: string, position: nat)
    ensures TrailingDigits(head + ['-'] + ColumnNames.Decimal(position)) == ColumnNames.Decimal(position)
  {
    ColumnNames.DecimalDigits(position);
    AllTrailing(ColumnNames.Decimal(position));
    TrailAfter(head, '-', ColumnNames.Decimal(position));
  }

  /** A row without a record number: its key ends in its position, and its index is 0. */
  lemma PositionKey(imp: Import, row: Row, position: nat)
    requires Falsy(Cell(row, "Source Record")) && PrintsZero(Cell(row, "Source Record"))
    ensures TrailingDigits(SourceKey(imp, row, position)) == ColumnNames.Decimal(position)
    ensures KeyOf(imp, row, position).index == 0
  {
    hide TrailingDigits, ColumnNames.Decimal, RecordIndex, PageText, PageOf;
    IndexZero(Cell(row, "Source Record"));
    var file := Cell(row, "Source File");
    var head := if !Falsy(file) then Str(file) + ":p" + PageText(PageOf(imp, row)) + ":row" else "row";
    assert SourceKey(imp, row, position) == head + ['-'] + ColumnNames.Decimal(position);
    EndsInPosition(head, position);
  }

  /** A row with one: when its index is 0, what its key ends in has no digit but 0. */
  lemma NumberedKey(imp: Import, row: Row, position: nat)
    requires !Falsy(Cell(row, "Source Record")) && KeyOf(imp, row, position).index == 0
    ensures forall c :: c in TrailingDigits(SourceKey(imp, row, position)) ==> c == '0' || !IsDigit(c)
  {
    var record := Cell(row, "Source Record");
    IndexZero(record);
    var head := Str(Cell(row, "Source File")) + ":p" + PageText(PageOf(imp, row));
    TrailAfter(head, ':', Str(record));
    assert SourceKey(imp, row, position) == head + [':'] + Str(record);
  }

  /** Two rows of a sheet share a key only if both carry a record number: a row without one is never
      taken for another row, numbered or not. */
  lemma OwnKey(imp: Import, rows: seq<Row>, i: nat, j: nat)
    requires i < |rows| && j < |rows| && i != j
    requires Falsy(Cell(rows[i], "Source Record")) && PrintsZero(Cell(rows[i], "Source Record"))
    requires PrintsZero(Cell(rows[j], "Source Record"))
    ensures KeyOf(imp, rows[i], i + 1) != KeyOf(imp, rows[j], j + 1)
  {
    hide SourceKey, RecordIndex, TrailingDigits;
    PositionKey(imp, rows[i], i + 1);
    ColumnNames.DecimalDigits(i + 1);
    var d := ColumnNames.Decimal(i + 1);
    assert d[0] in d;
    if KeyOf(imp, rows[i], i + 1) == KeyOf(imp, rows[j], j + 1) {
      if Falsy(Cell(rows[j], "Source Record")) {
        PositionKey(imp, rows[j], j + 1);
        ColumnNames.DecimalDistinct(i + 1, j + 1);
      } else {
        NumberedKey(imp, rows[j], j + 1);
      }
    }
  }

  /** The first row with a key decides the record, unless the record was there before. */
  lemma {:induction false} FirstRowWins(imp: Import, records: Records, rows: seq<Row>, i: nat, n: nat)
    requires i < n <= |rows| && !IsEmptyRow(rows[i]) && KeyOf(imp, rows[i], i + 1) !in records
    requires forall k :: 0 <= k < i && !IsEmptyRow(rows[k]) ==> KeyOf(imp, rows[k], k + 1) != KeyOf(imp, rows[i], i + 1)
    ensures KeyOf(imp, rows[i], i + 1) in AfterRows(imp, records, rows, n)
    ensures AfterRows(imp, records, rows, n)[KeyOf(imp, rows[i], i + 1)] == Payload(imp, rows[i])
    decreases n
  {
    hide KeyOf, Payload, IsEmptyRow;
    if i < n - 1 {
      FirstRowWins(imp, records, rows, i, n - 1);
    } else {
      ImportOnlyAdds(imp, records, rows, i);
    }
  }

  /** No row without a record number is dropped: each one that is not empty has its own record. */
  lemma NoUnnumberedRowDropped(imp: Import, rows: seq<Row>, i: nat)
    requires i < |rows| && !IsEmptyRow(rows[i]) && Falsy(Cell(rows[i], "Source Record"))
    requires forall k :: 0 <= k < |rows| ==> PrintsZero(Cell(rows[k], "Source Record"))
    ensures var records := AfterRows(imp, map[], rows, |rows|);
      KeyOf(imp, rows[i], i + 1) in records && records[KeyOf(imp, rows[i], i + 1)] == Payload(imp, rows[i])
  {
    hide KeyOf, Payload, IsEmptyRow, PrintsZero;
    forall k | 0 <= k < i ensures KeyOf(imp, rows[k], k + 1) != KeyOf(imp, rows[i], i + 1) {
      assert PrintsZero(Cell(rows[k], "Source Record")) && PrintsZero(Cell(rows[i], "Source Record"));
      OwnKey(imp, rows, i, k);
    }
    FirstRowWins(imp, map[], rows, i, |rows|);
  }
}
