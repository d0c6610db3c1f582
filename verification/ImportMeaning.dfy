/** What a row of the OCR sheet becomes, in the words of the sheet: which cells are fields, what the
    lists in its cells say, what tells its record from others, and how the record starts. */
module ImportMeaning {
  import opened Wrappers
  import opened NotRecorded
  import opened OrderedDict
  import opened ResolverMeaning
  import opened Importer
  import L = RecordLog
  import ColumnNames

  // ---- lists in a cell ----

  function Join(parts: seq<string>): string {
    if parts == [] then "" else if |parts| == 1 then parts[0] else parts[0] + ";" + Join(parts[1..])
  }

  /** The items are the parts between the semicolons that are not blank, trimmed, in their order. */
  ghost predicate Lists(text: string, items: seq<string>) {
    exists parts: seq<string>, at: seq<nat> ::
      && Join(parts) == text && NoneSplits(parts)
      && ItemsAt(parts, items, at)
  }

  ghost predicate ItemsAt(parts: seq<string>, items: seq<string>, at: seq<nat>) {
    && |at| == |items| && (forall i, j :: 0 <= i < j < |at| ==> at[i] < at[j])
    && (forall i :: 0 <= i < |at| ==> at[i] < |parts| && Trims(parts[at[i]], items[i]))
    && (forall j: nat :: j < |parts| ==> (j in at <==> !Trims(parts[j], "")))
  }

  lemma {:induction false} PartsOf(s: string, item: string) returns (parts: seq<string>, at: seq<nat>)
    requires ';' !in item
    ensures parts != [] && Join(parts) == item + s && NoneSplits(parts)
    ensures ItemsAt(parts, SplitItems(s, item), at)
    decreases |s|
  {
    hide ItemsAt, ItemOf, Join, SplitItems, NoneSplits;
    SplitStep(s, item);
    if s == "" {
      parts := [item];
      at := OnePart(item);
      OneJoined(item);
    } else if s[0] == ';' {
      var rest, at1 := PartsOf(s[1..], "");
      parts := [item] + rest;
      at := FirstPart(item, rest, SplitItems(s[1..], ""), at1);
      JoinFirst(item, rest);
      MoreOf(item, s);
    } else {
      MoreOf(item, s);
      parts, at := PartsOf(s[1..], item + [s[0]]);
    }
  }

  predicate NoneSplits(parts: seq<string>) {
    forall p | p in parts :: ';' !in p
  }

  lemma OneJoined(item: string)
    ensures item + "" == item && Join([item]) == item && (';' !in item ==> NoneSplits([item]))
  {
  }

  lemma MoreOf(item: string, s: string)
    requires s != ""
    ensures item + s == item + [s[0]] + s[1..] && "" + s[1..] == s[1..]
  {
  }

  lemma SplitStep(s: string, item: string)
    ensures SplitItems(s, item)
         == if s == "" then ItemOf(item)
            else if s[0] == ';' then ItemOf(item) + SplitItems(s[1..], "")
            else SplitItems(s[1..], item + [s[0]])
  {
  }

  lemma JoinFirst(part: string, rest: seq<string>)
    requires rest != []
    ensures Join([part] + rest) == part + ";" + Join(rest)
    ensures ';' !in part && NoneSplits(rest) ==> NoneSplits([part] + rest)
  {
    assert ([part] + rest)[1..] == rest;
  }

  lemma OnePart(item: string) returns (at: seq<nat>)
    ensures ItemsAt([item], ItemOf(item), at)
  {
    StripTrims(item, Strip(item));
    StripTrims(item, "");
    hide Trims, Strip;
    at := if Strip(item) == "" then [] else [0];
  }

  function Moved(at: seq<nat>): (r: seq<nat>)
    ensures |r| == |at| && forall i :: 0 <= i < |at| ==> r[i] == at[i] + 1
  {
    seq(|at|, i requires 0 <= i < |at| => at[i] + 1)
  }

  lemma MovedHas(at: seq<nat>, j: nat)
    ensures j in Moved(at) <==> j > 0 && j - 1 in at
  {
    if j > 0 && j - 1 in at {
      var i :| 0 <= i < |at| && at[i] == j - 1;
      assert Moved(at)[i] == j;
    }
  }

  lemma FirstPart(item: string, rest: seq<string>, items: seq<string>, at1: seq<nat>) returns (at: seq<nat>)
    requires ItemsAt(rest, items, at1)
    ensures ItemsAt([item] + rest, ItemOf(item) + items, at)
  {
    StripTrims(item, Strip(item));
    StripTrims(item, "");
    hide Trims, Strip, Moved;
    if Strip(item) == "" {
      at := Moved(at1);
      assert [] + items == items;
      BlankFirst(item, rest, items, at1);
    } else {
      at := [0] + Moved(at1);
      ItemFirst(item, rest, items, at1, Strip(item));
    }
  }

  lemma BlankFirst(item: string, rest: seq<string>, items: seq<string>, at: seq<nat>)
    requires ItemsAt(rest, items, at) && Trims(item, "")
    ensures ItemsAt([item] + rest, items, Moved(at))
  {
    hide Trims, Moved;
    forall j: nat | j < |[item] + rest| ensures j in Moved(at) <==> !Trims(([item] + rest)[j], "") {
      MovedHas(at, j);
    }
  }

  lemma ItemFirst(item: string, rest: seq<string>, items: seq<string>, at: seq<nat>, core: string)
    requires ItemsAt(rest, items, at) && Trims(item, core) && !Trims(item, "")
    ensures ItemsAt([item] + rest, [core] + items, [0] + Moved(at))
  {
    hide Trims, Moved;
    var at' := [0] + Moved(at);
    forall j: nat | j < |[item] + rest| ensures j in at' <==> !Trims(([item] + rest)[j], "") {
      MovedHas(at, j);
    }
    forall i | 0 <= i < |at'| ensures at'[i] < |[item] + rest| && Trims(([item] + rest)[at'[i]], ([core] + items)[i]) {
      if i > 0 {
        assert at'[i] == at[i - 1] + 1;
      }
    }
  }

  lemma ListsInWords(v: Value)
    ensures Lists(TextOf(v), SplitSemicolons(v))
  {
    EmptyItem();
    hide SplitItems, ItemsAt, Join;
    assert SplitSemicolons(v) == SplitItems(TextOf(v), "");
    var parts, at := PartsOf(TextOf(v), "");
    assert "" + TextOf(v) == TextOf(v);
  }

  lemma EmptyItem()
    ensures SplitItems("", "") == []
  {
    assert Strip("") == "";
  }

  // ---- fields ----

  /** Columns that describe the reading, not the entry in the register. */
  predicate Describes(name: string) {
    || name in {"Confidence", "Status", "Created At", "Updated At", "Status Review", "Review Reason", "Missing Fields",
                "Source File", "Source Page", "Source Record", "Crop Folder", "Raw OCR JSON"}
    || (|name| >= 4 && (name[..4] == "Raw " || name[|name| - 4..] == " Raw"))
  }

  predicate HoldsField(row: Row, k: string) {
    k in row.vals && k != "" && row.vals[k] != Nil && !Describes(k)
  }

  lemma FieldColumns(row: Row, k: string)
    ensures IsField(row, k) <==> HoldsField(row, k)
  {
    assert "Raw " <= k <==> |k| >= 4 && k[..4] == "Raw ";
  }

  predicate White(c: char) {
    c == ' ' || c in {'\t', '\n', '\U{0B}', '\U{0C}', '\r'} || c in {'\U{1C}', '\U{1D}', '\U{1E}', '\U{1F}'}
  }

  /** No text, or only white space. */
  predicate SaysBlank(v: Value) {
    forall c | c in TextOf(v) :: White(c)
  }

  lemma WhiteIsSpace(c: char)
    ensures White(c) <==> IsSpace(c)
  {
  }

  lemma BlankInWords(v: Value)
    ensures Strip(StrOrEmpty(v)) == "" <==> SaysBlank(v)
  {
    var text := TextOf(v);
    StripTrims(text, "");
    hide Strip, White, IsSpace;
    forall c ensures White(c) <==> IsSpace(c) {
      WhiteIsSpace(c);
    }
    if SaysBlank(v) {
      assert forall i :: 0 <= i < |text| ==> text[i] in text;
      assert TrimmedTo(IsSpace, text, |text|, |text|) && text[|text|..|text|] == "";
    }
    if Trims(text, "") {
      var a: nat, b: nat :| TrimmedTo(IsSpace, text, a, b) && text[a..b] == "";
      assert a == b;
    }
  }

  /** The fields a correction leaves flagged are the flagged ones with no text but white space. */
  lemma StillFlaggedInWords(values: L.Fields, f: string)
    ensures L.IsBlank(values, f) <==> SaysBlank(Get(values.vals, f))
  {
    BlankInWords(Get(values.vals, f));
    hide Strip, SaysBlank;
  }

  lemma {:induction false} FillsInOrder(fields: L.Fields, names: seq<string>) returns (at: seq<nat>)
    ensures fields.keys <= FillEmpty(fields, names).keys
    ensures Picks(names, FillEmpty(fields, names).keys[|fields.keys|..], at)
  {
    at := [];
    if names != [] {
      var n := |names| - 1;
      at := FillsInOrder(fields, names[..n]);
      hide Strip, StrOrEmpty, Cell;
      var before := FillEmpty(fields, names[..n]).keys;
      OneMorePick(names[..n], before[|fields.keys|..], at, names[n]);
      assert names[..n] + [names[n]] == names;
      if FillEmpty(fields, names).keys != before {
        assert (before + [names[n]])[|fields.keys|..] == before[|fields.keys|..] + [names[n]];
        at := at + [n];
      }
    }
  }

  lemma PlaceholderIsNotBlank()
    ensures Strip("TIADA MAKLUMAT") != ""
  {
    assert !IsSpace('T') && !IsSpace('N');
  }

  /** A listed field that is blank gets the placeholder, and nothing else changes. */
  lemma {:induction false} Fills(fields: L.Fields, names: seq<string>, k: string)
    ensures var filled := FillEmpty(fields, names).vals;
      && (k in filled <==> k in fields.vals || k in names)
      && (k in filled ==>
            filled[k] == if k in names && SaysBlank(Get(fields.vals, k)) then Text("TIADA MAKLUMAT") else Get(fields.vals, k))
  {
    if names != [] {
      var n := |names| - 1;
      Fills(fields, names[..n], k);
      assert names[..n] + [names[n]] == names;
      BlankInWords(Get(fields.vals, k));
      PlaceholderIsNotBlank();
      hide Strip, SaysBlank;
    }
  }

  /** The fields of a row: every other cell that is not None, with its value, and the listed missing ones. */
  lemma FieldsInWords(row: Row, k: string)
    ensures var fields, listed := FieldsOf(row).vals, SplitSemicolons(Get(row.vals, "Missing Fields"));
      && (k in fields <==> HoldsField(row, k) || k in listed)
      && (k in fields ==>
            fields[k] == if k in listed && SaysBlank(if HoldsField(row, k) then row.vals[k] else Nil)
                         then Text("TIADA MAKLUMAT") else Get(row.vals, k))
  {
    FieldColumns(row, k);
    var found: L.Fields := Dict(FieldNames(row, row.keys), map k | k in row.vals && IsField(row, k) :: row.vals[k]);
    Fills(found, SplitSemicolons(Cell(row, "Missing Fields")), k);
    hide FillEmpty, SplitSemicolons, FieldNames, SaysBlank, Strip, IsMetadata, Describes;
  }

  lemma {:induction false} FieldsPicked(row: Row, columns: seq<string>) returns (at: seq<nat>)
    ensures Picks(columns, FieldNames(row, columns), at)
    ensures forall j: nat :: j < |columns| ==> (j in at <==> HoldsField(row, columns[j]))
  {
    at := [];
    if columns != [] {
      var n := |columns| - 1;
      at := FieldsPicked(row, columns[..n]);
      FieldColumns(row, columns[n]);
      hide IsField, HoldsField;
      OneMorePick(columns[..n], FieldNames(row, columns[..n]), at, columns[n]);
      assert columns[..n] + [columns[n]] == columns && n !in at;
      if HoldsField(row, columns[n]) {
        at := at + [n];
      }
    }
  }

  /** Their order: the row's cells as they stand, then the others as they are listed. */
  lemma FieldOrder(row: Row) returns (found: seq<string>, at: seq<nat>, listed: seq<nat>)
    ensures Picks(row.keys, found, at) && forall j: nat :: j < |row.keys| ==> (j in at <==> HoldsField(row, row.keys[j]))
    ensures found <= FieldsOf(row).keys
    ensures Picks(SplitSemicolons(Get(row.vals, "Missing Fields")), FieldsOf(row).keys[|found|..], listed)
  {
    hide HoldsField, Picks, FieldNames, SplitSemicolons, IsField;
    found := FieldNames(row, row.keys);
    at := FieldsPicked(row, row.keys);
    var fields: L.Fields := Dict(found, map k | k in row.vals && IsField(row, k) :: row.vals[k]);
    listed := FillsInOrder(fields, SplitSemicolons(Cell(row, "Missing Fields")));
  }

  // ---- keys ----

  lemma {:induction false} NoDigits(a: string, b: string)
    requires forall c :: c in a ==> !IsDigit(c)
    ensures Digits(a + b) == Digits(b)
  {
    if a == "" {
      assert a + b == b;
    } else {
      assert (a + b)[1..] == a[1..] + b && a[0] in a;
      NoDigits(a[1..], b);
    }
  }

  lemma {:induction false} OnlyDigits(d: string, b: string)
    requires (forall c :: c in d ==> IsDigit(c)) && (forall c :: c in b ==> !IsDigit(c))
    ensures Digits(d + b) == d
  {
    if d == "" {
      assert d + b == b && b + "" == b;
      NoDigits(b, "");
    } else {
      assert (d + b)[1..] == d[1..] + b && d[0] in d && d == [d[0]] + d[1..];
      OnlyDigits(d[1..], b);
    }
  }

  lemma {:induction false} ParsesBack(n: nat)
    ensures ParseDecimal(ColumnNames.Decimal(n)) == n
  {
    var d := ColumnNames.Decimal(n);
    var head := if n < 10 then "" else ColumnNames.Decimal(n / 10);
    assert d[..|d| - 1] == head;
    if n >= 10 {
      ParsesBack(n / 10);
    }
  }

  /** The index is the number in the "Source Record" cell, whatever stands around it. */
  lemma IndexReads(before: string, n: nat, after: string)
    requires forall c :: c in before || c in after ==> !IsDigit(c)
    ensures RecordIndex(Text(before + ColumnNames.Decimal(n) + after)) == n
  {
    var d := ColumnNames.Decimal(n);
    ColumnNames.DecimalDigits(n);
    ParsesBack(n);
    hide ColumnNames.Decimal, Digits, ParseDecimal;
    assert before + d + after == before + (d + after);
    NoDigits(before, d + after);
    OnlyDigits(d, after);
  }

  lemma SameTail(a: string, b: string, c: string)
    requires a + b == a + c
    ensures b == c
  {
    assert (a + b)[|a|..] == b && (a + c)[|a|..] == c;
  }

  /** Of one file two rows share a key exactly when they give the same record number on the same page. */
  lemma SharedKey(imp: Import, row: Row, row': Row, position: nat, position': nat)
    requires !Falsy(Cell(row, "Source Record")) && !Falsy(Cell(row', "Source Record"))
    requires Str(Cell(row, "Source File")) == Str(Cell(row', "Source File"))
    ensures KeyOf(imp, row, position) == KeyOf(imp, row', position') <==>
            && Str(Cell(row, "Source Record")) == Str(Cell(row', "Source Record"))
            && (imp.page.Some? || imp.pageOf(Cell(row, "Source Page")) == imp.pageOf(Cell(row', "Source Page")))
  {
    hide PageText, Digits, ParseDecimal;
    if KeyOf(imp, row, position) == KeyOf(imp, row', position') {
      var head := Str(Cell(row, "Source File")) + ":p" + PageText(PageOf(imp, row)) + ":";
      assert SourceKey(imp, row, position) == head + Str(Cell(row, "Source Record"));
      assert SourceKey(imp, row', position') == head + Str(Cell(row', "Source Record"));
      SameTail(head, Str(Cell(row, "Source Record")), Str(Cell(row', "Source Record")));
    }
  }

  /** The page: the real one where the document was split, or else what the sheet says. */
  lemma KeyInWords(imp: Import, row: Row, position: nat)
    ensures var key := KeyOf(imp, row, position);
      var file, record := Get(row.vals, "Source File"), Get(row.vals, "Source Record");
      var page := if key.page == None then "None"
                  else if key.page.value < 0 then "-" + ColumnNames.Decimal(-key.page.value)
                  else ColumnNames.Decimal(key.page.value);
      && key.page == (if imp.page.Some? then imp.page else imp.pageOf(Get(row.vals, "Source Page")))
      && (TextOf(record) != "" && !record.Other? ==> key.source == Str(file) + ":p" + page + ":" + TextOf(record))
      && (record == Nil || record == Text("") ==>
            && key.index == 0
            && key.source == (if Falsy(file) then "" else Str(file) + ":p" + page + ":")
                             + "row-" + ColumnNames.Decimal(position))
  {
    assert Digits("") == "";
    hide ColumnNames.Decimal, Digits;
    var file, record := Get(row.vals, "Source File"), Get(row.vals, "Source Record");
    if (record == Nil || record == Text("")) && !Falsy(file) {
      var head := Str(file) + ":p" + PageText(PageOf(imp, row));
      assert head + ":row-" == head + ":" + "row-";
    }
    assert "" + "row-" == "row-";
  }

  // ---- the record ----

  /** What the resolver leaves of a row, in columns. */
  ghost predicate ApprovedByResolver(i: Imported, fields: L.Fields, r: Resolution, shown: Datum -> Value) {
    && i.issues == [] && i.record.status == L.Approved
    && i.record.fieldValues.vals == r.values
    && i.record.fieldValues.keys
       == fields.keys + (if "Mas Kahwin" in r.values && "Mas Kahwin" !in fields.vals then ["Mas Kahwin"] else [])
    && i.record.normalized.keys == ["auto_approved_not_recorded"]
       + (if "auto_approved_original_values" in r.normalized then ["auto_approved_original_values"] else [])
    && (forall k :: k in i.record.normalized.vals <==> k in r.normalized)
    && (forall k :: k in r.normalized ==>
          k in i.record.normalized.vals && i.record.normalized.vals[k] == shown(r.normalized[k]))
  }

  /** How a row's record starts: nothing reviewed yet, with the row's fields; approved and with no issues
      left where the resolver may and can explain them, and otherwise approved unless its confidence is
      below 0.70. */
  lemma RowInWords(imp: Import, row: Row)
    requires OrderedDict.Valid(row)
    ensures var i, fields := Payload(imp, row), FieldsOf(row);
      var issues := SplitSemicolons(Get(row.vals, "Review Reason"));
      var answer := if imp.autoApprove then Resolved(imp.normalizer, fields.vals, issues, map[]) else None;
      && i.confidence == imp.confidenceOf(Get(row.vals, "Confidence"))
      && i.record.version == 1 && i.record.revisions == [] && i.record.corrected == Empty()
      && i.record.missing == [] && i.record.reviewedBy == None
      && (answer.Some? ==> ApprovedByResolver(i, fields, answer.value, imp.shown))
      && (answer.None? ==>
            && i.issues == issues && i.record.fieldValues == fields && i.record.normalized == fields
            && (i.record.status == L.PendingReview <==> i.confidence.Some? && i.confidence.value < 0.70))
  {
    hide FieldsOf, SplitSemicolons, Resolved;
    if ResolvedRow(imp, row).Some? {
      ResolvedKeys(imp, row);
      AuditKeys(imp.shown, ResolvedRow(imp, row).value.normalized);
    }
  }

  // ---- the sheet ----

  predicate SaysSomething(row: Row) {
    exists k | k in row.vals :: row.vals[k] != Nil && row.vals[k] != Text("")
  }

  /** What was there stays, every row with a cell that is not empty has a record under its key, and
      nothing else is added. */
  lemma SheetInWords(imp: Import, records: Records, rows: seq<Row>)
    ensures var after := AfterRows(imp, records, rows, |rows|);
      && (forall key :: key in records ==> key in after && after[key] == records[key])
      && (forall i :: 0 <= i < |rows| && SaysSomething(rows[i]) ==> KeyOf(imp, rows[i], i + 1) in after)
      && (forall key :: key in after && key !in records ==>
            exists i :: 0 <= i < |rows| && SaysSomething(rows[i]) && KeyOf(imp, rows[i], i + 1) == key
                        && after[key] == Payload(imp, rows[i]))
  {
    ImportOnlyAdds(imp, records, rows, |rows|);
    hide KeyOf, Payload;
    var after := AfterRows(imp, records, rows, |rows|);
    forall key | key in after && key !in records
      ensures exists i :: 0 <= i < |rows| && SaysSomething(rows[i]) && KeyOf(imp, rows[i], i + 1) == key
                          && after[key] == Payload(imp, rows[i])
    {
      FirstUnder(imp, records, rows, |rows|, key);
    }
  }

  lemma {:induction false} FirstUnder(imp: Import, records: Records, rows: seq<Row>, n: nat, key: RecordKey)
    requires n <= |rows| && key !in records && key in AfterRows(imp, records, rows, n)
    ensures exists i :: 0 <= i < n && SaysSomething(rows[i]) && KeyOf(imp, rows[i], i + 1) == key
                        && AfterRows(imp, records, rows, n)[key] == Payload(imp, rows[i])
  {
    hide KeyOf, Payload;
    if key in AfterRows(imp, records, rows, n - 1) {
      FirstUnder(imp, records, rows, n - 1, key);
    }
  }
}
