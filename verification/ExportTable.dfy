/** The table an export writes: one row per exported record, every row with every column, columns in
    the order in which the rows first mention them. */
module ExportTable {
  import opened Wrappers
  import opened OrderedDict
  import opened NotRecorded
  import opened RecordLog

  /** The batch's daerah and negeri, ahead of the record's own fields; the record's win. */
  function Location(daerah: string, negeri: string): Fields {
    if daerah == "" && negeri == "" then Empty()
    else Dict(["Daerah", "Negeri"], map["Daerah" := Text(daerah), "Negeri" := Text(negeri)])
  }

  predicate Exportable(r: Record, includeUnreviewed: bool) {
    includeUnreviewed || r.status == Approved
  }

  /** One dictionary per exported record. */
  function RawRows(records: seq<Record>, location: Fields, includeUnreviewed: bool): seq<Fields> {
    if records == [] then []
    else
      var last := records[|records| - 1];
      RawRows(records[..|records| - 1], location, includeUnreviewed)
      + if Exportable(last, includeUnreviewed) then [Merge(location, EffectiveValues(last))] else []
  }

  /** All keys of all rows, row after row. */
  function AllKeys(rows: seq<Fields>): seq<string> {
    if rows == [] then [] else AllKeys(rows[..|rows| - 1]) + rows[|rows| - 1].keys
  }

  /** Each key where it comes up first. */
  function FirstSeen(keys: seq<string>): (r: seq<string>)
    ensures forall k :: k in r <==> k in keys
  {
    if keys == [] then []
    else
      var seen := FirstSeen(keys[..|keys| - 1]);
      if keys[|keys| - 1] in seen then seen else seen + [keys[|keys| - 1]]
  }

  /** The row as it is written: every column, blank where the record has no such field. */
  function Completed(row: Fields, columns: seq<string>): Fields {
    Dict(columns, map k | k in columns :: if k in row.vals then row.vals[k] else Text(""))
  }

  // ---- the table in words ----

  /** The records that get a row, in their order: every approved one, the others only if they are asked for. */
  ghost predicate RowsOf(records: seq<Record>, includeUnreviewed: bool, of: seq<nat>) {
    && (forall i, k :: 0 <= i < k < |of| ==> of[i] < of[k])
    && forall j: nat :: j in of <==> j < |records| && (includeUnreviewed || records[j].status == Approved)
  }

  predicate InBase(r: Record, c: string) {
    if r.normalized.keys == [] then c in r.fieldValues.vals else c in r.normalized.vals
  }

  function BaseValue(r: Record, c: string): Value
    requires InBase(r, c)
  {
    if r.normalized.keys == [] then r.fieldValues.vals[c] else r.normalized.vals[c]
  }

  /** What a record shows in a column: what a reviewer entered, what was imported, the place of its
      batch, or nothing. */
  function Shown(r: Record, daerah: string, negeri: string, c: string): Value {
    if c in r.corrected.vals then r.corrected.vals[c]
    else if InBase(r, c) then BaseValue(r, c)
    else if c == "Daerah" then Text(daerah)
    else if c == "Negeri" then Text(negeri)
    else Text("")
  }

  predicate HasColumn(r: Record, daerah: string, negeri: string, c: string) {
    c in r.corrected.vals || InBase(r, c) || (c in {"Daerah", "Negeri"} && (daerah != "" || negeri != ""))
  }

  /** One row for each of these records, and in each every column any of them has, each column once. */
  ghost predicate TableShows(records: seq<Record>, daerah: string, negeri: string, columns: seq<string>,
                             table: seq<Fields>, of: seq<nat>)
    requires forall i :: 0 <= i < |of| ==> of[i] < |records|
  {
    && (forall c :: c in columns <==> exists i :: 0 <= i < |of| && HasColumn(records[of[i]], daerah, negeri, c))
    && (forall p, q :: 0 <= p < q < |columns| ==> columns[p] != columns[q])
    && (if columns == [] then table == [] else |table| == |of|)
    && forall i :: 0 <= i < |table| ==> ShowsRecord(table[i], columns, records[of[i]], daerah, negeri)
  }

  ghost predicate ShowsRecord(row: Fields, columns: seq<string>, r: Record, daerah: string, negeri: string) {
    && row.keys == columns && (forall c :: c in row.vals <==> c in columns)
    && forall c :: c in columns ==> row.vals[c] == Shown(r, daerah, negeri, c)
  }

  lemma {:induction false} WhichRows(records: seq<Record>, location: Fields, includeUnreviewed: bool)
    returns (of: seq<nat>)
    ensures RowsOf(records, includeUnreviewed, of) && |RawRows(records, location, includeUnreviewed)| == |of|
    ensures forall i :: 0 <= i < |of| ==>
      of[i] < |records| && RawRows(records, location, includeUnreviewed)[i] == Merge(location, EffectiveValues(records[of[i]]))
  {
    hide Merge, EffectiveValues;
    of := [];
    if records != [] {
      var n := |records| - 1;
      of := WhichRows(records[..n], location, includeUnreviewed);
      forall i | 0 <= i < |of| ensures of[i] < n {
        assert of[i] in of;
      }
      if Exportable(records[n], includeUnreviewed) {
        of := of + [n];
      }
    }
  }

  /** One row before it is completed. */
  lemma RowInWords(r: Record, daerah: string, negeri: string, c: string)
    requires WellFormed(r)
    ensures var row := Merge(Location(daerah, negeri), EffectiveValues(r));
      && (c in row.vals <==> HasColumn(r, daerah, negeri, c))
      && Shown(r, daerah, negeri, c) == if c in row.vals then row.vals[c] else Text("")
  {
    EffectiveInWords(r);
    MergeInWords(Location(daerah, negeri), EffectiveValues(r));
    hide EffectiveValues, Merge, IsOverlay, WellFormed;
    var row := Merge(Location(daerah, negeri), EffectiveValues(r));
    OverlayAt(row, Location(daerah, negeri), EffectiveValues(r), c);
    OverlayAt(EffectiveValues(r), if r.normalized.keys != [] then r.normalized else r.fieldValues, r.corrected, c);
  }

  lemma LocationValid(daerah: string, negeri: string)
    ensures OrderedDict.Valid(Location(daerah, negeri))
  {
  }

  lemma RowValid(r: Record, daerah: string, negeri: string)
    requires WellFormed(r)
    ensures OrderedDict.Valid(Merge(Location(daerah, negeri), EffectiveValues(r)))
  {
    LocationValid(daerah, negeri);
    EffectiveIsOverlay(r);
    hide EffectiveValues, Location, Merge;
    MergeValid(if r.normalized.keys != [] then r.normalized else r.fieldValues, r.corrected);
    MergeValid(Location(daerah, negeri), EffectiveValues(r));
  }

  lemma {:induction false} KeysOfSome(rows: seq<Fields>, k: string) returns (i: nat)
    requires k in AllKeys(rows)
    ensures i < |rows| && k in rows[i].keys
  {
    var n := |rows| - 1;
    if k in rows[n].keys {
      i := n;
    } else {
      i := KeysOfSome(rows[..n], k);
    }
  }

  lemma RowShows(r: Record, daerah: string, negeri: string, columns: seq<string>)
    requires WellFormed(r)
    ensures ShowsRecord(Completed(Merge(Location(daerah, negeri), EffectiveValues(r)), columns), columns, r, daerah, negeri)
  {
    hide Merge, Location, EffectiveValues, Shown, HasColumn;
    forall c | c in columns
      ensures Shown(r, daerah, negeri, c)
              == Completed(Merge(Location(daerah, negeri), EffectiveValues(r)), columns).vals[c]
    {
      RowInWords(r, daerah, negeri, c);
    }
  }

  lemma ColumnsOfRows(records: seq<Record>, daerah: string, negeri: string, rows: seq<Fields>, of: seq<nat>, c: string)
    requires (forall r :: r in records ==> WellFormed(r)) && |rows| == |of|
    requires forall i :: 0 <= i < |of| ==>
      of[i] < |records| && rows[i] == Merge(Location(daerah, negeri), EffectiveValues(records[of[i]]))
    ensures c in AllKeys(rows) <==> exists i :: 0 <= i < |of| && HasColumn(records[of[i]], daerah, negeri, c)
  {
    hide Merge, Location, EffectiveValues, HasColumn, WellFormed, AllKeys;
    forall i | 0 <= i < |of| ensures c in rows[i].keys <==> HasColumn(records[of[i]], daerah, negeri, c) {
      assert records[of[i]] in records;
      RowValid(records[of[i]], daerah, negeri);
      RowInWords(records[of[i]], daerah, negeri, c);
    }
    if c in AllKeys(rows) {
      var i := KeysOfSome(rows, c);
      assert HasColumn(records[of[i]], daerah, negeri, c);
    }
    if i :| 0 <= i < |of| && HasColumn(records[of[i]], daerah, negeri, c) {
      KeysOfRows(rows, i, c);
    }
  }

  /** The table as it is computed, in words. */
  lemma TableInWords(records: seq<Record>, daerah: string, negeri: string, includeUnreviewed: bool)
    returns (of: seq<nat>)
    requires forall r :: r in records ==> WellFormed(r)
    ensures RowsOf(records, includeUnreviewed, of) && forall i :: 0 <= i < |of| ==> of[i] < |records|
    ensures var raw := RawRows(records, Location(daerah, negeri), includeUnreviewed);
      var columns := FirstSeen(AllKeys(raw));
      var table := if columns == [] then [] else seq(|raw|, i requires 0 <= i < |raw| => Completed(raw[i], columns));
      |raw| == |of| && TableShows(records, daerah, negeri, columns, table, of)
  {
    hide Merge, Location, EffectiveValues, WellFormed, HasColumn, ShowsRecord, Completed, FirstSeen, AllKeys, RawRows;
    var raw := RawRows(records, Location(daerah, negeri), includeUnreviewed);
    var columns := FirstSeen(AllKeys(raw));
    of := WhichRows(records, Location(daerah, negeri), includeUnreviewed);
    forall c ensures c in columns <==> exists i :: 0 <= i < |of| && HasColumn(records[of[i]], daerah, negeri, c) {
      ColumnsOfRows(records, daerah, negeri, raw, of, c);
    }
    var _ := ColumnsInFirstSeenOrder(AllKeys(raw));
    forall i | 0 <= i < |of| ensures ShowsRecord(Completed(raw[i], columns), columns, records[of[i]], daerah, negeri) {
      assert records[of[i]] in records;
      RowShows(records[of[i]], daerah, negeri, columns);
    }
  }

  // ---- the code ----

  method BuildExportRows(records: seq<Record>, daerah: string, negeri: string, includeUnreviewed: bool)
    returns (columns: seq<string>, table: seq<Fields>)
    ensures var raw := RawRows(records, Location(daerah, negeri), includeUnreviewed);
      && columns == FirstSeen(AllKeys(raw))
      && (columns == [] ==> table == [])
      && (columns != [] ==> |table| == |raw| && forall i :: 0 <= i < |table| ==> table[i] == Completed(raw[i], columns))
    ensures (forall r :: r in records ==> WellFormed(r)) ==>
      exists of: seq<nat> :: RowsOf(records, includeUnreviewed, of) && (forall i :: 0 <= i < |of| ==> of[i] < |records|)
                             && TableShows(records, daerah, negeri, columns, table, of)
  {
    hide WellFormed, TableShows, RowsOf;
    hide Merge, EffectiveValues, FirstSeen, Completed, Location;
    columns := [];
    var rows := [];
    var location := Location(daerah, negeri);
    assert FirstSeen([]) == [] by { NothingSeen(); }
    for i := 0 to |records|
      invariant rows == RawRows(records[..i], location, includeUnreviewed)
      invariant columns == FirstSeen(AllKeys(rows))
    {
      var record := records[i];
      assert records[..i + 1][..i] == records[..i];
      if !includeUnreviewed && record.status != Approved {
        continue;
      }
      var effective := Merge(location, EffectiveValues(record));
      columns := AddColumns(columns, AllKeys(rows), effective.keys);
      assert (rows + [effective])[..|rows|] == rows;
      rows := rows + [effective];
    }
    assert records[..|records|] == records;
    table := [];
    if columns != [] {
      table := CompleteRows(rows, columns);
    }
    if forall r :: r in records ==> WellFormed(r) {
      ghost var of := TableInWords(records, daerah, negeri, includeUnreviewed);
      assert columns != [] ==> table == seq(|rows|, i requires 0 <= i < |rows| => Completed(rows[i], columns));
    }
  }

  lemma NothingSeen()
    ensures FirstSeen([]) == []
  {
  }

  method CompleteRows(rows: seq<Fields>, columns: seq<string>) returns (table: seq<Fields>)
    ensures |table| == |rows| && forall k :: 0 <= k < |rows| ==> table[k] == Completed(rows[k], columns)
  {
    hide Completed;
    table := [];
    for i := 0 to |rows|
      invariant |table| == i && forall k :: 0 <= k < i ==> table[k] == Completed(rows[k], columns)
    {
      var row := CompleteRow(rows[i], columns);
      table := table + [row];
    }
  }

  method AddColumns(columns: seq<string>, ghost before: seq<string>, keys: seq<string>) returns (columns': seq<string>)
    requires columns == FirstSeen(before)
    ensures columns' == FirstSeen(before + keys)
  {
    columns' := columns;
    assert before + keys[..0] == before;
    for i := 0 to |keys|
      invariant columns' == FirstSeen(before + keys[..i])
    {
      assert (before + keys[..i + 1])[..|before| + i] == before + keys[..i];
      if keys[i] !in columns' {
        columns' := columns' + [keys[i]];
      }
    }
    assert keys[..|keys|] == keys;
  }

  method CompleteRow(row: Fields, columns: seq<string>) returns (ordered: Fields)
    ensures ordered == Completed(row, columns)
  {
    var vals: map<string, Value> := map[];
    for i := 0 to |columns|
      invariant vals == map k | k in columns[..i] :: if k in row.vals then row.vals[k] else Text("")
    {
      assert columns[..i + 1] == columns[..i] + [columns[i]];
      vals := vals[columns[i] := if columns[i] in row.vals then row.vals[columns[i]] else Text("")];
    }
    assert columns[..|columns|] == columns;
    ordered := Dict(columns, vals);
  }

  // ---- what the table shows ----

  /** Column `p` is mentioned first at `at[p]`. */
  ghost predicate FirstAt(keys: seq<string>, columns: seq<string>, at: seq<nat>) {
    && |at| == |columns|
    && (forall p :: 0 <= p < |at| ==> at[p] < |keys| && keys[at[p]] == columns[p] && columns[p] !in keys[..at[p]])
    && (forall p, q :: 0 <= p < q < |at| ==> at[p] < at[q])
  }

  /** Columns are the union of the keys, each once, in the order of their first mention. */
  lemma {:induction false} ColumnsInFirstSeenOrder(keys: seq<string>) returns (at: seq<nat>)
    ensures FirstAt(keys, FirstSeen(keys), at)
    ensures forall k :: k in FirstSeen(keys) <==> k in keys
    ensures forall p, q :: 0 <= p < q < |FirstSeen(keys)| ==> FirstSeen(keys)[p] != FirstSeen(keys)[q]
  {
    at := [];
    if keys != [] {
      var n := |keys| - 1;
      var before, key := keys[..n], keys[n];
      at := ColumnsInFirstSeenOrder(before);
      assert keys == before + [key];
      assert forall p :: 0 <= p < |at| ==> keys[..at[p]] == before[..at[p]];
      if key !in FirstSeen(before) {
        assert keys[..n] == before;
        at := at + [n];
      }
    }
  }

  lemma {:induction false} KeysOfRows(rows: seq<Fields>, i: nat, k: string)
    requires i < |rows| && k in rows[i].keys
    ensures k in AllKeys(rows)
  {
    var n := |rows| - 1;
    if i < n {
      KeysOfRows(rows[..n], i, k);
    }
  }

  // ---- where a column comes up ----

  /** Row `i` is the first that has this key, as its `a`-th. */
  ghost predicate MentionedAt(rows: seq<Fields>, i: nat, a: nat, c: string) {
    && i < |rows| && a < |rows[i].keys| && rows[i].keys[a] == c && c !in rows[i].keys[..a]
    && forall j :: 0 <= j < i ==> c !in rows[j].keys
  }

  lemma {:induction false} PlaceOf(rows: seq<Fields>, n: nat) returns (i: nat, a: nat)
    requires n < |AllKeys(rows)|
    ensures i < |rows| && a < |rows[i].keys| && n == |AllKeys(rows[..i])| + a
    ensures AllKeys(rows)[..n] == AllKeys(rows[..i]) + rows[i].keys[..a] && AllKeys(rows)[n] == rows[i].keys[a]
  {
    var last := |rows| - 1;
    var before := AllKeys(rows[..last]);
    if n < |before| {
      i, a := PlaceOf(rows[..last], n);
      assert rows[..last][..i] == rows[..i];
      assert AllKeys(rows)[..n] == before[..n];
    } else {
      i, a := last, n - |before|;
    }
  }

  lemma {:induction false} KeysBefore(rows: seq<Fields>, k: nat, i: nat)
    requires k < i <= |rows|
    ensures |AllKeys(rows[..i])| >= |AllKeys(rows[..k])| + |rows[k].keys|
    decreases i
  {
    assert rows[..i][..i - 1] == rows[..i - 1];
    if k < i - 1 {
      KeysBefore(rows, k, i - 1);
    }
  }

  lemma FirstMention(rows: seq<Fields>, n: nat) returns (i: nat, a: nat)
    requires n < |AllKeys(rows)| && AllKeys(rows)[n] !in AllKeys(rows)[..n]
    ensures MentionedAt(rows, i, a, AllKeys(rows)[n]) && n == |AllKeys(rows[..i])| + a
  {
    i, a := PlaceOf(rows, n);
    var c := AllKeys(rows)[n];
    hide AllKeys;
    forall j | 0 <= j < i ensures c !in rows[j].keys {
      if c in rows[j].keys {
        KeysOfRows(rows[..i], j, c);
      }
    }
  }

  /** Of two columns the one stands first that an earlier row mentions, or the same row earlier. */
  lemma ColumnsByMention(rows: seq<Fields>, p: nat, q: nat) returns (i: nat, a: nat, k: nat, b: nat)
    requires p < q < |FirstSeen(AllKeys(rows))|
    ensures MentionedAt(rows, i, a, FirstSeen(AllKeys(rows))[p]) && MentionedAt(rows, k, b, FirstSeen(AllKeys(rows))[q])
    ensures i < k || (i == k && a < b)
  {
    var at := ColumnsInFirstSeenOrder(AllKeys(rows));
    hide FirstSeen, AllKeys;
    i, a := FirstMention(rows, at[p]);
    k, b := FirstMention(rows, at[q]);
    if k < i {
      KeysBefore(rows, k, i);
    }
  }

  /** Which rows there are. */
  lemma {:induction false} RowOfRecord(records: seq<Record>, location: Fields, includeUnreviewed: bool, j: nat)
    returns (i: nat)
    requires j < |records| && Exportable(records[j], includeUnreviewed)
    ensures i < |RawRows(records, location, includeUnreviewed)|
    ensures RawRows(records, location, includeUnreviewed)[i] == Merge(location, EffectiveValues(records[j]))
  {
    hide Merge, EffectiveValues;
    var n := |records| - 1;
    if j == n {
      i := |RawRows(records[..n], location, includeUnreviewed)|;
    } else {
      i := RowOfRecord(records[..n], location, includeUnreviewed, j);
    }
  }

  /** Nothing an exported record has is lost: some row of the table shows every one of its fields. */
  lemma NothingLost(records: seq<Record>, location: Fields, includeUnreviewed: bool, j: nat) returns (i: nat)
    requires j < |records| && Exportable(records[j], includeUnreviewed)
    requires OrderedDict.Valid(location) && OrderedDict.Valid(EffectiveValues(records[j]))
    ensures var rows := RawRows(records, location, includeUnreviewed);
      i < |rows| && forall f :: f in EffectiveValues(records[j]).vals ==>
        f in Completed(rows[i], FirstSeen(AllKeys(rows))).vals
        && Completed(rows[i], FirstSeen(AllKeys(rows))).vals[f] == EffectiveValues(records[j]).vals[f]
  {
    i := RowOfRecord(records, location, includeUnreviewed, j);
    var rows := RawRows(records, location, includeUnreviewed);
    var effective := EffectiveValues(records[j]);
    MergeValid(location, effective);
    hide EffectiveValues, RawRows, FirstSeen;
    forall f | f in effective.vals ensures f in FirstSeen(AllKeys(rows)) && f in rows[i].vals && rows[i].vals[f] == effective.vals[f] {
      assert f in rows[i].keys;
      KeysOfRows(rows, i, f);
    }
  }

  /** Together with the review log: a record created without `normalized_data`, however it was corrected
      and approved, has a row that shows its current field values. */
  lemma ExportShowsCurrentValues(history: seq<Record>, requests: seq<Request>, base: Fields, records: seq<Record>,
                                 location: Fields, includeUnreviewed: bool, j: nat) returns (i: nat)
    requires IsHistory(history, requests) && StartsCreated(history, base, Empty()) && OrderedDict.Valid(location)
    requires j < |records| && records[j] == history[|requests|] && Exportable(records[j], includeUnreviewed)
    ensures var rows := RawRows(records, location, includeUnreviewed);
      i < |rows| && forall f :: f in records[j].fieldValues.vals ==>
        f in Completed(rows[i], FirstSeen(AllKeys(rows))).vals
        && Completed(rows[i], FirstSeen(AllKeys(rows))).vals[f] == records[j].fieldValues.vals[f]
  {
    hide EffectiveValues, RawRows, FirstSeen, Merge;
    ExportsCurrentValues(history, requests, base, |requests|);
    RevisionLog(history, requests, base, Empty(), |requests|);
    i := NothingLost(records, location, includeUnreviewed, j);
  }
}
