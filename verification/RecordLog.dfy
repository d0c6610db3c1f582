/** Review of one OCR record: corrections and approvals with optimistic concurrency, the revision log
    they leave, and the values an export takes from the record. */
module RecordLog {
  import opened Wrappers
  import opened OrderedDict
  import opened NotRecorded

  type Fields = Dict<Value>

  datatype Status = PendingReview | Approved

  datatype Revision = Revision(version: int, previous: Fields, changed: Fields, reviewer: Option<string>, note: Option<string>)

  datatype Record = Record(
    fieldValues: Fields,
    normalized: Fields,
    corrected: Fields,
    missing: seq<string>,
    status: Status,
    reviewedBy: Option<string>,
    version: int,
    revisions: seq<Revision>)

  /** A record as the importers create it; without `normalized_data` its column gets the field values. */
  function Created(fieldValues: Fields, normalized: Fields, missing: seq<string>, status: Status): Record {
    Record(fieldValues, if normalized.keys == [] then fieldValues else normalized, Empty(), missing, status, None, 1, [])
  }

  // ---- what one review action does ----

  datatype Action =
    | Correct(expected: int, values: Fields)
    | Review(expected: int, status: Status)

  function Lookup(d: Fields, f: string): Value {
    Get(d.vals, f)
  }

  function StillMissing(missing: seq<string>, values: Fields): seq<string> {
    if missing == [] then []
    else
      var last := missing[|missing| - 1];
      StillMissing(missing[..|missing| - 1], values)
      + if Strip(StrOrEmpty(Lookup(values, last))) == "" then [last] else []
  }

  /** The action is based on the version the record has, and is not an approval of an approved record. */
  predicate Applies(r: Record, a: Action) {
    r.version == a.expected && (a.Review? ==> r.status != a.status)
  }

  function Corrected(r: Record, values: Fields, reviewer: Option<string>, note: Option<string>): Record {
    var merged := Merge(r.fieldValues, values);
    var missing := StillMissing(r.missing, merged);
    r.(fieldValues := merged, corrected := Merge(r.corrected, values), missing := missing,
       status := if missing == [] then Approved else PendingReview, reviewedBy := reviewer, version := r.version + 1,
       revisions := r.revisions + [Revision(r.version + 1, r.fieldValues, values, reviewer, note)])
  }

  function Reviewed(r: Record, status: Status, reviewer: Option<string>, note: Option<string>): Record {
    r.(status := status, reviewedBy := reviewer, version := r.version + 1,
       revisions := r.revisions + [Revision(r.version + 1, r.fieldValues, r.fieldValues, reviewer, note)])
  }

  function Act(r: Record, a: Action, reviewer: Option<string>, note: Option<string>): Record {
    if !Applies(r, a) then r
    else match a
      case Correct(_, values) => Corrected(r, values, reviewer, note)
      case Review(_, status) => Reviewed(r, status, reviewer, note)
  }

  /** What the export takes from a record. */
  function EffectiveValues(r: Record): Fields {
    var base := if r.normalized.keys != [] then Merge(Empty(), r.normalized)
                else if r.fieldValues.keys != [] then Merge(Empty(), r.fieldValues) else Empty();
    if r.corrected.keys != [] then Merge(base, r.corrected) else base
  }

  // ---- the same, column by column ----

  predicate IsBlank(values: Fields, f: string) {
    Strip(StrOrEmpty(Lookup(values, f))) == ""
  }

  /** A correction goes into the field values and into `corrected_data`; the flagged fields that are
      blank now stay flagged, in their order, and decide the status. */
  ghost predicate CorrectedRow(r: Record, r': Record, expected: int, values: Fields, reviewer: Option<string>,
                               note: Option<string>) {
    && IsOverlay(r'.fieldValues, r.fieldValues, values) && IsOverlay(r'.corrected, r.corrected, values)
    && r'.normalized == r.normalized && StillFlagged(r.missing, r'.missing, r'.fieldValues)
    && r'.status == (if r'.missing == [] then Approved else PendingReview)
    && r'.reviewedBy == reviewer && r'.version == expected + 1
    && r'.revisions == r.revisions + [Revision(expected + 1, r.fieldValues, values, reviewer, note)]
  }

  ghost predicate StillFlagged(missing: seq<string>, missing': seq<string>, values: Fields) {
    exists at: seq<nat> :: Picks(missing, missing', at)
                           && forall j: nat :: j < |missing| ==> (j in at <==> IsBlank(values, missing[j]))
  }

  lemma {:induction false} StillMissingFlagged(missing: seq<string>, values: Fields) returns (at: seq<nat>)
    ensures Picks(missing, StillMissing(missing, values), at)
    ensures forall j: nat :: j < |missing| ==> (j in at <==> IsBlank(values, missing[j]))
  {
    at := [];
    if missing != [] {
      var n := |missing| - 1;
      at := StillMissingFlagged(missing[..n], values);
      hide Strip, StrOrEmpty, Lookup;
      OneMorePick(missing[..n], StillMissing(missing[..n], values), at, missing[n]);
      assert missing[..n] + [missing[n]] == missing;
      assert n !in at;
      if IsBlank(values, missing[n]) {
        at := at + [n];
      }
    }
  }

  lemma CorrectedInWords(r: Record, expected: int, values: Fields, reviewer: Option<string>, note: Option<string>)
    requires r.version == expected
    ensures CorrectedRow(r, Act(r, Correct(expected, values), reviewer, note), expected, values, reviewer, note)
  {
    MergeInWords(r.fieldValues, values);
    MergeInWords(r.corrected, values);
    var at := StillMissingFlagged(r.missing, Merge(r.fieldValues, values));
    hide Merge, StillMissing, IsOverlay, IsBlank;
    assert StillFlagged(r.missing, StillMissing(r.missing, Merge(r.fieldValues, values)), Merge(r.fieldValues, values));
  }

  /** A review changes the status alone, and its revision shows the values as they are. */
  predicate ReviewedRow(r: Record, r': Record, status: Status, reviewer: Option<string>, note: Option<string>) {
    && r'.fieldValues == r.fieldValues && r'.corrected == r.corrected && r'.normalized == r.normalized
    && r'.missing == r.missing && r'.status == status && r'.reviewedBy == reviewer && r'.version == r.version + 1
    && r'.revisions == r.revisions + [Revision(r.version + 1, r.fieldValues, r.fieldValues, reviewer, note)]
  }

  // ---- the code ----

  datatype ReviewError = NotFound | Conflict

  class RecordStore {
    var records: map<nat, Record>

    /** The flagged fields that are still blank. */
    method FilterMissing(flagged: seq<string>, values: Fields) returns (missing: seq<string>)
      ensures missing == StillMissing(flagged, values)
    {
      missing := [];
      for i := 0 to |flagged|
        invariant missing == StillMissing(flagged[..i], values)
      {
        assert flagged[..i + 1][..i] == flagged[..i];
        if Strip(StrOrEmpty(Lookup(values, flagged[i]))) == "" {
          missing := missing + [flagged[i]];
        }
      }
      assert flagged[..|flagged|] == flagged;
    }

    method ApplyCorrection(id: nat, expected: int, values: Fields, reviewer: Option<string>, note: Option<string>)
      returns (e: Option<ReviewError>)
      modifies this
      ensures e == if id !in old(records) then Some(NotFound)
                   else if old(records)[id].version != expected then Some(Conflict) else None
      ensures records == if id in old(records)
                         then old(records)[id := Act(old(records)[id], Correct(expected, values), reviewer, note)]
                         else old(records)
      ensures e.Some? ==> records == old(records)
      ensures e.None? ==>
        records.Keys == old(records).Keys && forall k :: k in records && k != id ==> records[k] == old(records)[k]
      ensures e.None? ==> CorrectedRow(old(records)[id], records[id], expected, values, reviewer, note)
    {
      hide Merge, StillMissing, CorrectedRow;
      if id !in records {
        return Some(NotFound);
      }
      var record := records[id];
      if record.version != expected {
        return Some(Conflict);
      }
      CorrectedInWords(record, expected, values, reviewer, note);
      var nextVersion := record.version + 1;
      record := record.(revisions := record.revisions
                                     + [Revision(nextVersion, record.fieldValues, values, reviewer, note)]);
      var merged := Merge(record.fieldValues, values);
      record := record.(fieldValues := merged, corrected := Merge(record.corrected, values));
      var missing := FilterMissing(record.missing, merged);
      record := record.(missing := missing);
      record := record.(status := if missing != [] then PendingReview else Approved, reviewedBy := reviewer,
                        version := nextVersion);
      records := records[id := record];
      e := None;
    }

    method SetReviewStatus(id: nat, expected: int, status: Status, reviewer: Option<string>, note: Option<string>)
      returns (e: Option<ReviewError>)
      modifies this
      ensures e == if id !in old(records) then Some(NotFound)
                   else if old(records)[id].version != expected then Some(Conflict) else None
      ensures records == if id in old(records)
                         then old(records)[id := Act(old(records)[id], Review(expected, status), reviewer, note)]
                         else old(records)
      ensures e.Some? || old(records)[id].status == status ==> records == old(records)
      ensures e.None? ==>
        records.Keys == old(records).Keys && forall k :: k in records && k != id ==> records[k] == old(records)[k]
      ensures e.None? && old(records)[id].status != status ==>
        ReviewedRow(old(records)[id], records[id], status, reviewer, note)
    {
      if id !in records {
        return Some(NotFound);
      }
      var record := records[id];
      if record.version != expected {
        return Some(Conflict);
      }
      if record.status == status {
        return None;
      }
      var nextVersion := record.version + 1;
      record := record.(revisions := record.revisions
        + [Revision(nextVersion, record.fieldValues, record.fieldValues, reviewer, note)]);
      record := record.(status := status, reviewedBy := reviewer, version := nextVersion);
      records := records[id := record];
      e := None;
    }

    /** All of them, or, when one is gone, none: the request's transaction is then rolled back. */
    method BulkApprove(ids: seq<nat>, reviewer: Option<string>) returns (e: Option<ReviewError>)
      modifies this
      ensures e == if forall id :: id in ids ==> id in old(records) then None else Some(NotFound)
      ensures e.Some? ==> records == old(records)
      ensures e.None? ==> records.Keys == old(records).Keys
      ensures e.None? ==> forall id :: id in records ==>
        records[id] == if id in ids then Act(old(records)[id], Review(old(records)[id].version, Approved), reviewer, None)
                       else old(records)[id]
      ensures e.None? ==> forall id :: id in records ==>
        if id in ids && old(records)[id].status == PendingReview
        then ReviewedRow(old(records)[id], records[id], Approved, reviewer, None) else records[id] == old(records)[id]
    {
      var committed := records;
      for i := 0 to |ids|
        invariant records.Keys == old(records).Keys && forall id :: id in ids[..i] ==> id in records
        invariant forall id :: id in records ==>
          records[id] == if id in ids[..i]
                         then Act(old(records)[id], Review(old(records)[id].version, Approved), reviewer, None)
                         else old(records)[id]
      {
        assert ids[..i + 1] == ids[..i] + [ids[i]];
        if ids[i] !in records {
          records := committed;
          assert ids[i] in ids;
          return Some(NotFound);
        }
        e := SetReviewStatus(ids[i], records[ids[i]].version, Approved, reviewer, None);
      }
      assert ids[..|ids|] == ids;
      e := None;
    }
  }

  // ---- missing fields ----

  lemma {:induction false} StillMissingAreBlank(missing: seq<string>, values: Fields)
    ensures forall f :: f in StillMissing(missing, values) <==> f in missing && IsBlank(values, f)
  {
    if missing != [] {
      assert missing == missing[..|missing| - 1] + [missing[|missing| - 1]];
      StillMissingAreBlank(missing[..|missing| - 1], values);
    }
  }

  /** A correction keeps a field flagged exactly while it is blank, and approves the record exactly when
      it leaves none flagged, whatever the record's confidence was. */
  lemma CorrectionApproves(r: Record, expected: int, values: Fields, reviewer: Option<string>, note: Option<string>)
    requires r.version == expected
    ensures var r' := Act(r, Correct(expected, values), reviewer, note);
      && (forall f :: f in r'.missing <==> f in r.missing && IsBlank(r'.fieldValues, f))
      && (r'.status == Approved <==> forall f :: f in r.missing ==> !IsBlank(r'.fieldValues, f))
  {
    hide Merge, IsBlank, StillMissing;
    var r' := Act(r, Correct(expected, values), reviewer, note);
    StillMissingAreBlank(r.missing, r'.fieldValues);
    if r'.missing != [] {
      assert r'.missing[0] in r'.missing;
    }
  }

  // ---- the revision log ----

  ghost function FoldChanges(base: Fields, revisions: seq<Revision>): Fields {
    if revisions == [] then base
    else Merge(FoldChanges(base, revisions[..|revisions| - 1]), revisions[|revisions| - 1].changed)
  }

  ghost predicate WellFormed(r: Record) {
    OrderedDict.Valid(r.fieldValues) && OrderedDict.Valid(r.corrected) && OrderedDict.Valid(r.normalized)
  }

  ghost predicate ValidAction(a: Action) {
    a.Correct? ==> OrderedDict.Valid(a.values)
  }

  /** The log of a record created with the values `base`: version numbers without a gap, each revision
      showing the values before it, and the current values the outcome of all of them. */
  ghost predicate LogHolds(base: Fields, r: Record) {
    && r.version == 1 + |r.revisions|
    && (forall i :: 0 <= i < |r.revisions| ==> r.revisions[i].version == i + 2)
    && (forall i :: 0 <= i < |r.revisions| ==> r.revisions[i].previous == FoldChanges(base, r.revisions[..i]))
    && r.fieldValues == FoldChanges(base, r.revisions)
  }

  lemma OneMoreRevision(base: Fields, r: Record, r': Record, revision: Revision)
    requires LogHolds(base, r) && r'.revisions == r.revisions + [revision] && r'.version == r.version + 1
    requires revision.version == r'.version && revision.previous == r.fieldValues
    requires r'.fieldValues == Merge(r.fieldValues, revision.changed)
    ensures LogHolds(base, r')
  {
    hide Merge;
    var n := |r.revisions|;
    assert r'.revisions[..n] == r.revisions;
    assert forall i :: 0 <= i < n ==> r'.revisions[..i] == r.revisions[..i] && r'.revisions[i] == r.revisions[i];
  }

  lemma ActKeepsLog(base: Fields, r: Record, a: Action, reviewer: Option<string>, note: Option<string>)
    requires LogHolds(base, r) && WellFormed(r) && ValidAction(a)
    ensures LogHolds(base, Act(r, a, reviewer, note)) && WellFormed(Act(r, a, reviewer, note))
  {
    hide Merge, OrderedDict.Valid, LogHolds, StillMissing;
    var r' := Act(r, a, reviewer, note);
    if Applies(r, a) {
      match a
      case Correct(_, values) =>
        MergeValid(r.fieldValues, values);
        MergeValid(r.corrected, values);
        OneMoreRevision(base, r, r', Revision(r.version + 1, r.fieldValues, values, reviewer, note));
      case Review(_, _) =>
        MergeSelf(r.fieldValues);
        OneMoreRevision(base, r, r', Revision(r.version + 1, r.fieldValues, r.fieldValues, reviewer, note));
    }
  }

  /** One review action as it reaches the record. */
  datatype Request = Request(action: Action, reviewer: Option<string>, note: Option<string>)

  ghost predicate IsHistory(history: seq<Record>, requests: seq<Request>) {
    && |history| == |requests| + 1
    && (forall i :: 0 <= i < |requests| ==> ValidAction(requests[i].action))
    && forall i :: 0 <= i < |requests| ==>
         history[i + 1] == Act(history[i], requests[i].action, requests[i].reviewer, requests[i].note)
  }

  /** A history that starts with a record the importers created. */
  ghost predicate StartsCreated(history: seq<Record>, base: Fields, normalized: Fields) {
    && history != [] && OrderedDict.Valid(base) && OrderedDict.Valid(normalized)
    && exists missing, status :: history[0] == Created(base, normalized, missing, status)
  }

  /** Revision log: over every sequence of corrections and approvals, at whatever versions they expect. */
  lemma {:induction false} RevisionLog(history: seq<Record>, requests: seq<Request>, base: Fields, normalized: Fields, k: nat)
    requires IsHistory(history, requests) && StartsCreated(history, base, normalized) && k < |history|
    ensures LogHolds(base, history[k]) && WellFormed(history[k])
  {
    if k > 0 {
      RevisionLog(history, requests, base, normalized, k - 1);
      var q := requests[k - 1];
      ActKeepsLog(base, history[k - 1], q.action, q.reviewer, q.note);
    }
  }

  lemma {:induction false} VersionsGrow(history: seq<Record>, requests: seq<Request>, i: nat, k: nat)
    requires IsHistory(history, requests) && i <= k < |history|
    ensures history[i].version <= history[k].version
    decreases k
  {
    if i < k {
      VersionsGrow(history, requests, i, k - 1);
    }
  }

  /** Optimistic concurrency: of two actions based on the same version at most one changes the record. */
  lemma OneWriterPerVersion(history: seq<Record>, requests: seq<Request>, i: nat, k: nat)
    requires IsHistory(history, requests) && i < k < |requests|
    requires requests[i].action.expected == requests[k].action.expected
    ensures history[i + 1] == history[i] || history[k + 1] == history[k]
  {
    VersionsGrow(history, requests, i + 1, k);
  }

  // ---- exports ----

  /** The field values are the created ones under the corrections, and `normalized_data` is untouched. */
  ghost predicate Overlaid(base: Fields, normalized: Fields, r: Record) {
    r.fieldValues == Merge(base, r.corrected) && r.normalized == normalized
  }

  lemma ActKeepsOverlay(base: Fields, normalized: Fields, r: Record, a: Action, reviewer: Option<string>, note: Option<string>)
    requires Overlaid(base, normalized, r)
    ensures Overlaid(base, normalized, Act(r, a, reviewer, note))
  {
    hide Merge, StillMissing;
    if Applies(r, a) && a.Correct? {
      MergeAssociative(base, r.corrected, a.values);
    }
  }

  lemma {:induction false} OverlaidThroughout(history: seq<Record>, requests: seq<Request>, base: Fields, normalized: Fields,
                                              k: nat)
    requires IsHistory(history, requests) && StartsCreated(history, base, normalized) && k < |history|
    ensures Overlaid(base, if normalized.keys == [] then base else normalized, history[k])
  {
    hide Merge, OrderedDict.Valid;
    if k > 0 {
      OverlaidThroughout(history, requests, base, normalized, k - 1);
      var q := requests[k - 1];
      ActKeepsOverlay(base, if normalized.keys == [] then base else normalized, history[k - 1], q.action, q.reviewer, q.note);
    } else {
      MergeEmpty(base);
    }
  }

  lemma NoKeys(d: Fields)
    requires OrderedDict.Valid(d) && d.keys == []
    ensures d == Empty()
  {
  }

  lemma EffectiveIsOverlay(r: Record)
    requires WellFormed(r)
    ensures EffectiveValues(r) == Merge(if r.normalized.keys != [] then r.normalized else r.fieldValues, r.corrected)
  {
    hide Merge;
    EmptyMerge(r.normalized);
    EmptyMerge(r.fieldValues);
    MergeEmpty(r.normalized);
    MergeEmpty(r.fieldValues);
    if r.corrected.keys == [] {
      NoKeys(r.corrected);
    }
    if r.fieldValues.keys == [] {
      NoKeys(r.fieldValues);
    }
  }

  /** What is exported is `normalized_data`, or the field values where that is empty, under what a
      reviewer entered. */
  lemma EffectiveInWords(r: Record)
    requires WellFormed(r)
    ensures IsOverlay(EffectiveValues(r), if r.normalized.keys != [] then r.normalized else r.fieldValues, r.corrected)
  {
    EffectiveIsOverlay(r);
    MergeInWords(if r.normalized.keys != [] then r.normalized else r.fieldValues, r.corrected);
  }

  lemma MergeTwice(d: Fields, e: Fields)
    requires OrderedDict.Valid(d) && OrderedDict.Valid(e)
    ensures Merge(Merge(d, e), e) == Merge(d, e)
  {
    MergeAssociative(d, e, e);
    MergeSelf(e);
  }

  /** Export agreement: for a record created without `normalized_data`, whatever is corrected and
      approved, in whatever order, the exported values are the current field values, columns in the
      same order. */
  lemma ExportsCurrentValues(history: seq<Record>, requests: seq<Request>, base: Fields, k: nat)
    requires IsHistory(history, requests) && StartsCreated(history, base, Empty()) && k < |history|
    ensures EffectiveValues(history[k]) == history[k].fieldValues
  {
    hide Merge, EffectiveValues;
    var r := history[k];
    RevisionLog(history, requests, base, Empty(), k);
    OverlaidThroughout(history, requests, base, Empty(), k);
    EffectiveIsOverlay(r);
    MergeTwice(base, r.corrected);
  }

  /** With `normalized_data` of its own a record exports its current values exactly when that column
      agrees with the created field values on every field no correction has touched. */
  lemma ExportsCurrentValuesIff(history: seq<Record>, requests: seq<Request>, base: Fields, normalized: Fields, k: nat)
    requires IsHistory(history, requests) && StartsCreated(history, base, normalized) && k < |history|
    requires normalized.keys != []
    ensures (forall f: string :: Lookup(EffectiveValues(history[k]), f) == Lookup(history[k].fieldValues, f))
            <==> forall f: string :: f !in history[k].corrected.vals ==> Lookup(normalized, f) == Lookup(base, f)
  {
    hide EffectiveValues;
    var r := history[k];
    RevisionLog(history, requests, base, normalized, k);
    OverlaidThroughout(history, requests, base, normalized, k);
    EffectiveIsOverlay(r);
    forall f: string
      ensures Lookup(EffectiveValues(r), f) == Lookup(r.fieldValues, f)
              <==> (f !in r.corrected.vals ==> Lookup(normalized, f) == Lookup(base, f))
    {
    }
  }

  /** A record approved on import has only the resolver's audit in `normalized_data`: a field that was
      read from the scan and never corrected is then missing from the export. */
  lemma AuditOnlyExportLosesFields(history: seq<Record>, requests: seq<Request>, base: Fields, audit: Fields, k: nat,
                                   f: string)
    requires IsHistory(history, requests) && StartsCreated(history, base, audit) && k < |history|
    requires audit.keys != [] && f in base.vals && f !in audit.vals && f !in history[k].corrected.vals
    ensures f !in EffectiveValues(history[k]).vals && f in history[k].fieldValues.vals
  {
    hide EffectiveValues;
    RevisionLog(history, requests, base, audit, k);
    OverlaidThroughout(history, requests, base, audit, k);
    EffectiveIsOverlay(history[k]);
  }
}
