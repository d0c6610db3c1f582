/** Review issues that exist only because the book never had the data: the resolver that edits the
    values as it goes through the issues, what its answer depends on, and how it is undone. */
module NotRecorded {
  import opened Wrappers

  /** A field value: None, text, or any other object with its truth value and its `str`. */
  datatype Value = Nil | Text(s: string) | Other(truthy: bool, repr: string)

  type Values = map<string, Value>

  const MAS_KAHWIN := "Mas Kahwin"
  const RM_PREFIX_ISSUE := "mas kahwin missing RM prefix"
  const MISSING_MAS_KAHWIN := "missing mas kahwin"
  const CROSS_REFERENCE_ISSUE := "cross-reference note to another register book, not an actual record"
  const NOT_RECORDED := {"", "TIADA MAKLUMAT", "TIADA", "-"}

  const EXPLAINED_BY: map<string, string> := map[
    "invalid husband age" := "Umur Suami",
    "invalid wife age" := "Umur Isteri",
    MISSING_MAS_KAHWIN := MAS_KAHWIN,
    "missing pendaftar name" := "Nama Pendaftar",
    "missing pendaftar address" := "Alamat Pendaftar",
    "invalid nikah date" := "Tarikh Nikah",
    "invalid keluar date" := "Tarikh Keluar",
    "missing wali name" := "Nama Wali",
    "missing wali relationship" := "Hubungan Wali",
    "missing saksi 1" := "Saksi 1",
    "missing saksi 2" := "Saksi 2"]

  const HUSBAND_IC := "missing or invalid husband IC"
  const WIFE_IC := "missing or invalid wife IC"
  const BOTH_IC := "missing both IC values"

  const IC_ISSUES: map<string, seq<string>> := map[
    HUSBAND_IC := ["IC Baru Suami", "IC Lama Suami"],
    WIFE_IC := ["IC Baru Isteri", "IC Lama Isteri"],
    BOTH_IC := ["IC Baru Suami", "IC Lama Suami", "IC Baru Isteri", "IC Lama Isteri"]]

  const IC_FIELDS := {"IC Baru Suami", "IC Lama Suami", "IC Baru Isteri", "IC Lama Isteri"}

  /** What the resolver can do about an issue. */
  datatype Kind = NeedsRmPrefix | NeedsIcs(fields: seq<string>) | ExplainedBy(field: string) | Unexplained

  function KindOf(issue: string): Kind {
    if issue == RM_PREFIX_ISSUE then NeedsRmPrefix
    else if issue in IC_ISSUES then NeedsIcs(IC_ISSUES[issue])
    else if issue in EXPLAINED_BY then ExplainedBy(EXPLAINED_BY[issue])
    else Unexplained
  }

  // ---- text ----

  predicate IsSpace(c: char) {
    c == ' ' || '\t' <= c <= '\r' || '\U{1C}' <= c <= '\U{1F}'
  }

  predicate IsDigit(c: char) {
    '0' <= c <= '9'
  }

  predicate IsLetter(c: char) {
    'A' <= c <= 'Z' || 'a' <= c <= 'z'
  }

  function UpperChar(c: char): char {
    if 'a' <= c <= 'z' then c - 'a' + 'A' else c
  }

  function Upper(s: string): string {
    seq(|s|, i requires 0 <= i < |s| => UpperChar(s[i]))
  }

  function StripIf(drop: char -> bool, s: string): string {
    if s != "" && drop(s[0]) then StripIf(drop, s[1..])
    else if s != "" && drop(s[|s| - 1]) then StripIf(drop, s[..|s| - 1])
    else s
  }

  function Strip(s: string): string {
    StripIf(IsSpace, s)
  }

  function Digits(s: string): string {
    if s == "" then "" else (if IsDigit(s[0]) then [s[0]] else "") + Digits(s[1..])
  }

  predicate Contains(s: string, word: string) {
    word <= s || (s != "" && Contains(s[1..], word))
  }

  // ---- values ----

  predicate Falsy(v: Value) {
    v.Nil? || (v.Text? && v.s == "") || (v.Other? && !v.truthy)
  }

  function Str(v: Value): string {
    match v
    case Nil => "None"
    case Text(s) => s
    case Other(_, repr) => repr
  }

  /** `str(value or "")` */
  function StrOrEmpty(v: Value): string {
    if Falsy(v) then "" else Str(v)
  }

  function Get(values: Values, field: string): Value {
    if field in values then values[field] else Nil
  }

  predicate IsNotRecorded(v: Value) {
    Upper(Strip(StrOrEmpty(v))) in NOT_RECORDED
  }

  /** YYMMDD-PB-#### when the value is 12 digits plus punctuation and spaces. */
  function FormatIc(v: Value): Option<string> {
    var text := StrOrEmpty(v);
    var digits := Digits(text);
    if |digits| != 12 || exists c | c in text :: IsLetter(c) then None
    else Some(digits[..6] + "-" + digits[6..8] + "-" + digits[8..])
  }

  predicate PhoneChar(c: char) {
    IsDigit(c) || IsSpace(c) || c in {'-', '+', '(', ')', '/', '.'}
  }

  predicate PhoneOnly(s: string) {
    |s| >= 6 && forall c | c in s :: PhoneChar(c)
  }

  /** A numbered row with nothing to enter. */
  predicate IsBlankEntry(values: Values) {
    && Strip(StrOrEmpty(Get(values, "Bil"))) != ""
    && forall key | key in values && key !in {"Bil", "Record Type"} && !IsNotRecorded(values[key]) ::
         key == "Hal Hal Lain" && PhoneOnly(Strip(Str(values[key])))
  }

  predicate NonWord(c: char) {
    !(IsLetter(c) || IsDigit(c) || c == '_')
  }

  const HOLLOW_FIELDS := {"Nama Suami", "Nama Isteri", "IC Suami", "IC Isteri", "Tarikh Cerai", "Tarikh Rujuk"}

  predicate PointsAtOtherBook(note: string) {
    Contains(note, "RUJUK") || Contains(note, "SALINAN") || StripIf(NonWord, note) == "SAMA"
  }

  predicate IsPointerToOtherBook(values: Values) {
    var note := Strip(StrOrEmpty(Get(values, "Hal Hal Lain")));
    note != "" && PointsAtOtherBook(Upper(note)) && forall f | f in HOLLOW_FIELDS :: IsNotRecorded(Get(values, f))
  }

  // ---- resolving ----

  /** What `normalized_data` holds under a key. */
  datatype Datum = Plain(value: Value) | Issues(issues: seq<string>) | Originals(values: Values)

  const AUDIT_ISSUES := "auto_approved_not_recorded"
  const AUDIT_ORIGINALS := "auto_approved_original_values"

  datatype Resolution = Resolution(values: Values, normalized: map<string, Datum>)

  /** The Mas Kahwin normalizer, when the marriage-ocr package is installed. */
  type Normalizer = Option<string -> Option<string>>

  function Amount(normalizer: Normalizer, v: Value): Option<string> {
    if normalizer.None? then None
    else match normalizer.value(StrOrEmpty(v))
      case None => None
      case Some(amount) => if amount == "" then None else Some(amount)
  }

  /** The values and the original values kept so far. */
  datatype State = State(values: Values, originals: Values)

  function KeepOriginal(originals: Values, field: string, v: Value): Values {
    if field in originals then originals else originals[field := v]
  }

  function Replace(st: State, field: string, text: string): State {
    State(st.values[field := Text(text)], KeepOriginal(st.originals, field, Get(st.values, field)))
  }

  function FormatField(st: State, field: string): Option<State> {
    var v := Get(st.values, field);
    if IsNotRecorded(v) then Some(st)
    else match FormatIc(v)
      case None => None
      case Some(t) => Some(if v == Text(t) then st else Replace(st, field, t))
  }

  function FormatFields(st: State, fields: seq<string>): Option<State> {
    if fields == [] then Some(st)
    else match FormatFields(st, fields[..|fields| - 1])
      case None => None
      case Some(st1) => FormatField(st1, fields[|fields| - 1])
  }

  function ResolveIssue(normalizer: Normalizer, st: State, kind: Kind): Option<State> {
    match kind
    case NeedsRmPrefix =>
      (match Amount(normalizer, Get(st.values, MAS_KAHWIN))
       case None => None
       case Some(amount) => Some(Replace(st, MAS_KAHWIN, amount)))
    case NeedsIcs(fields) => FormatFields(st, fields)
    case ExplainedBy(field) => if IsNotRecorded(Get(st.values, field)) then Some(st) else None
    case Unexplained => None
  }

  function ResolveIssues(normalizer: Normalizer, values: Values, issues: seq<string>): Option<State> {
    if issues == [] then Some(State(values, map[]))
    else match ResolveIssues(normalizer, values, issues[..|issues| - 1])
      case None => None
      case Some(st) => ResolveIssue(normalizer, st, KindOf(issues[|issues| - 1]))
  }

  predicate KeptAsIs(values: Values, issues: seq<string>) {
    || (forall issue | issue in issues :: issue == CROSS_REFERENCE_ISSUE)
    || IsPointerToOtherBook(values) || IsBlankEntry(values)
  }

  /** The resolver's answer, from the values and the issues. */
  function Resolved(normalizer: Normalizer, values: Values, issues: seq<string>, normalized: map<string, Datum>)
    : Option<Resolution>
  {
    if issues == [] then None
    else
      var audit := normalized[AUDIT_ISSUES := Issues(issues)];
      if KeptAsIs(values, issues) then Some(Resolution(values, audit))
      else match ResolveIssues(normalizer, values, issues)
        case None => None
        case Some(st) =>
          Some(Resolution(st.values,
                          if st.originals == map[] then audit else audit[AUDIT_ORIGINALS := Originals(st.originals)]))
  }

  /** Reformats each field that is recorded, keeping what it replaces. */
  method FormatIcFields(values0: Values, originals0: Values, fields: seq<string>) returns (r: Option<State>)
    ensures r == FormatFields(State(values0, originals0), fields)
  {
    hide IsNotRecorded, FormatIc;
    var values, originals := values0, originals0;
    for k := 0 to |fields|
      invariant FormatFields(State(values0, originals0), fields[..k]) == Some(State(values, originals))
    {
      assert fields[..k + 1][..k] == fields[..k];
      var v := Get(values, fields[k]);
      if IsNotRecorded(v) {
        continue;
      }
      var formatted := FormatIc(v);
      if formatted.None? {
        NoField(State(values0, originals0), fields, k + 1);
        return None;
      }
      if v != Text(formatted.value) {
        originals := KeepOriginal(originals, fields[k], v);
        values := values[fields[k] := Text(formatted.value)];
      }
    }
    assert fields[..|fields|] == fields;
    r := Some(State(values, originals));
  }

  method ResolveOne(normalizer: Normalizer, values: Values, originals: Values, issue: string) returns (r: Option<State>)
    ensures r == ResolveIssue(normalizer, State(values, originals), KindOf(issue))
  {
    hide IsNotRecorded, Amount;
    if issue == RM_PREFIX_ISSUE {
      var amount := Amount(normalizer, Get(values, MAS_KAHWIN));
      if amount.None? {
        return None;
      }
      r := Some(State(values[MAS_KAHWIN := Text(amount.value)],
                      KeepOriginal(originals, MAS_KAHWIN, Get(values, MAS_KAHWIN))));
    } else if issue in IC_ISSUES {
      r := FormatIcFields(values, originals, IC_ISSUES[issue]);
    } else if issue in EXPLAINED_BY && IsNotRecorded(Get(values, EXPLAINED_BY[issue])) {
      r := Some(State(values, originals));
    } else {
      r := None;
    }
  }

  method Resolve(values0: Values, issues: seq<string>, normalized: map<string, Datum>, normalizer: Normalizer)
    returns (r: Option<Resolution>)
    ensures r == Resolved(normalizer, values0, issues, normalized)
  {
    hide ResolveIssue, KindOf, IsPointerToOtherBook, IsBlankEntry;
    if issues == [] {
      return None;
    }
    var audit := normalized[AUDIT_ISSUES := Issues(issues)];
    if forall issue | issue in issues :: issue == CROSS_REFERENCE_ISSUE {
      return Some(Resolution(values0, audit));
    }
    if IsPointerToOtherBook(values0) || IsBlankEntry(values0) {
      return Some(Resolution(values0, audit));
    }
    var values, originals: Values := values0, map[];
    for i := 0 to |issues|
      invariant ResolveIssues(normalizer, values0, issues[..i]) == Some(State(values, originals))
    {
      assert issues[..i + 1][..i] == issues[..i];
      var st := ResolveOne(normalizer, values, originals, issues[i]);
      if st.None? {
        NoneAfter(normalizer, values0, issues, i + 1);
        return None;
      }
      values, originals := st.value.values, st.value.originals;
    }
    assert issues[..|issues|] == issues;
    if originals != map[] {
      audit := audit[AUDIT_ORIGINALS := Originals(originals)];
    }
    r := Some(Resolution(values, audit));
  }

  lemma {:induction false} NoneAfter(normalizer: Normalizer, values: Values, issues: seq<string>, i: nat)
    requires i <= |issues| && ResolveIssues(normalizer, values, issues[..i]) == None
    ensures ResolveIssues(normalizer, values, issues) == None
    decreases |issues| - i
  {
    if i < |issues| {
      assert issues[..i + 1][..i] == issues[..i];
      NoneAfter(normalizer, values, issues, i + 1);
    } else {
      assert issues[..i] == issues;
    }
  }

  lemma {:induction false} NoField(st: State, fields: seq<string>, k: nat)
    requires k <= |fields| && FormatFields(st, fields[..k]) == None
    ensures FormatFields(st, fields) == None
    decreases |fields| - k
  {
    if k < |fields| {
      assert fields[..k + 1][..k] == fields[..k];
      NoField(st, fields, k + 1);
    } else {
      assert fields[..k] == fields;
    }
  }
}
