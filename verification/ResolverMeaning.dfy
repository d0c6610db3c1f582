/** The resolver's answer in the words of the register: which values say nothing, which rows point at
    another book or were never filled in, and which issues the values explain. */
module ResolverMeaning {
  import opened Wrappers
  import opened NotRecorded
  import opened IcFormat
  import opened ResolverOrder

  // ---- trimming ----

  /** `s[a..b]` is what is left when the droppable characters at both ends are gone. */
  predicate TrimmedTo(drop: char -> bool, s: string, a: nat, b: nat) {
    && a <= b <= |s|
    && (forall i :: 0 <= i < a ==> drop(s[i])) && (forall i :: b <= i < |s| ==> drop(s[i]))
    && (a < b ==> !drop(s[a]) && !drop(s[b - 1]))
  }

  lemma {:induction false} StripAt(drop: char -> bool, s: string) returns (a: nat, b: nat)
    ensures TrimmedTo(drop, s, a, b) && StripIf(drop, s) == s[a..b]
    decreases |s|
  {
    if s != "" && drop(s[0]) {
      var a0, b0 := StripAt(drop, s[1..]);
      a, b := a0 + 1, b0 + 1;
      assert s[a..b] == s[1..][a0..b0];
      assert forall i :: b <= i < |s| ==> s[i] == s[1..][i - 1];
      assert forall i :: 1 <= i < a ==> s[i] == s[1..][i - 1];
    } else if s != "" && drop(s[|s| - 1]) {
      a, b := StripAt(drop, s[..|s| - 1]);
      assert s[a..b] == s[..|s| - 1][a..b];
      assert forall i :: 0 <= i < |s| - 1 ==> s[i] == s[..|s| - 1][i];
    } else {
      a, b := 0, |s|;
    }
  }

  lemma StripOnly(drop: char -> bool, s: string, a: nat, b: nat)
    requires TrimmedTo(drop, s, a, b)
    ensures StripIf(drop, s) == s[a..b]
  {
    var c, d := StripAt(drop, s);
    if a < b {
      assert !(a < c) && !(b - 1 >= d);
      assert c < d;
      assert !(c < a) && !(d - 1 >= b);
    } else {
      assert forall i :: 0 <= i < |s| ==> drop(s[i]);
    }
  }

  ghost predicate Trims(s: string, core: string) {
    exists a: nat, b: nat :: TrimmedTo(IsSpace, s, a, b) && core == s[a..b]
  }

  lemma StripTrims(s: string, core: string)
    ensures Trims(s, core) <==> Strip(s) == core
  {
    var a, b := StripAt(IsSpace, s);
    if Trims(s, core) {
      var c: nat, d: nat :| TrimmedTo(IsSpace, s, c, d) && core == s[c..d];
      StripOnly(IsSpace, s, c, d);
    }
  }

  // ---- words, in either case ----

  /** The word is in capitals; the text may not be. */
  predicate Reads(text: string, word: string) {
    && |text| == |word|
    && forall i :: 0 <= i < |text| ==> text[i] == word[i] || ('a' <= text[i] <= 'z' && text[i] - 'a' + 'A' == word[i])
  }

  predicate InCapitals(word: string) {
    forall c :: c in word ==> !('a' <= c <= 'z')
  }

  lemma UpperReads(text: string, word: string)
    requires InCapitals(word)
    ensures Upper(text) == word <==> Reads(text, word)
  {
    if Reads(text, word) {
      assert forall i :: 0 <= i < |text| ==> word[i] in word;
      assert Upper(text) == word;
    }
    if Upper(text) == word {
      forall i | 0 <= i < |text|
        ensures text[i] == word[i] || ('a' <= text[i] <= 'z' && text[i] - 'a' + 'A' == word[i])
      {
        assert Upper(text)[i] == UpperChar(text[i]);
      }
    }
  }

  // ---- values that say nothing ----

  /** The text of a value; None, an empty text and a falsy object have none. */
  function TextOf(v: Value): string {
    match v
    case Nil => ""
    case Text(s) => s
    case Other(truthy, repr) => if truthy then repr else ""
  }

  ghost predicate SaysNothing(v: Value) {
    exists core :: Trims(TextOf(v), core)
                   && (core == "" || Reads(core, "TIADA MAKLUMAT") || Reads(core, "TIADA") || core == "-")
  }

  lemma NotRecordedMeans(v: Value)
    ensures IsNotRecorded(v) <==> SaysNothing(v)
  {
    var text := TextOf(v);
    assert StrOrEmpty(v) == text;
    var core := Strip(text);
    StripTrims(text, core);
    UpperReads(core, "TIADA MAKLUMAT");
    UpperReads(core, "TIADA");
    UpperReads(core, "-");
    assert Reads(core, "-") <==> core == "-";
    assert Upper(core) == "" <==> core == "";
    hide Strip, Upper, Reads, Trims;
    assert IsNotRecorded(v) <==> core == "" || Reads(core, "TIADA MAKLUMAT") || Reads(core, "TIADA") || core == "-";
    forall c | Trims(text, c) ensures c == core {
      StripTrims(text, c);
    }
  }

  // ---- a row that points at another book ----

  predicate MentionedAt(text: string, word: string, k: nat) {
    k + |word| <= |text| && Reads(text[k..k + |word|], word)
  }

  ghost predicate Mentions(text: string, word: string) {
    exists k: nat :: MentionedAt(text, word, k)
  }

  predicate IsAt(s: string, word: string, k: nat) {
    k + |word| <= |s| && s[k..k + |word|] == word
  }

  lemma {:induction false} ContainsAt(s: string, word: string) returns (k: nat)
    requires Contains(s, word)
    ensures IsAt(s, word, k)
  {
    if word <= s {
      k := 0;
    } else {
      k := ContainsAt(s[1..], word);
      assert s[k + 1..k + 1 + |word|] == s[1..][k..k + |word|];
      k := k + 1;
    }
  }

  lemma {:induction false} AtContains(s: string, word: string, k: nat)
    requires IsAt(s, word, k)
    ensures Contains(s, word)
  {
    if k == 0 {
      assert s[0..|word|] == word;
    } else if s != "" {
      assert s[1..][k - 1..k - 1 + |word|] == s[k..k + |word|];
      AtContains(s[1..], word, k - 1);
    }
  }

  lemma UpperAt(text: string, word: string, k: nat)
    requires InCapitals(word)
    ensures IsAt(Upper(text), word, k) <==> MentionedAt(text, word, k)
  {
    if k + |word| <= |text| {
      assert Upper(text)[k..k + |word|] == Upper(text[k..k + |word|]);
      UpperReads(text[k..k + |word|], word);
    }
  }

  lemma MentionsMeans(text: string, word: string)
    requires InCapitals(word)
    ensures Contains(Upper(text), word) <==> Mentions(text, word)
  {
    hide Upper, Contains, IsAt, MentionedAt;
    if Contains(Upper(text), word) {
      var k := ContainsAt(Upper(text), word);
      UpperAt(text, word, k);
    }
    if Mentions(text, word) {
      var k: nat :| MentionedAt(text, word, k);
      UpperAt(text, word, k);
      AtContains(Upper(text), word, k);
    }
  }

  predicate WordChar(c: char) {
    'A' <= c <= 'Z' || 'a' <= c <= 'z' || '0' <= c <= '9' || c == '_'
  }

  predicate SamaAt(text: string, k: nat) {
    && MentionedAt(text, "SAMA", k)
    && forall i :: 0 <= i < |text| && !(k <= i < k + 4) ==> !WordChar(text[i])
  }

  /** SAMA with nothing but punctuation around it. */
  ghost predicate OnlySama(text: string) {
    exists k: nat :: SamaAt(text, k)
  }

  lemma NonWordMeans(text: string, i: nat)
    requires i < |text|
    ensures NonWord(Upper(text)[i]) <==> !WordChar(text[i])
  {
  }

  lemma SamaFound(text: string) returns (k: nat)
    requires StripIf(NonWord, Upper(text)) == "SAMA"
    ensures SamaAt(text, k)
  {
    hide NonWord, Upper, StripIf, MentionedAt, WordChar;
    var up := Upper(text);
    var b;
    k, b := StripAt(NonWord, up);
    SameLength(text);
    assert b == k + 4 && IsAt(up, "SAMA", k);
    UpperAt(text, "SAMA", k);
    forall i | 0 <= i < |text| && !(k <= i < k + 4) ensures !WordChar(text[i]) {
      NonWordMeans(text, i);
    }
  }

  lemma SameLength(text: string)
    ensures |Upper(text)| == |text|
  {
  }

  lemma SamaStripped(text: string, k: nat)
    requires SamaAt(text, k)
    ensures StripIf(NonWord, Upper(text)) == "SAMA"
  {
    hide Upper, StripIf, MentionedAt, WordChar;
    var up := Upper(text);
    SameLength(text);
    UpperAt(text, "SAMA", k);
    assert IsAt(up, "SAMA", k);
    assert up[k] == up[k..k + 4][0] == 'S' && up[k + 3] == up[k..k + 4][3] == 'A';
    forall i | 0 <= i < |text| && !(k <= i < k + 4) ensures NonWord(up[i]) {
      NonWordMeans(text, i);
    }
    StripOnly(NonWord, up, k, k + 4);
  }

  lemma SamaMeans(text: string)
    ensures StripIf(NonWord, Upper(text)) == "SAMA" <==> OnlySama(text)
  {
    hide NonWord, Upper, StripIf, SamaAt;
    if StripIf(NonWord, Upper(text)) == "SAMA" {
      var k := SamaFound(text);
    }
    if k: nat :| SamaAt(text, k) {
      SamaStripped(text, k);
    }
  }

  /** No name, IC or date, and a note that points elsewhere. */
  ghost predicate PointsElsewhere(values: Values) {
    && SaysNothing(Get(values, "Nama Suami")) && SaysNothing(Get(values, "Nama Isteri"))
    && SaysNothing(Get(values, "IC Suami")) && SaysNothing(Get(values, "IC Isteri"))
    && SaysNothing(Get(values, "Tarikh Cerai")) && SaysNothing(Get(values, "Tarikh Rujuk"))
    && NoteElsewhere(Get(values, "Hal Hal Lain"))
  }

  ghost predicate NoteElsewhere(note: Value) {
    exists core :: Trims(TextOf(note), core)
                   && (Mentions(core, "RUJUK") || Mentions(core, "SALINAN") || OnlySama(core))
  }

  lemma NoteMeans(v: Value)
    ensures var note := Strip(StrOrEmpty(v)); note != "" && PointsAtOtherBook(Upper(note)) <==> NoteElsewhere(v)
  {
    assert StrOrEmpty(v) == TextOf(v);
    var note := Strip(TextOf(v));
    MentionsMeans(note, "RUJUK");
    MentionsMeans(note, "SALINAN");
    SamaMeans(note);
    NothingMentioned();
    hide Strip, Upper, Contains, StripIf, Trims, Mentions, OnlySama;
    StripTrims(TextOf(v), note);
    forall core | Trims(TextOf(v), core) ensures core == note {
      StripTrims(TextOf(v), core);
    }
  }

  lemma PointerMeans(values: Values)
    ensures IsPointerToOtherBook(values) <==> PointsElsewhere(values)
  {
    hide Strip, Upper, PointsAtOtherBook, Trims, Mentions, OnlySama, IsNotRecorded, SaysNothing, StrOrEmpty;
    NoteMeans(Get(values, "Hal Hal Lain"));
    NotRecordedMeans(Get(values, "Nama Suami"));
    NotRecordedMeans(Get(values, "Nama Isteri"));
    NotRecordedMeans(Get(values, "IC Suami"));
    NotRecordedMeans(Get(values, "IC Isteri"));
    NotRecordedMeans(Get(values, "Tarikh Cerai"));
    NotRecordedMeans(Get(values, "Tarikh Rujuk"));
  }

  lemma NothingMentioned()
    ensures !Mentions("", "RUJUK") && !Mentions("", "SALINAN") && !OnlySama("")
  {
  }

  // ---- a row that was never filled in ----

  /** Six or more characters of a phone number and nothing else. */
  ghost predicate IsPhone(v: Value) {
    exists core :: Trims(Str(v), core) && |core| >= 6
                   && forall c :: c in core ==> '0' <= c <= '9' || IsSpace(c) || c in "-+()/."
  }

  ghost predicate NeverFilledIn(values: Values) {
    && (exists c :: c in TextOf(Get(values, "Bil")) && !IsSpace(c))
    && forall key :: key in values && key != "Bil" && key != "Record Type" ==>
         SaysNothing(values[key]) || (key == "Hal Hal Lain" && IsPhone(values[key]))
  }

  lemma PhoneMeans(v: Value)
    ensures PhoneOnly(Strip(Str(v))) <==> IsPhone(v)
  {
    var core := Strip(Str(v));
    StripTrims(Str(v), core);
    assert forall c :: PhoneChar(c) <==> '0' <= c <= '9' || IsSpace(c) || c in "-+()/.";
    hide Strip, Trims;
    forall t | Trims(Str(v), t) ensures t == core {
      StripTrims(Str(v), t);
    }
  }

  lemma NotOnlySpaces(s: string)
    ensures Strip(s) != "" <==> exists c :: c in s && !IsSpace(c)
  {
    var a, b := StripAt(IsSpace, s);
    if a < b {
      assert s[a] in s;
    } else {
      forall c | c in s ensures IsSpace(c) {
        var i :| 0 <= i < |s| && s[i] == c;
      }
    }
  }

  lemma BlankMeans(values: Values)
    ensures IsBlankEntry(values) <==> NeverFilledIn(values)
  {
    NotOnlySpaces(TextOf(Get(values, "Bil")));
    assert StrOrEmpty(Get(values, "Bil")) == TextOf(Get(values, "Bil"));
    hide Strip, IsNotRecorded, SaysNothing, PhoneOnly, IsPhone;
    forall key | key in values
      ensures IsNotRecorded(values[key]) <==> SaysNothing(values[key])
      ensures PhoneOnly(Strip(Str(values[key]))) <==> IsPhone(values[key])
    {
      NotRecordedMeans(values[key]);
      PhoneMeans(values[key]);
    }
  }

  // ---- issues ----

  predicate IsDigitAt(s: string, i: int) {
    0 <= i < |s| && '0' <= s[i] <= '9'
  }

  function DigitPlaces(s: string): set<int> {
    set i | 0 <= i < |s| && IsDigitAt(s, i)
  }

  lemma {:induction false} DigitCount(s: string)
    ensures |Digits(s)| == |DigitPlaces(s)|
  {
    if s != "" {
      var rest, n := s[..|s| - 1], |s| - 1;
      DigitCount(rest);
      assert s == rest + [s[n]];
      DigitsConcat(rest, [s[n]]);
      assert Digits([s[n]]) == if IsDigit(s[n]) then [s[n]] else "" by { OneDigit(s[n]); }
      assert DigitPlaces(s) == DigitPlaces(rest) + if IsDigit(s[n]) then {n} else {};
    } else {
      assert DigitPlaces(s) == {};
    }
  }

  lemma OneDigit(c: char)
    ensures Digits([c]) == if IsDigit(c) then [c] else ""
  {
    assert [c][1..] == "";
  }

  /** Twelve digits, and no letter, whatever else. */
  predicate IsIc(v: Value) {
    && |DigitPlaces(TextOf(v))| == 12
    && forall c :: c in TextOf(v) ==> !('A' <= c <= 'Z') && !('a' <= c <= 'z')
  }

  lemma IcMeans(v: Value)
    ensures FormatIc(v).Some? <==> IsIc(v)
  {
    var text := TextOf(v);
    assert StrOrEmpty(v) == text;
    DigitCount(text);
    hide Digits, DigitPlaces;
  }

  /** YYMMDD-PB-####: the digits of the value, in order, and two hyphens. */
  lemma IcShape(v: Value, t: string)
    requires FormatIc(v) == Some(t)
    ensures |t| == 14 && t[6] == '-' && t[9] == '-' && Digits(t) == Digits(TextOf(v))
    ensures forall i :: 0 <= i < 14 && i != 6 && i != 9 ==> IsDigitAt(t, i)
  {
    var text := TextOf(v);
    assert StrOrEmpty(v) == text;
    DigitsOnly(text);
    FormatIcKeepsDigits(v, t);
    TwelveDigits(Digits(text), t);
  }

  lemma TwelveDigits(d: string, t: string)
    requires |d| == 12 && (forall c :: c in d ==> IsDigit(c)) && t == d[..6] + "-" + d[6..8] + "-" + d[8..]
    ensures |t| == 14 && t[6] == '-' && t[9] == '-'
    ensures forall i :: 0 <= i < 14 && i != 6 && i != 9 ==> IsDigitAt(t, i)
  {
    forall i | 0 <= i < 14 && i != 6 && i != 9 ensures IsDigitAt(t, i) {
      var k := if i < 6 then i else if i < 9 then i - 1 else i - 2;
      assert t[i] == d[k] && d[k] in d;
    }
  }

  ghost predicate IcOrNothing(values: Values, field: string) {
    SaysNothing(Get(values, field)) || IsIc(Get(values, field))
  }

  /** What the values must say for an issue to be explained; no other issue ever is. */
  ghost predicate ExplainedInWords(normalizer: Normalizer, values: Values, issue: string) {
    || (issue == "mas kahwin missing RM prefix" && normalizer.Some?
        && normalizer.value(TextOf(Get(values, "Mas Kahwin"))).Some?
        && normalizer.value(TextOf(Get(values, "Mas Kahwin"))).value != "")
    || (issue == "missing or invalid husband IC"
        && IcOrNothing(values, "IC Baru Suami") && IcOrNothing(values, "IC Lama Suami"))
    || (issue == "missing or invalid wife IC"
        && IcOrNothing(values, "IC Baru Isteri") && IcOrNothing(values, "IC Lama Isteri"))
    || (issue == "missing both IC values"
        && IcOrNothing(values, "IC Baru Suami") && IcOrNothing(values, "IC Lama Suami")
        && IcOrNothing(values, "IC Baru Isteri") && IcOrNothing(values, "IC Lama Isteri"))
    || (issue == "invalid husband age" && SaysNothing(Get(values, "Umur Suami")))
    || (issue == "invalid wife age" && SaysNothing(Get(values, "Umur Isteri")))
    || (issue == "missing mas kahwin" && SaysNothing(Get(values, "Mas Kahwin")))
    || (issue == "missing pendaftar name" && SaysNothing(Get(values, "Nama Pendaftar")))
    || (issue == "missing pendaftar address" && SaysNothing(Get(values, "Alamat Pendaftar")))
    || (issue == "invalid nikah date" && SaysNothing(Get(values, "Tarikh Nikah")))
    || (issue == "invalid keluar date" && SaysNothing(Get(values, "Tarikh Keluar")))
    || (issue == "missing wali name" && SaysNothing(Get(values, "Nama Wali")))
    || (issue == "missing wali relationship" && SaysNothing(Get(values, "Hubungan Wali")))
    || (issue == "missing saksi 1" && SaysNothing(Get(values, "Saksi 1")))
    || (issue == "missing saksi 2" && SaysNothing(Get(values, "Saksi 2")))
  }

  lemma IcIssueMeans(values: Values, field: string)
    ensures Acceptable(Get(values, field)) <==> IcOrNothing(values, field)
  {
    hide IsNotRecorded, FormatIc, SaysNothing, IsIc;
    NotRecordedMeans(Get(values, field));
    IcMeans(Get(values, field));
  }

  lemma IcIssuesMean(values: Values, issue: string)
    requires issue in IC_ISSUES
    ensures (forall f | f in IC_ISSUES[issue] :: Acceptable(Get(values, f)))
            <==> (|| (issue == "missing or invalid husband IC"
                      && IcOrNothing(values, "IC Baru Suami") && IcOrNothing(values, "IC Lama Suami"))
                  || (issue == "missing or invalid wife IC"
                      && IcOrNothing(values, "IC Baru Isteri") && IcOrNothing(values, "IC Lama Isteri"))
                  || (issue == "missing both IC values"
                      && IcOrNothing(values, "IC Baru Suami") && IcOrNothing(values, "IC Lama Suami")
                      && IcOrNothing(values, "IC Baru Isteri") && IcOrNothing(values, "IC Lama Isteri")))
  {
    hide Acceptable, IcOrNothing, Get;
    IcIssueMeans(values, "IC Baru Suami");
    IcIssueMeans(values, "IC Lama Suami");
    IcIssueMeans(values, "IC Baru Isteri");
    IcIssueMeans(values, "IC Lama Isteri");
  }

  lemma FieldIssueMeans(values: Values, issue: string)
    requires issue in EXPLAINED_BY
    ensures IsNotRecorded(Get(values, EXPLAINED_BY[issue])) <==> SaysNothing(Get(values, EXPLAINED_BY[issue]))
  {
    NotRecordedMeans(Get(values, EXPLAINED_BY[issue]));
  }

  lemma IssueMeans(normalizer: Normalizer, values: Values, issue: string)
    ensures Explained(normalizer, values, 0, KindOf(issue)) <==> ExplainedInWords(normalizer, values, issue)
  {
    hide IsNotRecorded, SaysNothing, Acceptable, IcOrNothing, Get;
    if issue in IC_ISSUES {
      IcIssuesMean(values, issue);
    } else if issue in EXPLAINED_BY {
      FieldIssue(normalizer, values, issue);
    } else {
      assert StrOrEmpty(Get(values, MAS_KAHWIN)) == TextOf(Get(values, MAS_KAHWIN));
    }
  }

  lemma FieldIssue(normalizer: Normalizer, values: Values, issue: string)
    requires issue in EXPLAINED_BY
    ensures Explained(normalizer, values, 0, KindOf(issue)) <==> ExplainedInWords(normalizer, values, issue)
  {
    hide IsNotRecorded, SaysNothing, IcOrNothing, Get, Amount;
    FieldIssueMeans(values, issue);
    assert KindOf(issue) == ExplainedBy(EXPLAINED_BY[issue]);
    FieldIssueWords(normalizer, values, issue);
  }

  lemma FieldIssueWords(normalizer: Normalizer, values: Values, issue: string)
    requires issue in EXPLAINED_BY
    ensures ExplainedInWords(normalizer, values, issue) <==> SaysNothing(Get(values, EXPLAINED_BY[issue]))
  {
    hide SaysNothing, IcOrNothing, Get;
  }

  // ---- the answer ----

  ghost predicate KeptInWords(values: Values, issues: seq<string>) {
    || (forall issue :: issue in issues ==>
          issue == "cross-reference note to another register book, not an actual record")
    || PointsElsewhere(values) || NeverFilledIn(values)
  }

  lemma KeptMeans(values: Values, issues: seq<string>)
    ensures KeptAsIs(values, issues) <==> KeptInWords(values, issues)
  {
    hide IsPointerToOtherBook, IsBlankEntry, PointsElsewhere, NeverFilledIn;
    PointerMeans(values);
    BlankMeans(values);
  }

  /** For every list of issues: a cross-reference, a row that points elsewhere and a row that was never
      filled in are kept with their values; any other row is answered as its issues are, one by one. */
  lemma KeptOrResolved(normalizer: Normalizer, values: Values, issues: seq<string>, normalized: map<string, Datum>)
    ensures var r := Resolved(normalizer, values, issues, normalized);
      if issues == [] then r == None
      else if KeptInWords(values, issues)
      then r == Some(Resolution(values, normalized["auto_approved_not_recorded" := Issues(issues)]))
      else && (r.Some? <==> ResolveIssues(normalizer, values, issues).Some?)
           && (r.Some? ==> r.value.values == ResolveIssues(normalizer, values, issues).value.values
                           && "auto_approved_not_recorded" in r.value.normalized
                           && r.value.normalized["auto_approved_not_recorded"] == Issues(issues))
  {
    hide KeptAsIs, KeptInWords, ResolveIssues;
    KeptMeans(values, issues);
  }

  /** The answer in words: with at most one RM-prefix issue, and not beside a missing Mas Kahwin, the
      resolver answers exactly when the row is kept as it is or the values explain every issue. */
  lemma ResolvedInWords(normalizer: Normalizer, values: Values, issues: seq<string>, normalized: map<string, Datum>)
    requires !Conflicting(issues) && multiset(issues)["mas kahwin missing RM prefix"] <= 1
    ensures Resolved(normalizer, values, issues, normalized).Some?
            <==> issues != [] && (|| KeptInWords(values, issues)
                                  || forall issue :: issue in issues ==> ExplainedInWords(normalizer, values, issue))
  {
    hide KeptInWords, ResolveIssues, ExplainedInWords, Explained, KindOf, Conflicting;
    KeptOrResolved(normalizer, values, issues, normalized);
    ResolvedWhenExplained(normalizer, values, issues);
    forall issue: string
      ensures Explained(normalizer, values, 0, KindOf(issue)) <==> ExplainedInWords(normalizer, values, issue)
    {
      IssueMeans(normalizer, values, issue);
    }
  }

  // ---- what the fields come out as ----

  predicate AsksForIc(issues: seq<string>, f: string) {
    || ((f == "IC Baru Suami" || f == "IC Lama Suami")
        && ("missing or invalid husband IC" in issues || "missing both IC values" in issues))
    || ((f == "IC Baru Isteri" || f == "IC Lama Isteri")
        && ("missing or invalid wife IC" in issues || "missing both IC values" in issues))
  }

  lemma CoversInWords(issues: seq<string>, f: string)
    ensures CoveredByIc(issues, f) <==> AsksForIc(issues, f)
  {
    if CoveredByIc(issues, f) {
      var issue :| issue in issues && Covers(KindOf(issue), f);
      assert issue in {HUSBAND_IC, WIFE_IC, BOTH_IC};
    }
    if AsksForIc(issues, f) {
      var issue := if "missing both IC values" in issues then BOTH_IC
                   else if f == "IC Baru Suami" || f == "IC Lama Suami" then HUSBAND_IC else WIFE_IC;
      assert issue in issues && Covers(KindOf(issue), f);
    }
  }

  predicate IsFormattedIc(v: Value, original: Value) {
    && v.Text? && |v.s| == 14 && v.s[6] == '-' && v.s[9] == '-' && Digits(v.s) == Digits(TextOf(original))
    && forall i :: 0 <= i < 14 && i != 6 && i != 9 ==> IsDigitAt(v.s, i)
  }

  lemma CleanedInWords(v: Value)
    requires Acceptable(v)
    ensures if SaysNothing(v) then Cleaned(v) == v else IsFormattedIc(Cleaned(v), v)
  {
    hide IsNotRecorded, FormatIc, SaysNothing;
    NotRecordedMeans(v);
    if !IsNotRecorded(v) {
      IcShape(v, FormatIc(v).value);
    }
  }

  lemma CoveredAcceptable(normalizer: Normalizer, values: Values, issues: seq<string>, f: string)
    requires forall issue :: issue in issues ==> Explained(normalizer, values, 0, KindOf(issue))
    requires CoveredByIc(issues, f)
    ensures Acceptable(Get(values, f))
  {
    hide Acceptable, KindOf;
  }

  /** Each field of a resolved row that is not kept as it is: the Mas Kahwin is the normalizer's amount if it
      was at issue, an IC that was at issue and says something is reformatted, and all else stays. */
  lemma OutcomeInWords(normalizer: Normalizer, values: Values, issues: seq<string>, normalized: map<string, Datum>,
                       r: Resolution, f: string)
    requires !Conflicting(issues) && multiset(issues)["mas kahwin missing RM prefix"] <= 1
    requires Resolved(normalizer, values, issues, normalized) == Some(r) && !KeptInWords(values, issues)
    ensures if f == "Mas Kahwin" && "mas kahwin missing RM prefix" in issues
            then && normalizer.Some? && normalizer.value(TextOf(Get(values, f))).Some?
                 && Get(r.values, f) == Text(normalizer.value(TextOf(Get(values, f))).value)
            else if AsksForIc(issues, f) && !SaysNothing(Get(values, f))
            then IsFormattedIc(Get(r.values, f), Get(values, f))
            else Get(r.values, f) == Get(values, f)
  {
    hide KeptInWords, ResolveIssues, Explained, ExplainedInWords, KindOf, Reached, RmCount, CoveredByIc, AsksForIc,
      Cleaned, SaysNothing, IsFormattedIc, Amount, Acceptable;
    KeptOrResolved(normalizer, values, issues, normalized);
    ResolvedWhenExplained(normalizer, values, issues);
    ResolvesIff(normalizer, values, issues);
    var st := ResolveIssues(normalizer, values, issues).value;
    FieldOf(normalizer, values, issues, st, f);
    RmCountIsMultiplicity(issues);
    CoversInWords(issues, f);
    if f == MAS_KAHWIN {
      assert RM_PREFIX_ISSUE in issues <==> RM_PREFIX_ISSUE in multiset(issues);
      NotAnIcField(issues);
      OneAmount(normalizer, values);
      if RM_PREFIX_ISSUE in issues {
        IssueMeans(normalizer, values, RM_PREFIX_ISSUE);
        RmInWords(normalizer, values);
      }
    } else if CoveredByIc(issues, f) {
      CoveredAcceptable(normalizer, values, issues, f);
      CleanedInWords(Get(values, f));
    }
  }

  lemma FieldOf(normalizer: Normalizer, values: Values, issues: seq<string>, st: State, f: string)
    requires Reached(normalizer, values, issues, st)
    ensures Get(st.values, f) == Final(normalizer, values, issues, f)
  {
    hide Final, Changes;
    assert FieldReached(normalizer, values, issues, st, f);
  }

  lemma NotAnIcField(issues: seq<string>)
    ensures !AsksForIc(issues, MAS_KAHWIN)
  {
  }

  lemma RmInWords(normalizer: Normalizer, values: Values)
    requires ExplainedInWords(normalizer, values, RM_PREFIX_ISSUE)
    ensures normalizer.Some? && normalizer.value(TextOf(Get(values, MAS_KAHWIN))).Some?
    ensures normalizer.value(TextOf(Get(values, MAS_KAHWIN))).value != ""
  {
  }

  lemma OneAmount(normalizer: Normalizer, values: Values)
    ensures Normalized(normalizer, values, 0) == Get(values, MAS_KAHWIN)
    ensures normalizer.Some? && normalizer.value(TextOf(Get(values, MAS_KAHWIN))).Some?
            && normalizer.value(TextOf(Get(values, MAS_KAHWIN))).value != "" ==>
              Normalized(normalizer, values, 1) == Text(normalizer.value(TextOf(Get(values, MAS_KAHWIN))).value)
  {
    assert StrOrEmpty(Get(values, MAS_KAHWIN)) == TextOf(Get(values, MAS_KAHWIN));
    assert Normalized(normalizer, values, 0) == Get(values, MAS_KAHWIN);
  }
}
