/** What the resolver does to IC fields: a value is reformatted at most once, and keeps its digits. */
module IcFormat {
  import opened Wrappers
  import opened NotRecorded

  lemma {:induction false} DigitsConcat(a: string, b: string)
    ensures Digits(a + b) == Digits(a) + Digits(b)
  {
    hide Digits, First;
    if a == "" {
      NoDigits();
      assert a + b == b && [] + Digits(b) == Digits(b);
    } else {
      DigitsConcat(a[1..], b);
      DigitsCons(a + b);
      DigitsCons(a);
      assert (a + b)[0] == a[0] && (a + b)[1..] == a[1..] + b;
      Reassociate(First(a[0]), Digits(a[1..]), Digits(b));
    }
  }

  lemma Reassociate(a: string, b: string, c: string)
    ensures a + (b + c) == a + b + c
  {
  }

  lemma NoDigits()
    ensures Digits("") == ""
  {
  }

  function First(c: char): string {
    if IsDigit(c) then [c] else ""
  }

  lemma DigitsCons(s: string)
    requires s != ""
    ensures Digits(s) == First(s[0]) + Digits(s[1..])
  {
  }

  lemma {:induction false} DigitsOnly(s: string)
    ensures forall c :: c in Digits(s) ==> IsDigit(c)
    ensures (forall c :: c in s ==> IsDigit(c)) ==> Digits(s) == s
  {
    if s != "" {
      DigitsOnly(s[1..]);
      assert s == [s[0]] + s[1..];
    }
  }

  lemma FormattedDigits(d: string)
    requires |d| == 12 && forall c :: c in d ==> IsDigit(c)
    ensures Digits(d[..6] + "-" + d[6..8] + "-" + d[8..]) == d
  {
    var a, b, c := d[..6], d[6..8], d[8..];
    DigitsOnly(a);
    DigitsOnly(b);
    DigitsOnly(c);
    DigitsConcat(a, "-");
    DigitsConcat(a + "-", b);
    DigitsConcat(a + "-" + b, "-");
    DigitsConcat(a + "-" + b + "-", c);
    assert a + b + c == d;
    hide Digits;
    assert Digits(a + "-" + b + "-" + c) == a + b + c;
  }

  lemma FormattedChars(d: string)
    requires |d| == 12 && forall c :: c in d ==> IsDigit(c)
    ensures var t := d[..6] + "-" + d[6..8] + "-" + d[8..];
      |t| == 14 && IsDigit(t[0]) && IsDigit(t[13]) && forall c :: c in t ==> !IsLetter(c)
  {
    var t := d[..6] + "-" + d[6..8] + "-" + d[8..];
    assert t[0] == d[0] && t[13] == d[11];
    assert forall c :: c in t ==> c in d || c == '-';
  }

  lemma RecordedText(t: string)
    requires |t| == 14 && IsDigit(t[0]) && IsDigit(t[13])
    ensures !IsNotRecorded(Text(t))
  {
    assert Strip(t) == t;
    assert Upper(t)[0] == t[0];
  }

  /** A reformatted IC has the digits of the value, is recorded, and reformats to itself. */
  lemma FormatIcKeepsDigits(v: Value, t: string)
    requires FormatIc(v) == Some(t)
    ensures |t| == 14 && Digits(t) == Digits(StrOrEmpty(v))
    ensures !IsNotRecorded(Text(t)) && FormatIc(Text(t)) == Some(t)
  {
    DigitsOnly(StrOrEmpty(v));
    var d := Digits(StrOrEmpty(v));
    hide IsNotRecorded, Digits;
    FormattedDigits(d);
    FormattedChars(d);
    RecordedText(t);
  }

  predicate Acceptable(v: Value) {
    IsNotRecorded(v) || FormatIc(v).Some?
  }

  /** What an IC field comes out as. */
  function Cleaned(v: Value): Value {
    if IsNotRecorded(v) || FormatIc(v).None? then v else Text(FormatIc(v).value)
  }

  lemma CleanedOnce(v: Value)
    ensures Cleaned(Cleaned(v)) == Cleaned(v) && (Acceptable(Cleaned(v)) <==> Acceptable(v))
  {
    hide IsNotRecorded, FormatIc;
    if !IsNotRecorded(v) && FormatIc(v).Some? {
      FormatIcKeepsDigits(v, FormatIc(v).value);
    }
  }

  // ---- one IC issue ----

  ghost predicate FieldsCleaned(st: State, r: State, fields: seq<string>) {
    && r.values.Keys == st.values.Keys
    && (forall f :: Get(r.values, f) == if f in fields then Cleaned(Get(st.values, f)) else Get(st.values, f))
    && (forall f :: f in r.originals <==>
          f in st.originals || (f in fields && Cleaned(Get(st.values, f)) != Get(st.values, f)))
    && (forall f :: f in r.originals ==> r.originals[f] == if f in st.originals then st.originals[f] else Get(st.values, f))
  }

  lemma FieldCleaned(st: State, field: string)
    ensures FormatField(st, field).Some? <==> Acceptable(Get(st.values, field))
    ensures FormatField(st, field).Some? ==> FieldsCleaned(st, FormatField(st, field).value, [field])
  {
  }

  lemma ThenOneMore(st: State, mid: State, r: State, fields: seq<string>, field: string)
    requires FieldsCleaned(st, mid, fields) && FieldsCleaned(mid, r, [field])
    ensures FieldsCleaned(st, r, fields + [field])
  {
    CleanedOnce(Get(st.values, field));
    hide Cleaned;
  }

  lemma {:induction false} FormatFieldsCleans(st: State, fields: seq<string>)
    ensures FormatFields(st, fields).Some? <==> forall f :: f in fields ==> Acceptable(Get(st.values, f))
    ensures FormatFields(st, fields).Some? ==> FieldsCleaned(st, FormatFields(st, fields).value, fields)
  {
    hide FieldsCleaned, Acceptable, Cleaned;
    if fields == [] {
      NothingCleaned(st);
    } else {
      var n := |fields| - 1;
      var rest, field := fields[..n], fields[n];
      assert fields == rest + [field];
      FormatFieldsCleans(st, rest);
      var mid := FormatFields(st, rest);
      if mid.Some? {
        FieldCleaned(mid.value, field);
        StillAcceptable(st, mid.value, rest, field);
        var r := FormatField(mid.value, field);
        if r.Some? {
          ThenOneMore(st, mid.value, r.value, rest, field);
        }
      }
    }
  }

  lemma NothingCleaned(st: State)
    ensures FieldsCleaned(st, st, [])
  {
  }

  lemma StillAcceptable(st: State, mid: State, fields: seq<string>, field: string)
    requires FieldsCleaned(st, mid, fields)
    ensures Acceptable(Get(mid.values, field)) <==> Acceptable(Get(st.values, field))
  {
    CleanedOnce(Get(st.values, field));
    hide Cleaned, Acceptable;
  }
}
