/** Pages of a bound ledger that inherit their classification from the pages around them. The pass
    rewrites the list it is scanning; it is proved equal to a definition on the original list. */
module NeighborFallback {
  import opened Wrappers
  import opened DocumentTypes
  import opened FileNames

  datatype Entry = Entry(path: string, classification: Classification)

  predicate GivenUp(c: Classification) {
    c.docType == "unknown" && c.status == NEEDS_MANUAL
  }

  /** The nearest ROUTABLE classification before position `i`. */
  function Left(s: seq<Entry>, i: nat): Option<Classification>
    requires i <= |s|
  {
    if i == 0 then None
    else if s[i - 1].classification.status == ROUTABLE then Some(s[i - 1].classification)
    else Left(s, i - 1)
  }

  /** The nearest ROUTABLE classification from position `i` on. */
  function Right(s: seq<Entry>, i: nat): Option<Classification>
    requires i <= |s|
    decreases |s| - i
  {
    if i == |s| then None
    else if s[i].classification.status == ROUTABLE then Some(s[i].classification)
    else Right(s, i + 1)
  }

  predicate Surrounded(s: seq<Entry>, i: nat)
    requires i < |s|
  {
    && GivenUp(s[i].classification)
    && Left(s, i).Some? && Right(s, i + 1).Some?
    && KeyOf(Left(s, i).value) == KeyOf(Right(s, i + 1).value)
  }

  /** What the page at `i` comes out as, looking only at the original list. */
  function Inherited(s: seq<Entry>, i: nat): Entry
    requires i < |s|
  {
    if Surrounded(s, i) then Entry(s[i].path, Left(s, i).value) else s[i]
  }

  ghost predicate IsPointwise(s: seq<Entry>, r: seq<Entry>) {
    |r| == |s| && forall k :: 0 <= k < |s| ==> r[k] == Inherited(s, k)
  }

  ghost predicate IsLastRoutable(s: seq<Entry>, i: nat, k: nat)
    requires k < i <= |s|
  {
    s[k].classification.status == ROUTABLE && forall m :: k < m < i ==> s[m].classification.status != ROUTABLE
  }

  ghost predicate IsFirstRoutable(s: seq<Entry>, i: nat, k: nat)
    requires i <= k < |s|
  {
    s[k].classification.status == ROUTABLE && forall m :: i <= m < k ==> s[m].classification.status != ROUTABLE
  }

  /** `Left` is the last ROUTABLE entry before `i`, with none after it. */
  lemma {:induction false} LeftIsNearest(s: seq<Entry>, i: nat)
    requires i <= |s|
    ensures Left(s, i).None? <==> forall k :: 0 <= k < i ==> s[k].classification.status != ROUTABLE
    ensures Left(s, i).Some? ==> exists k :: 0 <= k < i && s[k].classification == Left(s, i).value && IsLastRoutable(s, i, k)
  {
    if i > 0 {
      if s[i - 1].classification.status == ROUTABLE {
        assert IsLastRoutable(s, i, i - 1);
      } else {
        LeftIsNearest(s, i - 1);
        if Left(s, i).Some? {
          var k :| 0 <= k < i - 1 && s[k].classification == Left(s, i).value && IsLastRoutable(s, i - 1, k);
          assert IsLastRoutable(s, i, k);
        }
      }
    }
  }

  lemma {:induction false} RightIsNearest(s: seq<Entry>, i: nat)
    requires i <= |s|
    ensures Right(s, i).None? <==> forall k :: i <= k < |s| ==> s[k].classification.status != ROUTABLE
    ensures Right(s, i).Some? ==>
      exists k :: i <= k < |s| && s[k].classification == Right(s, i).value && IsFirstRoutable(s, i, k)
    decreases |s| - i
  {
    if i < |s| {
      if s[i].classification.status == ROUTABLE {
        assert IsFirstRoutable(s, i, i);
      } else {
        RightIsNearest(s, i + 1);
        if Right(s, i).Some? {
          var k :| i < k < |s| && s[k].classification == Right(s, i).value && IsFirstRoutable(s, i + 1, k);
          assert IsFirstRoutable(s, i, k);
        }
      }
    }
  }

  lemma {:induction false} LeftRoutable(s: seq<Entry>, i: nat)
    requires i <= |s| && Left(s, i).Some?
    ensures Left(s, i).value.status == ROUTABLE
  {
    if s[i - 1].classification.status != ROUTABLE {
      LeftRoutable(s, i - 1);
    }
  }

  /** A page that has inherited passes on what it inherited: looking left, the rewritten prefix
      shows the same classification as the original one. */
  lemma {:induction false} LeftUnmoved(s: seq<Entry>, r: seq<Entry>, i: nat)
    requires i <= |s| == |r| && forall k :: 0 <= k < i ==> r[k] == Inherited(s, k)
    ensures Left(r, i) == Left(s, i)
  {
    if i > 0 {
      LeftUnmoved(s, r, i - 1);
      if Surrounded(s, i - 1) {
        LeftRoutable(s, i - 1);
      }
    }
  }

  lemma {:induction false} SameRight(s: seq<Entry>, r: seq<Entry>, i: nat)
    requires i <= |s| == |r| && r[i..] == s[i..]
    ensures Right(r, i) == Right(s, i)
    decreases |s| - i
  {
    if i < |s| {
      assert r[i..][0] == s[i..][0] && r[i + 1..] == r[i..][1..] && s[i + 1..] == s[i..][1..];
      SameRight(s, r, i + 1);
    }
  }

  method ApplyNeighborFallback(classified: seq<Entry>) returns (result: seq<Entry>)
    ensures IsPointwise(classified, result)
  {
    result := classified;
    for i := 0 to |classified|
      invariant |result| == |classified| && result[i..] == classified[i..]
      invariant forall k :: 0 <= k < i ==> result[k] == Inherited(classified, k)
    {
      var c := result[i].classification;
      assert result[i] == result[i..][0] == classified[i];
      assert result[i + 1..] == result[i..][1..] == classified[i + 1..];
      LeftUnmoved(classified, result, i);
      SameRight(classified, result, i + 1);
      if c.docType != "unknown" || c.status != NEEDS_MANUAL {
        continue;
      }
      var before, after := Left(result, i), Right(result, i + 1);
      if before.None? || after.None? {
        continue;
      }
      if KeyOf(before.value) != KeyOf(after.value) {
        continue;
      }
      LeftRoutable(result, i);
      result := result[i := Entry(result[i].path,
        Classification(before.value.docType, before.value.recordType, before.value.layoutVariant, ROUTABLE,
                       before.value.configPath))];
    }
  }

  // ---- what the pass leaves ----

  lemma {:induction false} RightKeyUnmoved(s: seq<Entry>, r: seq<Entry>, i: nat)
    requires i <= |s| && IsPointwise(s, r)
    ensures Right(r, i).Some? == Right(s, i).Some?
    ensures Right(r, i).Some? ==> KeyOf(Right(r, i).value) == KeyOf(Right(s, i).value)
    decreases |s| - i
  {
    if i < |s| {
      RightKeyUnmoved(s, r, i + 1);
      if Surrounded(s, i) {
        LeftRoutable(s, i);
      }
    }
  }

  /** A second pass over the result changes nothing: no page is left that could still inherit. */
  lemma Idempotent(s: seq<Entry>, r: seq<Entry>)
    requires IsPointwise(s, r)
    ensures forall i :: 0 <= i < |r| ==> !Surrounded(r, i)
    ensures IsPointwise(r, r)
  {
    forall i | 0 <= i < |r| ensures !Surrounded(r, i) {
      LeftUnmoved(s, r, i);
      RightKeyUnmoved(s, r, i + 1);
      if Surrounded(s, i) {
        LeftRoutable(s, i);
      }
    }
  }

  /** Paths stay; only a page the classifier gave up on can change, and then it is ROUTABLE with a
      classification that some other page of the list had. */
  lemma OnlyGivenUpPagesChange(s: seq<Entry>, r: seq<Entry>, i: nat)
    requires IsPointwise(s, r) && i < |s|
    ensures r[i].path == s[i].path
    ensures r[i] != s[i] ==> GivenUp(s[i].classification) && r[i].classification.status == ROUTABLE
    ensures r[i] != s[i] ==> exists k :: 0 <= k < i && s[k].classification == r[i].classification
  {
    LeftIsNearest(s, i);
    if Surrounded(s, i) {
      LeftRoutable(s, i);
    }
  }

  /** The pass told without its own notions: page `i` takes the classification of page `b` exactly when the
      classifier gave up on it, `b` and `a` are the nearest ROUTABLE pages on either side, and the three
      columns that name a book are the same on both. */
  ghost predicate Between(s: seq<Entry>, i: nat, b: nat, a: nat)
    requires i < |s|
  {
    && b < i < a < |s|
    && s[b].classification.status == "ROUTABLE" && s[a].classification.status == "ROUTABLE"
    && (forall k :: b < k < i ==> s[k].classification.status != "ROUTABLE")
    && (forall k :: i < k < a ==> s[k].classification.status != "ROUTABLE")
  }

  predicate SameBook(c: Classification, d: Classification) {
    c.docType == d.docType && c.recordType == d.recordType && c.layoutVariant == d.layoutVariant
  }

  predicate Unknown(c: Classification) {
    c.docType == "unknown" && c.status == "NEEDS_MANUAL_CLASSIFICATION"
  }

  lemma PageInWords(s: seq<Entry>, r: seq<Entry>, i: nat)
    requires IsPointwise(s, r) && i < |s|
    ensures !Unknown(s[i].classification) ==> r[i] == s[i]
    ensures Unknown(s[i].classification) ==>
      if exists b: nat, a: nat :: Between(s, i, b, a) && SameBook(s[b].classification, s[a].classification)
      then exists b: nat, a: nat :: Between(s, i, b, a) && r[i] == Entry(s[i].path, s[b].classification)
      else r[i] == s[i]
  {
    LeftIsNearest(s, i);
    RightIsNearest(s, i + 1);
    if Unknown(s[i].classification) {
      if Left(s, i).Some? && Right(s, i + 1).Some? {
        var b :| 0 <= b < i && s[b].classification == Left(s, i).value && IsLastRoutable(s, i, b);
        var a :| i + 1 <= a < |s| && s[a].classification == Right(s, i + 1).value && IsFirstRoutable(s, i + 1, a);
        assert Between(s, i, b, a);
        forall b': nat, a': nat | Between(s, i, b', a') ensures b' == b && a' == a {
        }
      }
    }
  }

  // ---- Nikah batches ----

  predicate Contains(s: string, word: string) {
    word <= s || (s != "" && Contains(s[1..], word))
  }

  predicate NikahBatch(batchName: string) {
    Contains(Lower(batchName), "nikah")
  }

  const HANDWRITTEN_NIKAH: Classification :=
    Classification("handwritten", Some("nikah"), Some("legacy"), ROUTABLE, None)

  method ApplyNikahBatchFallback(classified: seq<Entry>, batchName: string) returns (result: seq<Entry>)
    ensures |result| == |classified|
    ensures forall k :: 0 <= k < |result| ==>
      result[k] == if NikahBatch(batchName) && GivenUp(classified[k].classification)
                   then Entry(classified[k].path, HANDWRITTEN_NIKAH) else classified[k]
  {
    if !NikahBatch(batchName) {
      return classified;
    }
    result := classified;
    for i := 0 to |classified|
      invariant |result| == |classified|
      invariant forall k :: i <= k < |result| ==> result[k] == classified[k]
      invariant forall k :: 0 <= k < i ==>
        result[k] == if GivenUp(classified[k].classification)
                     then Entry(classified[k].path, HANDWRITTEN_NIKAH) else classified[k]
    {
      var c := result[i].classification;
      if c.docType != "unknown" || c.status != NEEDS_MANUAL {
        continue;
      }
      result := result[i := Entry(result[i].path,
                                  Classification("handwritten", Some("nikah"), Some("legacy"), ROUTABLE, None))];
    }
  }

  /** How each page is routed once both passes are through, from the classifier's answers alone. */
  function RoutedAs(s: seq<Entry>, i: nat, batchName: string): Routed
    requires i < |s|
  {
    if !GivenUp(s[i].classification) then Route(s[i].classification)
    else if Surrounded(s, i) then Route(Left(s, i).value)
    else if NikahBatch(batchName) then As(HandwrittenRegister)
    else Skip(NEEDS_MANUAL)
  }

  ghost predicate NikahAt(batchName: string, k: nat) {
    k + 5 <= |batchName| && ReadsLower(batchName[k..k + 5], "nikah")
  }

  lemma {:induction false} ContainsAt(s: string, word: string) returns (k: nat)
    requires Contains(s, word)
    ensures k + |word| <= |s| && s[k..k + |word|] == word
  {
    if word <= s {
      k := 0;
    } else {
      k := ContainsAt(s[1..], word);
      assert s[k + 1..k + 1 + |word|] == s[1..][k..k + |word|];
      k := k + 1;
    }
  }

  lemma {:induction false} AtContains(s: string, word: string, k: nat)
    requires k + |word| <= |s| && s[k..k + |word|] == word
    ensures Contains(s, word)
  {
    if k == 0 {
      assert s[0..|word|] == word;
    } else if s != "" {
      assert s[1..][k - 1..k - 1 + |word|] == s[k..k + |word|];
      AtContains(s[1..], word, k - 1);
    }
  }

  /** A Nikah batch has "nikah" somewhere in its name, in any case. */
  lemma NikahInWords(batchName: string)
    ensures NikahBatch(batchName) <==> exists k: nat :: NikahAt(batchName, k)
  {
    forall k: nat | k + 5 <= |batchName|
      ensures NikahAt(batchName, k) <==> Lower(batchName)[k..k + 5] == "nikah"
    {
      LowerReads(batchName[k..k + 5], "nikah");
      assert Lower(batchName)[k..k + 5] == Lower(batchName[k..k + 5]);
    }
    hide Lower, Contains, ReadsLower;
    if NikahBatch(batchName) {
      var k := ContainsAt(Lower(batchName), "nikah");
      assert NikahAt(batchName, k);
    }
    if k: nat :| NikahAt(batchName, k) {
      AtContains(Lower(batchName), "nikah", k);
    }
  }

  /** How a page is routed, in words. */
  lemma RoutedInWords(s: seq<Entry>, i: nat, batchName: string)
    requires i < |s|
    ensures !Unknown(s[i].classification) ==> RoutedAs(s, i, batchName) == Route(s[i].classification)
    ensures Unknown(s[i].classification) ==>
      if exists b: nat, a: nat :: Between(s, i, b, a) && SameBook(s[b].classification, s[a].classification)
      then exists b: nat, a: nat :: Between(s, i, b, a) && RoutedAs(s, i, batchName) == Route(s[b].classification)
      else RoutedAs(s, i, batchName)
           == if exists k: nat :: NikahAt(batchName, k) then As(HandwrittenRegister) else Skip("NEEDS_MANUAL_CLASSIFICATION")
  {
    hide NikahAt, NikahBatch, Route, Between;
    var r := seq(|s|, k requires 0 <= k < |s| => Inherited(s, k));
    PageInWords(s, r, i);
    NikahInWords(batchName);
    if Unknown(s[i].classification) {
      SurroundedInWords(s, i);
    }
  }

  lemma SurroundedInWords(s: seq<Entry>, i: nat)
    requires i < |s| && Unknown(s[i].classification)
    ensures Surrounded(s, i) <==>
            exists b: nat, a: nat :: Between(s, i, b, a) && SameBook(s[b].classification, s[a].classification)
    ensures Surrounded(s, i) ==> exists b: nat, a: nat :: Between(s, i, b, a) && Left(s, i) == Some(s[b].classification)
  {
    LeftIsNearest(s, i);
    RightIsNearest(s, i + 1);
    if Left(s, i).Some? && Right(s, i + 1).Some? {
      var b :| 0 <= b < i && s[b].classification == Left(s, i).value && IsLastRoutable(s, i, b);
      var a :| i + 1 <= a < |s| && s[a].classification == Right(s, i + 1).value && IsFirstRoutable(s, i + 1, a);
      assert Between(s, i, b, a);
      forall b': nat, a': nat | Between(s, i, b', a') ensures b' == b && a' == a {
      }
    }
  }

  /** Both passes, as a run applies them. */
  method RouteAll(classified: seq<Entry>, batchName: string) returns (result: seq<Entry>)
    ensures |result| == |classified|
    ensures forall i :: 0 <= i < |result| ==>
      result[i].path == classified[i].path && Route(result[i].classification) == RoutedAs(classified, i, batchName)
    ensures forall i :: 0 <= i < |result| && classified[i].classification.status == SKIPPED_JAWI ==>
      Route(result[i].classification) == Skip(SKIPPED_JAWI)
    ensures NikahBatch(batchName) ==> forall i :: 0 <= i < |result| ==> !GivenUp(result[i].classification)
  {
    var inherited := ApplyNeighborFallback(classified);
    result := ApplyNikahBatchFallback(inherited, batchName);
    forall i | 0 <= i < |result| ensures Route(result[i].classification) == RoutedAs(classified, i, batchName) {
      if Surrounded(classified, i) {
        LeftRoutable(classified, i);
      }
    }
  }
}
