/** What the resolver's answer depends on. It edits the values while it is going through the issues,
    yet each step can be told from the values it started with. */
module ResolverOrder {
  import opened Wrappers
  import opened NotRecorded
  import opened IcFormat

  // ---- the whole fold, from the original values ----

  function RmCount(issues: seq<string>): nat {
    if issues == [] then 0
    else RmCount(issues[..|issues| - 1]) + if KindOf(issues[|issues| - 1]).NeedsRmPrefix? then 1 else 0
  }

  /** The Mas Kahwin after `k` normalizations. */
  function Normalized(normalizer: Normalizer, values: Values, k: nat): Value {
    if k == 0 then Get(values, MAS_KAHWIN)
    else
      match Amount(normalizer, Normalized(normalizer, values, k - 1))
      case None => Nil
      case Some(amount) => Text(amount)
  }

  predicate Covers(kind: Kind, field: string) {
    kind.NeedsIcs? && field in kind.fields
  }

  predicate CoveredByIc(issues: seq<string>, field: string) {
    exists issue | issue in issues :: Covers(KindOf(issue), field)
  }

  /** What a field comes out as. */
  function Final(normalizer: Normalizer, values: Values, issues: seq<string>, field: string): Value {
    if field == MAS_KAHWIN then Normalized(normalizer, values, RmCount(issues))
    else if CoveredByIc(issues, field) then Cleaned(Get(values, field))
    else Get(values, field)
  }

  /** An issue of this kind is explained by the values, with the Mas Kahwin as it is after `k`
      normalizations. */
  predicate Explained(normalizer: Normalizer, values: Values, k: nat, kind: Kind) {
    match kind
    case NeedsRmPrefix => Amount(normalizer, Normalized(normalizer, values, k)).Some?
    case NeedsIcs(fields) => forall f | f in fields :: Acceptable(Get(values, f))
    case ExplainedBy(field) =>
      IsNotRecorded(if field == MAS_KAHWIN then Normalized(normalizer, values, k) else Get(values, field))
    case Unexplained => false
  }

  predicate Changes(normalizer: Normalizer, values: Values, issues: seq<string>, field: string) {
    if field == MAS_KAHWIN then RmCount(issues) > 0
    else Final(normalizer, values, issues, field) != Get(values, field)
  }

  /** One field of the state after `done`, told from the original values. */
  ghost predicate FieldReached(normalizer: Normalizer, values: Values, done: seq<string>, st: State, f: string) {
    && Get(st.values, f) == Final(normalizer, values, done, f)
    && (f in st.originals <==> Changes(normalizer, values, done, f))
    && (f in st.originals ==> st.originals[f] == Get(values, f))
  }

  ghost predicate Reached(normalizer: Normalizer, values: Values, done: seq<string>, st: State) {
    && st.values.Keys == values.Keys + (if RmCount(done) > 0 then {MAS_KAHWIN} else {})
    && forall f: string :: FieldReached(normalizer, values, done, st, f)
  }

  lemma KindShape(issue: string)
    ensures KindOf(issue).NeedsRmPrefix? <==> issue == RM_PREFIX_ISSUE
    ensures KindOf(issue) == ExplainedBy(MAS_KAHWIN) <==> issue == MISSING_MAS_KAHWIN
    ensures forall f :: Covers(KindOf(issue), f) ==> f in IC_FIELDS && f != MAS_KAHWIN
    ensures KindOf(issue).ExplainedBy? ==> KindOf(issue).field !in IC_FIELDS
  {
  }

  lemma OneMoreCovers(done: seq<string>, issue: string, field: string)
    ensures CoveredByIc(done + [issue], field) <==> CoveredByIc(done, field) || Covers(KindOf(issue), field)
  {
    hide KindOf, Covers;
    assert forall i :: i in done + [issue] <==> i in done || i == issue;
  }

  lemma CoveredFields(done: seq<string>, field: string)
    ensures CoveredByIc(done, field) ==> field in IC_FIELDS && field != MAS_KAHWIN
  {
    hide KindOf, Covers;
    forall issue | issue in done && Covers(KindOf(issue), field) ensures field in IC_FIELDS && field != MAS_KAHWIN {
      KindShape(issue);
    }
  }

  lemma OneMoreRm(done: seq<string>, issue: string)
    ensures RmCount(done + [issue]) == RmCount(done) + if KindOf(issue).NeedsRmPrefix? then 1 else 0
  {
    hide KindOf;
    assert (done + [issue])[..|done|] == done;
  }

  lemma RmField(normalizer: Normalizer, values: Values, done: seq<string>, st: State, issue: string, amount: string,
                f: string)
    requires FieldReached(normalizer, values, done, st, f) && FieldReached(normalizer, values, done, st, MAS_KAHWIN)
    requires KindOf(issue) == NeedsRmPrefix && Amount(normalizer, Get(st.values, MAS_KAHWIN)) == Some(amount)
    ensures FieldReached(normalizer, values, done + [issue], Replace(st, MAS_KAHWIN, amount), f)
  {
    hide Amount, Cleaned, CoveredByIc, RmCount, KindOf;
    OneMoreRm(done, issue);
    OneMoreCovers(done, issue, f);
  }

  lemma RmStep(normalizer: Normalizer, values: Values, done: seq<string>, st: State, issue: string)
    requires Reached(normalizer, values, done, st) && KindOf(issue) == NeedsRmPrefix
    ensures ResolveIssue(normalizer, st, NeedsRmPrefix).Some?
            <==> Explained(normalizer, values, RmCount(done), NeedsRmPrefix)
    ensures ResolveIssue(normalizer, st, NeedsRmPrefix).Some? ==>
              Reached(normalizer, values, done + [issue], ResolveIssue(normalizer, st, NeedsRmPrefix).value)
  {
    hide Amount, Cleaned, CoveredByIc, RmCount, Changes, KindOf;
    assert FieldReached(normalizer, values, done, st, MAS_KAHWIN);
    OneMoreRm(done, issue);
    var amount := Amount(normalizer, Get(st.values, MAS_KAHWIN));
    if amount.Some? {
      hide FieldReached;
      forall f: string
        ensures FieldReached(normalizer, values, done + [issue], Replace(st, MAS_KAHWIN, amount.value), f)
      {
        RmField(normalizer, values, done, st, issue, amount.value, f);
      }
    }
  }

  lemma IcField(normalizer: Normalizer, values: Values, done: seq<string>, st: State, r: State, issue: string, f: string)
    requires FieldReached(normalizer, values, done, st, f) && KindOf(issue).NeedsIcs?
    requires FieldsCleaned(st, r, KindOf(issue).fields)
    ensures FieldReached(normalizer, values, done + [issue], r, f)
  {
    hide IsNotRecorded, FormatIc, Cleaned, Acceptable, CoveredByIc, RmCount, Normalized, KindOf;
    KindShape(issue);
    OneMoreRm(done, issue);
    OneMoreCovers(done, issue, f);
    CleanedOnce(Get(values, f));
    assert f in KindOf(issue).fields <==> Covers(KindOf(issue), f);
  }

  lemma SameAcceptable(normalizer: Normalizer, values: Values, done: seq<string>, st: State, f: string)
    requires FieldReached(normalizer, values, done, st, f) && f != MAS_KAHWIN
    ensures Acceptable(Get(st.values, f)) <==> Acceptable(Get(values, f))
  {
    hide Acceptable, Cleaned, CoveredByIc;
    CleanedOnce(Get(values, f));
  }

  lemma IcStep(normalizer: Normalizer, values: Values, done: seq<string>, st: State, issue: string)
    requires Reached(normalizer, values, done, st) && KindOf(issue).NeedsIcs?
    ensures ResolveIssue(normalizer, st, KindOf(issue)).Some? <==> Explained(normalizer, values, RmCount(done), KindOf(issue))
    ensures ResolveIssue(normalizer, st, KindOf(issue)).Some? ==>
              Reached(normalizer, values, done + [issue], ResolveIssue(normalizer, st, KindOf(issue)).value)
  {
    hide Acceptable, RmCount, FormatFields, FieldReached, FieldsCleaned, KindOf;
    var fields := KindOf(issue).fields;
    KindShape(issue);
    OneMoreRm(done, issue);
    FormatFieldsCleans(st, fields);
    forall f | f in fields ensures Acceptable(Get(st.values, f)) <==> Acceptable(Get(values, f)) {
      assert Covers(KindOf(issue), f);
      SameAcceptable(normalizer, values, done, st, f);
    }
    var r := FormatFields(st, fields);
    if r.Some? {
      KeysKept(st, r.value, fields);
      forall f: string ensures FieldReached(normalizer, values, done + [issue], r.value, f) {
        IcField(normalizer, values, done, st, r.value, issue, f);
      }
    }
  }

  lemma KeysKept(st: State, r: State, fields: seq<string>)
    requires FieldsCleaned(st, r, fields)
    ensures r.values.Keys == st.values.Keys
  {
  }

  lemma ExplainedStep(normalizer: Normalizer, values: Values, done: seq<string>, st: State, issue: string)
    requires Reached(normalizer, values, done, st) && KindOf(issue).ExplainedBy?
    ensures ResolveIssue(normalizer, st, KindOf(issue)).Some? <==> Explained(normalizer, values, RmCount(done), KindOf(issue))
    ensures Reached(normalizer, values, done + [issue], st)
  {
    hide IsNotRecorded, Cleaned, RmCount, Normalized, KindOf, CoveredByIc;
    KindShape(issue);
    OneMoreRm(done, issue);
    var field := KindOf(issue).field;
    CoveredFields(done, field);
    assert FieldReached(normalizer, values, done, st, field);
    forall f: string ensures FieldReached(normalizer, values, done + [issue], st, f) {
      OneMoreCovers(done, issue, f);
      assert FieldReached(normalizer, values, done, st, f);
    }
  }

  /** Each issue is explained by the original values, the Mas Kahwin as the earlier issues have normalized it. */
  ghost predicate ExplainedInTurn(normalizer: Normalizer, values: Values, issues: seq<string>) {
    forall i :: 0 <= i < |issues| ==> Explained(normalizer, values, RmCount(issues[..i]), KindOf(issues[i]))
  }

  lemma OneMoreInTurn(normalizer: Normalizer, values: Values, done: seq<string>, issue: string)
    ensures ExplainedInTurn(normalizer, values, done + [issue])
            <==> ExplainedInTurn(normalizer, values, done) && Explained(normalizer, values, RmCount(done), KindOf(issue))
  {
    hide Explained, RmCount, KindOf;
    var issues := done + [issue];
    assert issues[..|done|] == done;
    assert forall i :: 0 <= i < |done| ==> issues[..i] == done[..i] && issues[i] == done[i];
    if ExplainedInTurn(normalizer, values, issues) {
      forall i | 0 <= i < |done| ensures Explained(normalizer, values, RmCount(done[..i]), KindOf(done[i])) {
        assert Explained(normalizer, values, RmCount(issues[..i]), KindOf(issues[i]));
      }
      assert Explained(normalizer, values, RmCount(issues[..|done|]), KindOf(issues[|done|]));
    }
  }

  /** The exact condition, for every list of issues: the fold goes through when each issue is explained
      by the original values, the Mas Kahwin taken as the earlier issues have normalized it; and then
      every field, and every value kept for undoing, is told from the original values. */
  lemma {:induction false} ResolvesIff(normalizer: Normalizer, values: Values, issues: seq<string>)
    ensures ResolveIssues(normalizer, values, issues).Some? <==> ExplainedInTurn(normalizer, values, issues)
    ensures ResolveIssues(normalizer, values, issues).Some? ==>
              Reached(normalizer, values, issues, ResolveIssues(normalizer, values, issues).value)
  {
    hide Explained, ResolveIssue, Reached, RmCount, KindOf;
    if issues == [] {
      NothingDone(normalizer, values);
    } else {
      var n := |issues| - 1;
      var done, issue := issues[..n], issues[n];
      assert issues == done + [issue];
      ResolvesIff(normalizer, values, done);
      OneMoreInTurn(normalizer, values, done, issue);
      hide ExplainedInTurn;
      var st := ResolveIssues(normalizer, values, done);
      if st.Some? {
        StepReached(normalizer, values, done, st.value, issue);
      }
    }
  }

  lemma StepReached(normalizer: Normalizer, values: Values, done: seq<string>, st: State, issue: string)
    requires Reached(normalizer, values, done, st)
    ensures ResolveIssue(normalizer, st, KindOf(issue)).Some? <==> Explained(normalizer, values, RmCount(done), KindOf(issue))
    ensures ResolveIssue(normalizer, st, KindOf(issue)).Some? ==>
              Reached(normalizer, values, done + [issue], ResolveIssue(normalizer, st, KindOf(issue)).value)
  {
    hide Reached, RmCount, KindOf, Amount, FormatFields, IsNotRecorded, Acceptable, Normalized;
    match KindOf(issue)
    case NeedsRmPrefix => RmStep(normalizer, values, done, st, issue);
    case NeedsIcs(_) => IcStep(normalizer, values, done, st, issue);
    case ExplainedBy(_) => ExplainedStep(normalizer, values, done, st, issue);
    case Unexplained =>
  }

  lemma NothingDone(normalizer: Normalizer, values: Values)
    ensures Reached(normalizer, values, [], State(values, map[]))
  {
  }

  // ---- order ----

  lemma {:induction false} RmCountIsMultiplicity(issues: seq<string>)
    ensures RmCount(issues) == multiset(issues)[RM_PREFIX_ISSUE]
  {
    hide KindOf;
    if issues != [] {
      RmCountIsMultiplicity(issues[..|issues| - 1]);
      KindShape(issues[|issues| - 1]);
      assert issues == issues[..|issues| - 1] + [issues[|issues| - 1]];
    }
  }

  predicate Conflicting(issues: seq<string>) {
    RM_PREFIX_ISSUE in issues && MISSING_MAS_KAHWIN in issues
  }

  ghost predicate AmountsExplained(normalizer: Normalizer, values: Values, n: nat) {
    forall j :: 0 <= j < n ==> Explained(normalizer, values, j, NeedsRmPrefix)
  }

  ghost predicate OthersExplained(normalizer: Normalizer, values: Values, issues: seq<string>) {
    forall issue :: issue in issues && !KindOf(issue).NeedsRmPrefix? ==> Explained(normalizer, values, 0, KindOf(issue))
  }

  /** Each issue explained by the original values, and the Mas Kahwin as often as it is asked for. */
  ghost predicate AllExplained(normalizer: Normalizer, values: Values, issues: seq<string>) {
    AmountsExplained(normalizer, values, RmCount(issues)) && OthersExplained(normalizer, values, issues)
  }

  lemma TurnDoesNotMatter(normalizer: Normalizer, values: Values, k: nat, kind: Kind)
    requires kind != NeedsRmPrefix && (kind == ExplainedBy(MAS_KAHWIN) ==> k == 0)
    ensures Explained(normalizer, values, k, kind) <==> Explained(normalizer, values, 0, kind)
  {
    hide Acceptable, IsNotRecorded, Normalized;
  }

  lemma {:induction false} TurnsDoNotMatter(normalizer: Normalizer, values: Values, issues: seq<string>)
    requires !Conflicting(issues)
    ensures ExplainedInTurn(normalizer, values, issues) <==> AllExplained(normalizer, values, issues)
  {
    hide Explained, KindOf;
    if issues != [] {
      var n := |issues| - 1;
      var done, issue := issues[..n], issues[n];
      assert issues == done + [issue];
      TurnsDoNotMatter(normalizer, values, done);
      hide ExplainedInTurn, AllExplained;
      OneMoreInTurn(normalizer, values, done, issue);
      OneMoreExplained(normalizer, values, done, issue);
    }
  }

  lemma OneMoreExplained(normalizer: Normalizer, values: Values, done: seq<string>, issue: string)
    requires !Conflicting(done + [issue])
    ensures AllExplained(normalizer, values, done + [issue])
            <==> AllExplained(normalizer, values, done) && Explained(normalizer, values, RmCount(done), KindOf(issue))
  {
    hide Explained, KindOf, RmCount, OthersExplained, Conflicting;
    OneMoreRm(done, issue);
    OneMoreOther(normalizer, values, done, issue);
    if KindOf(issue) != NeedsRmPrefix {
      NoRmYet(done, issue);
      TurnDoesNotMatter(normalizer, values, RmCount(done), KindOf(issue));
    }
  }

  lemma NoRmYet(done: seq<string>, issue: string)
    requires !Conflicting(done + [issue])
    ensures KindOf(issue) == ExplainedBy(MAS_KAHWIN) ==> RmCount(done) == 0
  {
    hide KindOf, RmCount;
    KindShape(issue);
    RmCountIsMultiplicity(done);
    assert forall x :: x in done + [issue] <==> x in done || x == issue;
    assert RM_PREFIX_ISSUE in done <==> RM_PREFIX_ISSUE in multiset(done);
  }

  lemma OneMoreOther(normalizer: Normalizer, values: Values, done: seq<string>, issue: string)
    ensures OthersExplained(normalizer, values, done + [issue])
            <==> OthersExplained(normalizer, values, done)
                 && (!KindOf(issue).NeedsRmPrefix? ==> Explained(normalizer, values, 0, KindOf(issue)))
  {
    hide Explained, KindOf;
    assert forall x :: x in done + [issue] <==> x in done || x == issue;
  }

  lemma SameContents(a: seq<string>, b: seq<string>)
    requires multiset(a) == multiset(b)
    ensures forall x :: x in a <==> x in b
  {
    forall x: string ensures x in a <==> x in b {
      assert x in a <==> x in multiset(a);
      assert x in b <==> x in multiset(b);
    }
  }

  lemma SameCovered(a: seq<string>, b: seq<string>, f: string)
    requires forall x :: x in a <==> x in b
    ensures CoveredByIc(a, f) <==> CoveredByIc(b, f)
  {
    hide KindOf, Covers;
  }

  lemma SameReached(normalizer: Normalizer, values: Values, a: seq<string>, b: seq<string>, st: State, st': State)
    requires multiset(a) == multiset(b)
    requires Reached(normalizer, values, a, st) && Reached(normalizer, values, b, st')
    ensures st == st'
  {
    hide RmCount, CoveredByIc, Cleaned, Normalized, KindOf;
    RmCountIsMultiplicity(a);
    RmCountIsMultiplicity(b);
    SameContents(a, b);
    forall f: string
      ensures Get(st.values, f) == Get(st'.values, f)
      ensures f in st.originals <==> f in st'.originals
      ensures f in st.originals ==> st.originals[f] == st'.originals[f]
    {
      SameCovered(a, b, f);
      assert FieldReached(normalizer, values, a, st, f) && FieldReached(normalizer, values, b, st', f);
    }
    forall f | f in st.values ensures st.values[f] == st'.values[f] {
      assert Get(st.values, f) == Get(st'.values, f);
    }
    assert st.values == st'.values;
    assert st.originals == st'.originals;
  }

  /** Order-independence: unless both a missing Mas Kahwin and its RM prefix are at issue, every
      permutation of the issues is resolved to the same values, keeping the same original values; and
      it is resolved exactly when the original values explain every issue. */
  lemma OrderDoesNotMatter(normalizer: Normalizer, values: Values, issues: seq<string>, permuted: seq<string>)
    requires multiset(issues) == multiset(permuted) && !Conflicting(issues)
    ensures ResolveIssues(normalizer, values, permuted) == ResolveIssues(normalizer, values, issues)
    ensures ResolveIssues(normalizer, values, issues).Some? <==> AllExplained(normalizer, values, issues)
  {
    hide Reached, Explained, RmCount, ResolveIssues, KindOf, ExplainedInTurn;
    SameContents(issues, permuted);
    RmCountIsMultiplicity(issues);
    RmCountIsMultiplicity(permuted);
    TurnsDoNotMatter(normalizer, values, issues);
    TurnsDoNotMatter(normalizer, values, permuted);
    ResolvesIff(normalizer, values, issues);
    ResolvesIff(normalizer, values, permuted);
    var st, st' := ResolveIssues(normalizer, values, issues), ResolveIssues(normalizer, values, permuted);
    if st.Some? {
      SameReached(normalizer, values, issues, permuted, st.value, st'.value);
    }
  }

  /** With at most one RM-prefix issue: resolved exactly when each issue is explained as it stands. */
  lemma ResolvedWhenExplained(normalizer: Normalizer, values: Values, issues: seq<string>)
    requires !Conflicting(issues) && multiset(issues)[RM_PREFIX_ISSUE] <= 1
    ensures ResolveIssues(normalizer, values, issues).Some?
            <==> forall issue :: issue in issues ==> Explained(normalizer, values, 0, KindOf(issue))
  {
    hide Explained, RmCount, KindOf, ResolveIssues;
    OrderDoesNotMatter(normalizer, values, issues, issues);
    RmCountIsMultiplicity(issues);
    forall issue: string ensures KindOf(issue).NeedsRmPrefix? <==> issue == RM_PREFIX_ISSUE {
      KindShape(issue);
    }
    assert RM_PREFIX_ISSUE in issues <==> RM_PREFIX_ISSUE in multiset(issues);
  }

  /** The whole resolver: the same answer for every permutation, but for the order the audit lists. */
  lemma ResolverOrderDoesNotMatter(normalizer: Normalizer, values: Values, issues: seq<string>, permuted: seq<string>,
                                   normalized: map<string, Datum>)
    requires multiset(issues) == multiset(permuted) && !Conflicting(issues)
    ensures var r, r' := Resolved(normalizer, values, issues, normalized), Resolved(normalizer, values, permuted, normalized);
      && r.Some? == r'.Some?
      && (r.Some? ==> r.value.values == r'.value.values
                      && r.value.normalized == r'.value.normalized[AUDIT_ISSUES := Issues(issues)])
  {
    hide ResolveIssues, KeptAsIs, AllExplained, Conflicting;
    OrderDoesNotMatter(normalizer, values, issues, permuted);
    assert |issues| == |multiset(issues)| == |multiset(permuted)| == |permuted|;
    SameKept(values, issues, permuted);
  }

  lemma SameKept(values: Values, issues: seq<string>, permuted: seq<string>)
    requires multiset(issues) == multiset(permuted)
    ensures KeptAsIs(values, issues) <==> KeptAsIs(values, permuted)
  {
    hide IsPointerToOtherBook, IsBlankEntry;
    SameContents(issues, permuted);
  }

  /** With both at issue the order decides: one order asks whether the amount as read is unrecorded,
      the other whether the normalized amount is, so they agree exactly when these do. */
  lemma TwoOrders(normalizer: Normalizer, values: Values, amount: string)
    requires Amount(normalizer, Get(values, MAS_KAHWIN)) == Some(amount)
    ensures ResolveIssues(normalizer, values, [MISSING_MAS_KAHWIN, RM_PREFIX_ISSUE]).Some?
            <==> IsNotRecorded(Get(values, MAS_KAHWIN))
    ensures ResolveIssues(normalizer, values, [RM_PREFIX_ISSUE, MISSING_MAS_KAHWIN]).Some?
            <==> IsNotRecorded(Text(amount))
  {
    hide IsNotRecorded, Amount, KindOf;
    KindShape(MISSING_MAS_KAHWIN);
    KindShape(RM_PREFIX_ISSUE);
    TwoIssues(normalizer, values, MISSING_MAS_KAHWIN, RM_PREFIX_ISSUE);
    TwoIssues(normalizer, values, RM_PREFIX_ISSUE, MISSING_MAS_KAHWIN);
  }

  lemma TwoIssues(normalizer: Normalizer, values: Values, first: string, second: string)
    ensures var st := ResolveIssue(normalizer, State(values, map[]), KindOf(first));
      ResolveIssues(normalizer, values, [first, second])
      == if st.None? then None else ResolveIssue(normalizer, st.value, KindOf(second))
  {
    hide KindOf, ResolveIssue;
    assert [first, second][..1] == [first] && [first][..0] == [];
    assert ResolveIssues(normalizer, values, []) == Some(State(values, map[]));
    assert ResolveIssues(normalizer, values, [first]) == ResolveIssue(normalizer, State(values, map[]), KindOf(first));
  }

  /** A Mas Kahwin of "-" that the normalizer turns into an amount shows the two orders disagree. */
  lemma OrderMatters()
    ensures var normalizer, values := Some((s: string) => Some("RM 0")), map[MAS_KAHWIN := Text("-")];
      && ResolveIssues(normalizer, values, [MISSING_MAS_KAHWIN, RM_PREFIX_ISSUE]).Some?
      && ResolveIssues(normalizer, values, [RM_PREFIX_ISSUE, MISSING_MAS_KAHWIN]).None?
  {
    var normalizer, values: Values := Some((s: string) => Some("RM 0")), map[MAS_KAHWIN := Text("-")];
    hide KindOf, ResolveIssues;
    TwoOrders(normalizer, values, "RM 0");
    assert Upper(Strip("-")) == "-";
    assert Strip("RM 0") == "RM 0";
    assert Upper("RM 0")[0] == 'R';
  }

  // ---- undoing ----

  function Undone(r: Resolution): Values {
    if AUDIT_ORIGINALS in r.normalized && r.normalized[AUDIT_ORIGINALS].Originals?
    then r.values + r.normalized[AUDIT_ORIGINALS].values else r.values
  }

  /** Nothing in this run is written over what an earlier run left as its audit. */
  ghost predicate NothingReplaced(normalizer: Normalizer, values: Values, issues: seq<string>) {
    KeptAsIs(values, issues) || forall f: string :: !Changes(normalizer, values, issues, f)
  }

  /** An earlier audit that names a value the record no longer has. */
  ghost predicate OldAudit(values: Values, normalized: map<string, Datum>) {
    && AUDIT_ORIGINALS in normalized && normalized[AUDIT_ORIGINALS].Originals?
    && exists f :: f in normalized[AUDIT_ORIGINALS].values && normalized[AUDIT_ORIGINALS].values[f] != Get(values, f)
  }

  /** Undo: overlaying the kept values restores every field lookup, except when this run kept nothing
      and an earlier audit, still in place, says otherwise. */
  lemma UndoRestoresIff(normalizer: Normalizer, values: Values, issues: seq<string>, normalized: map<string, Datum>,
                        r: Resolution)
    requires Resolved(normalizer, values, issues, normalized) == Some(r)
    ensures (forall f: string :: Get(Undone(r), f) == Get(values, f))
            <==> !(NothingReplaced(normalizer, values, issues) && OldAudit(values, normalized))
  {
    hide KeptAsIs, ResolveIssues, OldAudit;
    if KeptAsIs(values, issues) {
      UndoOfKept(values, normalized, r);
    } else {
      UndoOfResolved(normalizer, values, issues, normalized, r);
    }
  }

  /** An earlier run replaced a Mas Kahwin of "50", a reviewer has since corrected it to "RM 60", and this
      run has nothing to replace: undoing it brings back the "50". */
  lemma UndoSpoiled()
    ensures var values, normalized :=
              map[MAS_KAHWIN := Text("RM 60")], map[AUDIT_ORIGINALS := Originals(map[MAS_KAHWIN := Text("50")])];
      var r := Resolved(None, values, ["missing wali name"], normalized);
      && r.Some? && r.value.values == values
      && Get(Undone(r.value), MAS_KAHWIN) == Text("50") != Get(values, MAS_KAHWIN)
  {
    hide KeptAsIs;
    var values: Values := map[MAS_KAHWIN := Text("RM 60")];
    var issue := "missing wali name";
    assert KindOf(issue) == ExplainedBy("Nama Wali") && Get(values, "Nama Wali") == Nil;
    assert Upper(Strip("")) == "";
    assert [issue][..0] == [];
    assert ResolveIssues(None, values, []) == Some(State(values, map[]));
    assert ResolveIssues(None, values, [issue]) == Some(State(values, map[]));
  }

  lemma UndoOfResolved(normalizer: Normalizer, values: Values, issues: seq<string>, normalized: map<string, Datum>,
                       r: Resolution)
    requires !KeptAsIs(values, issues) && Resolved(normalizer, values, issues, normalized) == Some(r)
    ensures (forall f: string :: Get(Undone(r), f) == Get(values, f))
            <==> !(NothingReplaced(normalizer, values, issues) && OldAudit(values, normalized))
  {
    hide ResolveIssues, KeptAsIs, Reached, OldAudit, Changes, Undone;
    ResolvesIff(normalizer, values, issues);
    var st := ResolveIssues(normalizer, values, issues).value;
    forall f: string
      ensures f in st.originals <==> Changes(normalizer, values, issues, f)
      ensures Get(st.values + st.originals, f) == Get(values, f)
    {
      ReachedUndone(normalizer, values, issues, st, f);
    }
    if st.originals == map[] {
      assert st.values + st.originals == st.values;
      UndoOfKept(values, normalized, r);
    } else {
      var f :| f in st.originals;
      assert Changes(normalizer, values, issues, f);
      UndoneOf(r, st);
    }
  }

  lemma UndoneOf(r: Resolution, st: State)
    requires AUDIT_ORIGINALS in r.normalized && r.normalized[AUDIT_ORIGINALS] == Originals(st.originals)
    requires r.values == st.values
    ensures Undone(r) == st.values + st.originals
  {
  }

  lemma UndoOfKept(values: Values, normalized: map<string, Datum>, r: Resolution)
    requires forall f: string :: Get(r.values, f) == Get(values, f)
    requires AUDIT_ORIGINALS in r.normalized <==> AUDIT_ORIGINALS in normalized
    requires AUDIT_ORIGINALS in normalized ==> r.normalized[AUDIT_ORIGINALS] == normalized[AUDIT_ORIGINALS]
    ensures (forall f: string :: Get(Undone(r), f) == Get(values, f)) <==> !OldAudit(values, normalized)
  {
  }

  lemma ReachedUndone(normalizer: Normalizer, values: Values, issues: seq<string>, st: State, f: string)
    requires Reached(normalizer, values, issues, st)
    ensures f in st.originals <==> Changes(normalizer, values, issues, f)
    ensures Get(st.values + st.originals, f) == Get(values, f)
  {
    hide RmCount, CoveredByIc, Cleaned, Amount;
    assert FieldReached(normalizer, values, issues, st, f);
  }

  /** Only the Mas Kahwin and IC fields can change, the Mas Kahwin only for its RM prefix, and a
      changed IC keeps its digits. */
  lemma OnlyAmountAndIcsChange(normalizer: Normalizer, values: Values, issues: seq<string>, normalized: map<string, Datum>,
                               r: Resolution, f: string)
    requires Resolved(normalizer, values, issues, normalized) == Some(r) && Get(r.values, f) != Get(values, f)
    ensures (f == MAS_KAHWIN && RM_PREFIX_ISSUE in issues) || f in IC_FIELDS
    ensures f in IC_FIELDS ==> Digits(StrOrEmpty(Get(r.values, f))) == Digits(StrOrEmpty(Get(values, f)))
  {
    hide ResolveIssues, KeptAsIs, Reached;
    ResolvesIff(normalizer, values, issues);
    if !KeptAsIs(values, issues) {
      ReachedChange(normalizer, values, issues, ResolveIssues(normalizer, values, issues).value, f);
    }
  }

  lemma ReachedChange(normalizer: Normalizer, values: Values, issues: seq<string>, st: State, f: string)
    requires Reached(normalizer, values, issues, st) && Get(st.values, f) != Get(values, f)
    ensures (f == MAS_KAHWIN && RM_PREFIX_ISSUE in issues) || f in IC_FIELDS
    ensures f in IC_FIELDS ==> Digits(StrOrEmpty(Get(st.values, f))) == Digits(StrOrEmpty(Get(values, f)))
  {
    hide RmCount, CoveredByIc, IsNotRecorded, Amount, FormatIc;
    CoveredFields(issues, f);
    RmCountIsMultiplicity(issues);
    assert RM_PREFIX_ISSUE in issues <==> RM_PREFIX_ISSUE in multiset(issues);
    assert FieldReached(normalizer, values, issues, st, f);
    if f != MAS_KAHWIN {
      FormatIcKeepsDigits(Get(values, f), FormatIc(Get(values, f)).value);
    }
  }
}
