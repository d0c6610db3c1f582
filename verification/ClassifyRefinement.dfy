/** Stacked and cached classification against classifying every file on its own. */
module ClassifyRefinement {
  import opened Wrappers
  import opened DocumentTypes
  import opened FileNames
  import opened ClassifyFiles

  /** A shared call answered for `f`, as the `k`-th file of the stack `g`. */
  ghost predicate Gave(env: Env, g: seq<File>, k: nat, f: File) {
    |g| >= 2 && k < |g| && g[k] == f && env.classifyStack(g).Some? && |env.classifyStack(g).value| == |g|
  }

  ghost predicate GaveOutcome(env: Env, g: seq<File>, k: nat, f: File, o: Outcome) {
    Gave(env, g, k, f) && o == Success(env.classifyStack(g).value[k])
  }

  /** The stacks a run forms of its pending files, in order; the last may be short, or empty. */
  function Stacks(env: Env, pending: seq<File>, stack: seq<File>): seq<seq<File>> {
    if pending == [] then [stack]
    else if env.stackSize <= 1 || !MayStack(env, pending[0]) then Stacks(env, pending[1..], stack)
    else if |stack| + 1 == env.stackSize then [stack + [pending[0]]] + Stacks(env, pending[1..], [])
    else Stacks(env, pending[1..], stack + [pending[0]])
  }

  function Stackable(env: Env, pending: seq<File>): seq<File> {
    if pending == [] then []
    else (if env.stackSize <= 1 || !MayStack(env, pending[0]) then [] else [pending[0]]) + Stackable(env, pending[1..])
  }

  function Concat(stacks: seq<seq<File>>): seq<File> {
    if stacks == [] then [] else stacks[0] + Concat(stacks[1..])
  }

  lemma ConcatFirst(first: seq<File>, rest: seq<seq<File>>)
    ensures Concat([first] + rest) == first + Concat(rest)
  {
    assert ([first] + rest)[1..] == rest;
  }

  lemma OneStack(stack: seq<File>)
    ensures Concat([stack]) == stack
  {
    assert [stack][1..] == [] && stack + [] == stack;
  }

  lemma {:induction false} StacksConcat(env: Env, pending: seq<File>, stack: seq<File>)
    ensures Concat(Stacks(env, pending, stack)) == stack + Stackable(env, pending)
    decreases |pending|
  {
    OneStack(stack);
    hide MayStack, Concat;
    if pending == [] {
    } else if env.stackSize <= 1 || !MayStack(env, pending[0]) {
      StacksConcat(env, pending[1..], stack);
    } else if |stack| + 1 == env.stackSize {
      StacksConcat(env, pending[1..], []);
      ConcatFirst(stack + [pending[0]], Stacks(env, pending[1..], []));
    } else {
      StacksConcat(env, pending[1..], stack + [pending[0]]);
    }
  }

  /** Pieces of this size, but for the last, which is shorter or empty. */
  ghost predicate CutInto(stacks: seq<seq<File>>, size: int) {
    && stacks != [] && (stacks[|stacks| - 1] == [] || |stacks[|stacks| - 1]| < size)
    && forall i :: 0 <= i < |stacks| - 1 ==> |stacks[i]| == size
  }

  lemma CutOnce(first: seq<File>, rest: seq<seq<File>>, size: int)
    requires CutInto(rest, size) && |first| == size
    ensures CutInto([first] + rest, size)
  {
  }

  lemma {:induction false} StacksCut(env: Env, pending: seq<File>, stack: seq<File>)
    requires stack == [] || |stack| < env.stackSize
    ensures CutInto(Stacks(env, pending, stack), env.stackSize)
    decreases |pending|
  {
    hide MayStack;
    if pending == [] {
    } else if env.stackSize <= 1 || !MayStack(env, pending[0]) {
      StacksCut(env, pending[1..], stack);
    } else if |stack| + 1 == env.stackSize {
      StacksCut(env, pending[1..], []);
      CutOnce(stack + [pending[0]], Stacks(env, pending[1..], []), env.stackSize);
    } else {
      StacksCut(env, pending[1..], stack + [pending[0]]);
    }
  }

  /** They are the stackable pending files, in order and each once, cut into pieces of `stackSize`; only
      the last piece is shorter. */
  lemma StacksInOrder(env: Env, pending: seq<File>)
    ensures Concat(Stacks(env, pending, [])) == Stackable(env, pending)
    ensures CutInto(Stacks(env, pending, []), env.stackSize)
  {
    StacksConcat(env, pending, []);
    StacksCut(env, pending, []);
    hide Stacks, Stackable, Concat, CutInto;
  }

  lemma MayStackWhat(env: Env, f: File)
    ensures MayStack(env, f) <==> env.stackPdfs || !EndsWith(f, ".pdf")
  {
    SuffixInWords(f, ".pdf");
  }

  /** What is stacked: nothing if one file is already a full stack, and no PDF unless they stack too. */
  lemma {:induction false} StackableInWords(env: Env, pending: seq<File>)
    ensures forall f :: f in Stackable(env, pending) <==>
              f in pending && env.stackSize > 1 && (env.stackPdfs || !EndsWith(f, ".pdf"))
  {
    hide EndsWith, MayStack;
    if pending != [] {
      MayStackWhat(env, pending[0]);
      StackableInWords(env, pending[1..]);
      assert pending == [pending[0]] + pending[1..];
    }
  }

  lemma {:induction false} StackableInOrder(env: Env, pending: seq<File>)
    requires InOrder(pending)
    ensures InOrder(Stackable(env, pending)) && forall f :: f in Stackable(env, pending) ==> f in pending
  {
    hide EndsWith, MayStack, Precedes;
    if pending != [] {
      var f, rest := pending[0], pending[1..];
      assert pending == [f] + rest;
      StackableInOrder(env, rest);
      assert forall q :: q in rest ==> Precedes(f, q);
    }
  }

  /** The file's own call came to this outcome, or the call shared by one of these stacks gave it for it. */
  ghost predicate Explained(env: Env, stacks: seq<seq<File>>, f: File, o: Outcome) {
    o == env.classify(f) || exists g: seq<File>, k: nat :: g in stacks && GaveOutcome(env, g, k, f, o)
  }

  /** Exactly `files` have new outcomes, each of them explained. */
  ghost predicate Classifies(env: Env, stacks: seq<seq<File>>, st: State, st': State, files: seq<File>) {
    && (forall f :: f in st'.results <==> f in st.results || f in files)
    && (forall f :: f in files ==> Explained(env, stacks, f, st'.results[f]))
    && (forall f :: f in st.results && f !in files ==> st'.results[f] == st.results[f])
  }

  lemma OneGives(env: Env, st: State, f: File)
    ensures One(env, st, f).results == st.results[f := env.classify(f)]
  {
  }

  lemma {:induction false} OneByOneGives(env: Env, st: State, files: seq<File>)
    ensures var r := OneByOne(env, st, files).results;
      && (forall f :: f in r <==> f in st.results || f in files)
      && (forall f :: f in r ==> r[f] == if f in files then env.classify(f) else st.results[f])
  {
    if files != [] {
      var n := |files| - 1;
      assert files == files[..n] + [files[n]];
      OneByOneGives(env, st, files[..n]);
      OneGives(env, OneByOne(env, st, files[..n]), files[n]);
    }
  }

  lemma {:induction false} RememberAllGives(env: Env, st: State, files: seq<File>, answers: seq<Classification>)
    requires |files| <= |answers|
    ensures var r := RememberAll(env, st, files, answers).results;
      && (forall f :: f in r <==> f in st.results || f in files)
      && (forall f :: f in files ==> exists k :: 0 <= k < |files| && files[k] == f && r[f] == Success(answers[k]))
      && (forall f :: f in st.results && f !in files ==> r[f] == st.results[f])
  {
    if files != [] {
      var n := |files| - 1;
      var before, r := RememberAll(env, st, files[..n], answers).results, RememberAll(env, st, files, answers).results;
      assert files == files[..n] + [files[n]];
      RememberAllGives(env, st, files[..n], answers);
      forall f | f in files ensures exists k :: 0 <= k < |files| && files[k] == f && r[f] == Success(answers[k]) {
        if f != files[n] {
          var k :| 0 <= k < |files[..n]| && files[..n][k] == f && before[f] == Success(answers[k]);
          assert files[k] == f && r[f] == Success(answers[k]);
        }
      }
    }
  }

  lemma FlushedGives(env: Env, st: State, stack: seq<File>)
    requires AnswersEach(env)
    ensures Classifies(env, [stack], st, Flushed(env, st, stack), stack)
  {
    hide RememberAll, OneByOne, Remembered, AnswersEach;
    if |stack| == 1 {
      OneGives(env, st, stack[0]);
    } else if stack != [] {
      match env.classifyStack(stack)
      case Some(answers) =>
        assert |answers| == |stack| by { StackAnswersEach(env, stack); }
        RememberAllGives(env, Called(st), stack, answers);
        var r := RememberAll(env, Called(st), stack, answers).results;
        forall f | f in stack ensures Explained(env, [stack], f, r[f]) {
          var k :| 0 <= k < |stack| && stack[k] == f && r[f] == Success(answers[k]);
          assert GaveOutcome(env, stack, k, f, r[f]);
        }
      case None =>
        OneByOneGives(env, Called(st), stack);
    }
  }

  lemma StackAnswersEach(env: Env, stack: seq<File>)
    requires AnswersEach(env)
    ensures env.classifyStack(stack).Some? ==> |env.classifyStack(stack).value| == |stack|
  {
  }

  lemma Chain(env: Env, a: seq<seq<File>>, b: seq<seq<File>>, c: seq<seq<File>>, st: State, mid: State, end: State,
              first: seq<File>, rest: seq<File>, all: seq<File>)
    requires Classifies(env, a, st, mid, first) && Classifies(env, b, mid, end, rest)
    requires forall f :: f in all <==> f in first || f in rest
    requires forall g :: g in a || g in b ==> g in c
    ensures Classifies(env, c, st, end, all)
  {
    hide GaveOutcome;
    forall f, o | Explained(env, a, f, o) || Explained(env, b, f, o) ensures Explained(env, c, f, o) {
    }
  }

  lemma {:induction false} PendingGives(env: Env, st: State, pending: seq<File>, stack: seq<File>)
    requires AnswersEach(env)
    ensures Classifies(env, Stacks(env, pending, stack), st, Pending(env, st, pending, stack), stack + pending)
    decreases |pending|
  {
    hide Flushed, One, Classifies, MayStack;
    var end, stacks := Pending(env, st, pending, stack), Stacks(env, pending, stack);
    if pending == [] {
      FlushedGives(env, st, stack);
      assert stack + pending == stack;
    } else {
      var f, rest := pending[0], pending[1..];
      assert pending == [f] + rest;
      if env.stackSize <= 1 || !MayStack(env, f) {
        SingleGives(env, st, f);
        PendingGives(env, One(env, st, f), rest, stack);
        Chain(env, [], stacks, stacks, st, One(env, st, f), end, [f], stack + rest, stack + pending);
      } else if |stack| + 1 == env.stackSize {
        FlushedGives(env, st, stack + [f]);
        var mid := Flushed(env, st, stack + [f]);
        PendingGives(env, mid, rest, []);
        Chain(env, [stack + [f]], Stacks(env, rest, []), stacks, st, mid, end, stack + [f], [] + rest, stack + pending);
      } else {
        PendingGives(env, st, rest, stack + [f]);
        assert stack + [f] + rest == stack + pending;
      }
    }
  }

  lemma SingleGives(env: Env, st: State, f: File)
    ensures Classifies(env, [], st, One(env, st, f), [f])
  {
  }

  lemma {:induction false} UncachedFiles(env: Env, cache: map<Digest, Classification>, files: seq<File>)
    ensures forall f :: f in Uncached(env, cache, files) <==> f in files && !Cached(env, cache, f)
  {
    if files != [] {
      assert files == files[..|files| - 1] + [files[|files| - 1]];
      UncachedFiles(env, cache, files[..|files| - 1]);
    }
  }

  /** The stacks of a whole run. */
  function StacksOf(env: Env, cache: map<Digest, Classification>, files: seq<File>): seq<seq<File>> {
    Stacks(env, Uncached(env, cache, files), [])
  }

  /** The result has exactly the input files as keys; a cached file has its cached answer, and every
      other outcome is the file's own call's or was given for that file by the call of a stack of the run. */
  lemma ClassifiedGives(env: Env, cache: map<Digest, Classification>, files: seq<File>)
    requires AnswersEach(env)
    ensures var r := Classified(env, cache, files).results;
      && (forall f :: f in r <==> f in files)
      && (forall f :: f in files ==>
            if Cached(env, cache, f) then r[f] == Success(cache[env.digests[f]]) else Explained(env, StacksOf(env, cache, files), f, r[f]))
  {
    hide Pending, AnswersEach, Explained, Stacks;
    var start, pending := State(CachedResults(env, cache, files), cache, 0), Uncached(env, cache, files);
    UncachedFiles(env, cache, files);
    PendingGives(env, start, pending, []);
    assert [] + pending == pending;
  }

  ghost predicate CacheAgrees(env: Env, cache: map<Digest, Classification>, f: File) {
    Cached(env, cache, f) ==> Success(cache[env.digests[f]]) == env.classify(f)
  }

  ghost predicate StacksAgree(env: Env, stacks: seq<seq<File>>, f: File) {
    forall g: seq<File>, k: nat :: g in stacks && Gave(env, g, k, f) ==>
      Success(env.classifyStack(g).value[k]) == env.classify(f)
  }

  /** Refinement: for every list, stack size, cache and pattern of failing stacks, a file comes out as
      its own call would say wherever the cache and the stack it was put into agree with that call. */
  lemma RefinesSingleFiles(env: Env, cache: map<Digest, Classification>, files: seq<File>, f: File)
    requires AnswersEach(env) && f in files && CacheAgrees(env, cache, f)
    requires StacksAgree(env, StacksOf(env, cache, files), f)
    ensures f in Classified(env, cache, files).results
    ensures Classified(env, cache, files).results[f] == env.classify(f)
  {
    hide Classified, StacksOf;
    ClassifiedGives(env, cache, files);
  }

  /** A `ClassifyError` is recorded only for a file whose own call raised it. */
  lemma FailsOnlyAlone(env: Env, cache: map<Digest, Classification>, files: seq<File>, f: File)
    requires AnswersEach(env) && f in files
    ensures f in Classified(env, cache, files).results
    ensures Classified(env, cache, files).results[f].Failure? ==>
              env.classify(f).Failure? && Classified(env, cache, files).results[f] == env.classify(f)
  {
    hide Classified, StacksOf;
    ClassifiedGives(env, cache, files);
  }

  /** Every file once. */
  ghost predicate Once(files: seq<File>) {
    forall i, k :: 0 <= i < k < |files| ==> files[i] != files[k]
  }

  lemma {:induction false} RememberAllAt(env: Env, st: State, files: seq<File>, answers: seq<Classification>, k: nat)
    requires k < |files| <= |answers| && Once(files)
    ensures var r := RememberAll(env, st, files, answers).results; files[k] in r && r[files[k]] == Success(answers[k])
  {
    if k < |files| - 1 {
      RememberAllAt(env, st, files[..|files| - 1], answers, k);
    }
  }

  lemma {:induction false} StackDecides(env: Env, st: State, pending: seq<File>, stack: seq<File>, g: seq<File>, k: nat)
    requires AnswersEach(env) && Once(stack + pending) && g in Stacks(env, pending, stack)
    requires |g| >= 2 && k < |g| && env.classifyStack(g).Some? && |env.classifyStack(g).value| == |g|
    ensures var r := Pending(env, st, pending, stack).results;
      g[k] in r && r[g[k]] == Success(env.classifyStack(g).value[k])
    decreases |pending|
  {
    hide MayStack, One, AnswersEach, RememberAll, Explained;
    if pending == [] {
      assert stack + pending == stack;
      RememberAllAt(env, Called(st), stack, env.classifyStack(g).value, k);
    } else {
      var f, rest := pending[0], pending[1..];
      assert pending == [f] + rest;
      if env.stackSize <= 1 || !MayStack(env, f) {
        Without(stack, f, rest);
        StackDecides(env, One(env, st, f), rest, stack, g, k);
      } else if |stack| + 1 == env.stackSize {
        var full := stack + [f];
        assert full + rest == stack + pending;
        Halves(full, rest);
        StackAnswersEach(env, full);
        var mid := Flushed(env, st, full);
        if g == full && g[k] !in rest {
          RememberAllAt(env, Called(st), full, env.classifyStack(g).value, k);
          PendingGives(env, mid, rest, []);
        } else {
          StackDecides(env, mid, rest, [], g, k);
        }
      } else {
        assert (stack + [f]) + rest == stack + pending;
        StackDecides(env, st, rest, stack + [f], g, k);
      }
    }
  }

  lemma Halves(a: seq<File>, b: seq<File>)
    requires Once(a + b)
    ensures Once(a) && Once([] + b) && forall f :: f in a ==> f !in b
  {
    forall i, k | 0 <= i < k < |a| ensures a[i] != a[k] {
      assert (a + b)[i] == a[i] && (a + b)[k] == a[k];
    }
    forall i, k | 0 <= i < k < |b| ensures b[i] != b[k] {
      assert (a + b)[|a| + i] == b[i] && (a + b)[|a| + k] == b[k];
    }
    forall i, k | 0 <= i < |a| && 0 <= k < |b| ensures a[i] != b[k] {
      assert (a + b)[i] == a[i] && (a + b)[|a| + k] == b[k];
    }
  }

  lemma Without(a: seq<File>, f: File, b: seq<File>)
    requires Once(a + ([f] + b))
    ensures Once(a + b)
  {
    var all, left := a + ([f] + b), a + b;
    forall i, k | 0 <= i < k < |left| ensures left[i] != left[k] {
      assert left[i] == all[if i < |a| then i else i + 1] && left[k] == all[if k < |a| then k else k + 1];
    }
  }

  lemma {:induction false} UncachedOnce(env: Env, cache: map<Digest, Classification>, files: seq<File>)
    requires Once(files)
    ensures Once(Uncached(env, cache, files))
  {
    if files != [] {
      var n := |files| - 1;
      assert files == files[..n] + [files[n]];
      UncachedOnce(env, cache, files[..n]);
      UncachedFiles(env, cache, files[..n]);
    }
  }

  /** When a stack of the run is answered, its files are classified as it says, each by its own place. */
  lemma AnsweredStackDecides(env: Env, cache: map<Digest, Classification>, files: seq<File>, g: seq<File>, k: nat)
    requires AnswersEach(env) && Once(files) && g in StacksOf(env, cache, files)
    requires |g| >= 2 && k < |g| && env.classifyStack(g).Some?
    ensures |env.classifyStack(g).value| == |g|
    ensures var r := Classified(env, cache, files).results;
      g[k] in r && r[g[k]] == Success(env.classifyStack(g).value[k])
  {
    StackAnswersEach(env, g);
    UncachedOnce(env, cache, files);
    var pending := Uncached(env, cache, files);
    assert [] + pending == pending;
    hide AnswersEach, Pending, Stacks;
    StackDecides(env, State(CachedResults(env, cache, files), cache, 0), pending, [], g, k);
  }

  // ---- what a resumed run finds ----

  ghost predicate OwnDigests(env: Env) {
    forall f, g :: f in env.digests && g in env.digests && env.digests[f] == env.digests[g] ==> f == g
  }

  /** Every classification made so far whose save went through is in the cache. */
  ghost predicate Kept(env: Env, st: State) {
    forall f :: f in st.results && f in env.digests && env.saves(f) && st.results[f].Success? ==>
      env.digests[f] in st.cache && st.cache[env.digests[f]] == st.results[f].value
  }

  lemma {:induction false} OneByOneKeeps(env: Env, st: State, files: seq<File>)
    requires OwnDigests(env) && Kept(env, st)
    ensures Kept(env, OneByOne(env, st, files))
  {
    if files != [] {
      OneByOneKeeps(env, st, files[..|files| - 1]);
    }
  }

  lemma {:induction false} RememberAllKeeps(env: Env, st: State, files: seq<File>, answers: seq<Classification>)
    requires OwnDigests(env) && Kept(env, st) && |files| <= |answers|
    ensures Kept(env, RememberAll(env, st, files, answers))
  {
    if files != [] {
      RememberAllKeeps(env, st, files[..|files| - 1], answers);
    }
  }

  lemma FlushedKeeps(env: Env, st: State, stack: seq<File>)
    requires AnswersEach(env) && OwnDigests(env) && Kept(env, st)
    ensures Kept(env, Flushed(env, st, stack))
  {
    hide AnswersEach, OwnDigests;
    StackAnswersEach(env, stack);
    if |stack| == 1 {
      OneKeeps(env, st, stack[0]);
    } else if stack != [] {
      match env.classifyStack(stack)
      case Some(answers) => RememberAllKeeps(env, Called(st), stack, answers);
      case None => OneByOneKeeps(env, Called(st), stack);
    }
  }

  lemma OneKeeps(env: Env, st: State, f: File)
    requires OwnDigests(env) && Kept(env, st)
    ensures Kept(env, One(env, st, f))
  {
  }

  lemma {:induction false} PendingKeeps(env: Env, st: State, pending: seq<File>, stack: seq<File>)
    requires AnswersEach(env) && OwnDigests(env) && Kept(env, st)
    ensures Kept(env, Pending(env, st, pending, stack))
    decreases |pending|
  {
    hide Flushed, One, Kept, OwnDigests, MayStack;
    if pending == [] {
      FlushedKeeps(env, st, stack);
    } else if env.stackSize <= 1 || !MayStack(env, pending[0]) {
      OneKeeps(env, st, pending[0]);
      PendingKeeps(env, One(env, st, pending[0]), pending[1..], stack);
    } else if |stack| + 1 == env.stackSize {
      FlushedKeeps(env, st, stack + [pending[0]]);
      PendingKeeps(env, Flushed(env, st, stack + [pending[0]]), pending[1..], []);
    } else {
      PendingKeeps(env, st, pending[1..], stack + [pending[0]]);
    }
  }

  /** A later run over the same files, whatever its classifier says by then, reuses every
      classification that was made and saved. */
  lemma ResumedRunReuses(env: Env, later: Env, cache: map<Digest, Classification>, files: seq<File>, f: File)
    requires AnswersEach(env) && AnswersEach(later) && OwnDigests(env) && later.digests == env.digests
    requires f in files && f in env.digests && env.saves(f)
    ensures var first := Classified(env, cache, files); var second := Classified(later, first.cache, files);
      f in first.results && f in second.results
      && (first.results[f].Success? ==> second.results[f] == first.results[f])
  {
    hide Pending, AnswersEach, OwnDigests, Explained, StacksOf;
    ClassifiedGives(env, cache, files);
    PendingKeeps(env, State(CachedResults(env, cache, files), cache, 0), Uncached(env, cache, files), []);
    ClassifiedGives(later, Classified(env, cache, files).cache, files);
  }

  // ---- how many calls are made ----

  lemma {:induction false} OneByOneCalls(env: Env, st: State, files: seq<File>)
    ensures OneByOne(env, st, files).calls == st.calls + |files|
  {
    if files != [] {
      OneByOneCalls(env, st, files[..|files| - 1]);
    }
  }

  lemma {:induction false} RememberAllCalls(env: Env, st: State, files: seq<File>, answers: seq<Classification>)
    requires |files| <= |answers|
    ensures RememberAll(env, st, files, answers).calls == st.calls
  {
    if files != [] {
      RememberAllCalls(env, st, files[..|files| - 1], answers);
    }
  }

  /** A stack saves calls exactly when it is answered; a failing stack costs one call more than
      classifying its files one by one. */
  lemma StackCalls(env: Env, st: State, stack: seq<File>)
    requires AnswersEach(env) && |stack| >= 2
    ensures Flushed(env, st, stack).calls == st.calls + 1 + if env.classifyStack(stack).Some? then 0 else |stack|
    ensures Flushed(env, st, stack).calls <= st.calls + |stack| <==> env.classifyStack(stack).Some?
  {
    match env.classifyStack(stack)
    case Some(answers) => RememberAllCalls(env, Called(st), stack, answers);
    case None => OneByOneCalls(env, Called(st), stack);
  }

  /** When every stack of the run is answered, there is at most one call per pending file. */
  lemma {:induction false} PendingCalls(env: Env, st: State, pending: seq<File>, stack: seq<File>)
    requires AnswersEach(env)
    requires forall g :: g in Stacks(env, pending, stack) && |g| >= 2 ==> env.classifyStack(g).Some?
    ensures Pending(env, st, pending, stack).calls <= st.calls + |stack| + |pending|
    decreases |pending|
  {
    hide Flushed, MayStack;
    if pending == [] {
      FlushedCalls(env, st, stack);
    } else if env.stackSize <= 1 || !MayStack(env, pending[0]) {
      PendingCalls(env, One(env, st, pending[0]), pending[1..], stack);
    } else if |stack| + 1 == env.stackSize {
      FlushedCalls(env, st, stack + [pending[0]]);
      PendingCalls(env, Flushed(env, st, stack + [pending[0]]), pending[1..], []);
    } else {
      PendingCalls(env, st, pending[1..], stack + [pending[0]]);
    }
  }

  lemma FlushedCalls(env: Env, st: State, stack: seq<File>)
    requires AnswersEach(env) && (|stack| >= 2 ==> env.classifyStack(stack).Some?)
    ensures Flushed(env, st, stack).calls <= st.calls + |stack|
  {
    if |stack| >= 2 {
      StackCalls(env, st, stack);
    }
  }
}
