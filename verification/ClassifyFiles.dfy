/** Classifying a submission's files: cached answers first, then stacks of consecutive files with a
    fall-back to one call per file. The classifier is an oracle; its calls may fail. */
module ClassifyFiles {
  import opened Wrappers
  import opened DocumentTypes
  import opened FileNames

  type File = string
  type Digest = string
  type Outcome = Result<Classification, string>

  /** The classifier as one call sees it. `stackPdfs` says whether PDFs may share a call, `saves`
      whether writing a file's cache entry succeeds. A file without a digest is never cached. */
  datatype Env = Env(
    classify: File -> Outcome,
    classifyStack: seq<File> -> Option<seq<Classification>>,
    stackPdfs: bool,
    saves: File -> bool,
    digests: map<File, Digest>,
    stackSize: int)

  /** Every answer has one entry per file: the runner turns any other answer into a ClassifyError
      (`onedrive/runner.py` 130-131), so it never reaches the strict `zip` that reads the answers. */
  ghost predicate AnswersEach(env: Env) {
    forall g: seq<File> :: env.classifyStack(g).Some? ==> |env.classifyStack(g).value| == |g|
  }

  /** A PDF is classified on its own unless PDFs stack too. */
  predicate MayStack(env: Env, f: File) {
    env.stackPdfs || Lower(SuffixOf(f)) != ".pdf"
  }

  datatype State = State(results: map<File, Outcome>, cache: map<Digest, Classification>, calls: nat)

  // ---- what each step does ----

  function Remembered(env: Env, st: State, f: File, c: Classification): State {
    st.(results := st.results[f := Success(c)],
        cache := if f in env.digests && env.saves(f) then st.cache[env.digests[f] := c] else st.cache)
  }

  function Called(st: State): State {
    st.(calls := st.calls + 1)
  }

  function One(env: Env, st: State, f: File): State {
    match env.classify(f)
    case Success(c) => Remembered(env, Called(st), f, c)
    case Failure(_) => Called(st).(results := st.results[f := env.classify(f)])
  }

  function RememberAll(env: Env, st: State, files: seq<File>, answers: seq<Classification>): State
    requires |files| <= |answers|
  {
    if files == [] then st
    else
      var n := |files| - 1;
      Remembered(env, RememberAll(env, st, files[..n], answers), files[n], answers[n])
  }

  function OneByOne(env: Env, st: State, files: seq<File>): State {
    if files == [] then st else One(env, OneByOne(env, st, files[..|files| - 1]), files[|files| - 1])
  }

  function Flushed(env: Env, st: State, stack: seq<File>): State
    requires env.classifyStack(stack).Some? ==> |env.classifyStack(stack).value| == |stack|
  {
    if stack == [] then st
    else if |stack| == 1 then One(env, st, stack[0])
    else match env.classifyStack(stack)
      case Some(answers) => RememberAll(env, Called(st), stack, answers)
      case None => OneByOne(env, Called(st), stack)
  }

  ghost function Pending(env: Env, st: State, pending: seq<File>, stack: seq<File>): State
    requires AnswersEach(env)
    decreases |pending|
  {
    if pending == [] then Flushed(env, st, stack)
    else if env.stackSize <= 1 || !MayStack(env, pending[0])
    then Pending(env, One(env, st, pending[0]), pending[1..], stack)
    else if |stack| + 1 == env.stackSize
    then Pending(env, Flushed(env, st, stack + [pending[0]]), pending[1..], [])
    else Pending(env, st, pending[1..], stack + [pending[0]])
  }

  predicate Cached(env: Env, cache: map<Digest, Classification>, f: File) {
    f in env.digests && env.digests[f] in cache
  }

  function CachedResults(env: Env, cache: map<Digest, Classification>, files: seq<File>): map<File, Outcome> {
    map f | f in files && Cached(env, cache, f) :: Success(cache[env.digests[f]])
  }

  function Uncached(env: Env, cache: map<Digest, Classification>, files: seq<File>): seq<File> {
    if files == [] then []
    else
      var last := files[|files| - 1];
      Uncached(env, cache, files[..|files| - 1]) + if Cached(env, cache, last) then [] else [last]
  }

  lemma NothingReused(env: Env, cache: map<Digest, Classification>, files: seq<File>)
    ensures CachedResults(env, cache, files[..0]) == map[] && Uncached(env, cache, files[..0]) == []
  {
  }

  lemma OneMoreReused(env: Env, cache: map<Digest, Classification>, files: seq<File>, i: nat)
    requires i < |files|
    ensures var f, before := files[i], files[..i]; var now := files[..i + 1];
      if Cached(env, cache, f)
      then && CachedResults(env, cache, now) == CachedResults(env, cache, before)[f := Success(cache[env.digests[f]])]
           && Uncached(env, cache, now) == Uncached(env, cache, before)
      else && CachedResults(env, cache, now) == CachedResults(env, cache, before)
           && Uncached(env, cache, now) == Uncached(env, cache, before) + [f]
  {
    assert files[..i + 1] == files[..i] + [files[i]] && files[..i + 1][..i] == files[..i];
  }

  ghost function Classified(env: Env, cache: map<Digest, Classification>, files: seq<File>): State
    requires AnswersEach(env)
  {
    Pending(env, State(CachedResults(env, cache, files), cache, 0), Uncached(env, cache, files), [])
  }

  // ---- the code ----

  class Classifier {
    const env: Env
    var results: map<File, Outcome>
    var cache: map<Digest, Classification>
    var calls: nat
    var stack: seq<File>

    constructor (env: Env, cache: map<Digest, Classification>)
      ensures this.env == env && this.cache == cache && calls == 0
    {
      this.env := env;
      this.cache := cache;
      results, calls, stack := map[], 0, [];
    }

    ghost function Snapshot(): State
      reads this
    {
      State(results, cache, calls)
    }

    method Remember(f: File, c: Classification)
      modifies this`results, this`cache
      ensures Snapshot() == Remembered(env, old(Snapshot()), f, c)
    {
      results := results[f := Success(c)];
      if f in env.digests && env.saves(f) {
        cache := cache[env.digests[f] := c];
      }
    }

    method ClassifyOne(f: File)
      modifies this`results, this`cache, this`calls
      ensures Snapshot() == One(env, old(Snapshot()), f)
    {
      calls := calls + 1;
      var outcome := env.classify(f);
      match outcome
      case Success(c) => Remember(f, c);
      case Failure(_) => results := results[f := outcome];
    }

    method Flush()
      requires AnswersEach(env)
      modifies this
      ensures Snapshot() == Flushed(env, old(Snapshot()), old(stack)) && stack == []
    {
      if |stack| == 1 {
        ClassifyOne(stack[0]);
      } else if stack != [] {
        calls := calls + 1;
        ghost var start := Snapshot();
        var answers := env.classifyStack(stack);
        if answers.Some? {
          for i := 0 to |stack|
            invariant stack == old(stack) && Snapshot() == RememberAll(env, start, stack[..i], answers.value)
          {
            assert stack[..i + 1][..i] == stack[..i];
            Remember(stack[i], answers.value[i]);
          }
          assert stack[..|stack|] == stack;
        } else {
          for i := 0 to |stack|
            invariant stack == old(stack) && Snapshot() == OneByOne(env, start, stack[..i])
          {
            assert stack[..i + 1][..i] == stack[..i];
            ClassifyOne(stack[i]);
          }
          assert stack[..|stack|] == stack;
        }
      }
      stack := [];
    }

    /** Reuses what is cached; what is left has to be classified. */
    method Reuse(files: seq<File>) returns (pending: seq<File>)
      modifies this`results
      ensures results == CachedResults(env, cache, files) && pending == Uncached(env, cache, files)
    {
      hide CachedResults, Uncached;
      results, pending := map[], [];
      NothingReused(env, cache, files);
      for i := 0 to |files|
        invariant results == CachedResults(env, cache, files[..i]) && pending == Uncached(env, cache, files[..i])
      {
        var f := files[i];
        OneMoreReused(env, cache, files, i);
        if f !in env.digests || env.digests[f] !in cache {
          pending := pending + [f];
        } else {
          results := results[f := Success(cache[env.digests[f]])];
        }
      }
      assert files[..|files|] == files;
    }

    method ClassifyFiles(files: seq<File>)
      requires AnswersEach(env)
      modifies this
      ensures Snapshot() == Classified(env, old(cache), files)
    {
      hide AnswersEach, Flushed, One, SuffixOf, Lower;
      calls, stack := 0, [];
      var pending := Reuse(files);
      for i := 0 to |pending|
        invariant Pending(env, Snapshot(), pending[i..], stack) == Classified(env, old(cache), files)
      {
        var f := pending[i];
        assert pending[i..][1..] == pending[i + 1..];
        if env.stackSize <= 1 || (Lower(SuffixOf(f)) == ".pdf" && !env.stackPdfs) {
          ClassifyOne(f);
        } else {
          stack := stack + [f];
          if |stack| == env.stackSize {
            Flush();
          }
        }
      }
      Flush();
    }
  }
}
