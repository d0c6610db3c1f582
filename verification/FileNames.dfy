/** The name and the suffix of a path, as `pathlib` gives them, and lower case. */
module FileNames {

  function LowerChar(c: char): char {
    if 'A' <= c <= 'Z' then c - 'A' + 'a' else c
  }

  function Lower(s: string): string {
    seq(|s|, i requires 0 <= i < |s| => LowerChar(s[i]))
  }

  function LastIndex(s: string, c: char): (i: int)
    ensures -1 <= i < |s|
  {
    if s == "" then -1 else if s[|s| - 1] == c then |s| - 1 else LastIndex(s[..|s| - 1], c)
  }

  function NameOf(path: string): string {
    path[LastIndex(path, '/') + 1..]
  }

  /** With its dot; a leading or a trailing dot starts no suffix. */
  function SuffixOf(path: string): string {
    var name := NameOf(path);
    var i := LastIndex(name, '.');
    if 0 < i < |name| - 1 then name[i..] else ""
  }

  // ---- in words ----

  /** The same text but for capitals; the word has none. */
  predicate ReadsLower(text: string, word: string) {
    && |text| == |word|
    && forall i :: 0 <= i < |text| ==> text[i] == word[i] || ('A' <= text[i] <= 'Z' && text[i] - 'A' + 'a' == word[i])
  }

  predicate NoCapitals(word: string) {
    forall c :: c in word ==> !('A' <= c <= 'Z')
  }

  lemma LowerReads(text: string, word: string)
    requires NoCapitals(word)
    ensures Lower(text) == word <==> ReadsLower(text, word)
  {
    if ReadsLower(text, word) {
      assert forall i :: 0 <= i < |text| ==> word[i] in word;
      assert Lower(text) == word;
    }
    if Lower(text) == word {
      forall i | 0 <= i < |text|
        ensures text[i] == word[i] || ('A' <= text[i] <= 'Z' && text[i] - 'A' + 'a' == word[i])
      {
        assert Lower(text)[i] == LowerChar(text[i]);
      }
    }
  }

  lemma {:induction false} LastIndexIsLast(s: string, c: char)
    ensures LastIndex(s, c) >= 0 ==> s[LastIndex(s, c)] == c
    ensures forall k :: LastIndex(s, c) < k < |s| ==> s[k] != c
  {
    if s != "" && s[|s| - 1] != c {
      var rest := s[..|s| - 1];
      LastIndexIsLast(rest, c);
      assert forall k :: 0 <= k < |rest| ==> rest[k] == s[k];
    }
  }

  lemma DropHas(s: string, n: nat, c: char)
    requires n <= |s|
    ensures c in s[n..] ==> exists k :: n <= k < |s| && s[k] == c
  {
    if c in s[n..] {
      var m :| 0 <= m < |s[n..]| && s[n..][m] == c;
      assert s[n + m] == c;
    }
  }

  /** The name is what follows the last slash. */
  lemma NameInWords(path: string)
    ensures '/' !in NameOf(path)
    ensures var n := |path| - |NameOf(path)|; 0 <= n && path[n..] == NameOf(path) && (n > 0 ==> path[n - 1] == '/')
  {
    LastIndexIsLast(path, '/');
    hide LastIndex;
    DropHas(path, LastIndex(path, '/') + 1, '/');
  }

  /** The path ends in this extension, in any case, with something of the name in front of it. */
  predicate EndsWith(path: string, extension: string) {
    && |path| > |extension| && path[|path| - |extension| - 1] != '/'
    && ReadsLower(path[|path| - |extension|..], extension)
  }

  predicate IsExtension(extension: string) {
    && |extension| >= 2 && extension[0] == '.' && NoCapitals(extension)
    && forall i :: 1 <= i < |extension| ==> extension[i] != '.' && extension[i] != '/'
  }

  lemma LastAt(s: string, c: char, i: nat)
    requires i < |s| && s[i] == c && forall k :: i < k < |s| ==> s[k] != c
    ensures LastIndex(s, c) == i
  {
    LastIndexIsLast(s, c);
    hide LastIndex;
  }

  /** The extension's dot is the last one, and no slash comes after it. */
  lemma Tail(path: string, extension: string, k: nat)
    requires IsExtension(extension) && EndsWith(path, extension) && |path| - |extension| <= k < |path|
    ensures path[k] != '/' && (path[k] == '.' <==> k == |path| - |extension|)
  {
    assert path[|path| - |extension|..][k - (|path| - |extension|)] == path[k];
  }

  lemma LongEnough(extension: string)
    requires IsExtension(extension)
    ensures |extension| >= 2
  {
  }

  lemma EndIsSuffix(path: string, extension: string)
    requires IsExtension(extension) && EndsWith(path, extension)
    ensures SuffixOf(path) == path[|path| - |extension|..]
  {
    hide ReadsLower, LastIndex, IsExtension;
    var n, m := |path|, |extension|;
    assert m >= 2 by { LongEnough(extension); }
    var start, name := LastIndex(path, '/') + 1, NameOf(path);
    LastIndexIsLast(path, '/');
    forall k | n - m <= k < n ensures path[k] != '/' && (path[k] == '.' <==> k == n - m) {
      Tail(path, extension, k);
    }
    assert start < n - m;
    LastAt(name, '.', n - m - start);
    DropDrop(path, start, n - m - start);
  }

  lemma DropDrop(s: string, i: nat, k: nat)
    requires i + k <= |s|
    ensures s[i..][k..] == s[i + k..]
  {
  }

  lemma SuffixIsEnd(path: string)
    requires SuffixOf(path) != ""
    ensures var m := |SuffixOf(path)|;
      m < |path| && path[|path| - m - 1] != '/' && SuffixOf(path) == path[|path| - m..]
  {
    LastIndexIsLast(path, '/');
    hide LastIndex;
    var start := LastIndex(path, '/') + 1;
    var i := LastIndex(path[start..], '.');
    DropDrop(path, start, i);
    assert |SuffixOf(path)| == |path| - start - i;
  }

  /** A path has a suffix, in any case, exactly when it ends so: the suffix starts at the last dot of the
      name, and the name does not start there. */
  lemma SuffixInWords(path: string, extension: string)
    requires IsExtension(extension)
    ensures Lower(SuffixOf(path)) == extension <==> EndsWith(path, extension)
  {
    hide SuffixOf, Lower;
    LowerReads(SuffixOf(path), extension);
    if EndsWith(path, extension) {
      EndIsSuffix(path, extension);
    }
    if ReadsLower(SuffixOf(path), extension) {
      SuffixIsEnd(path);
    }
  }

  // ---- the order of paths ----

  /** Paths are compared component by component, so that a slash, which ends one, comes before every
      other character. */
  function Rank(c: char): nat {
    if c == '/' then 0 else c as int + 1
  }

  predicate FirstDiffersAt(p: string, q: string, k: nat) {
    && k <= |p| && k < |q| && p[..k] == q[..k]
    && (k < |p| ==> Rank(p[k]) < Rank(q[k]))
  }

  predicate Precedes(p: string, q: string) {
    exists k | 0 <= k <= |p| :: FirstDiffersAt(p, q, k)
  }

  predicate InOrder(paths: seq<string>) {
    forall i, k :: 0 <= i < k < |paths| ==> Precedes(paths[i], paths[k])
  }

  lemma Irreflexive(p: string)
    ensures !Precedes(p, p)
  {
  }

  /** A path comes before the longer ones; otherwise the first different characters decide. */
  lemma OrderInWords(start: string, p: string, q: string)
    ensures p == "" ==> (Precedes(start + p, start + q) <==> q != "")
    ensures p != "" && q == "" ==> !Precedes(start + p, start + q)
    ensures p != "" && q != "" && p[0] != q[0] ==>
      (Precedes(start + p, start + q) <==> q[0] != '/' && (p[0] == '/' || p[0] < q[0]))
  {
    var n := |start|;
    assert (start + p)[..n] == start == (start + q)[..n];
    if q != "" && (p == "" || p[0] != q[0]) {
      assert FirstDiffersAt(start + p, start + q, n) <==> p == "" || (q[0] != '/' && (p[0] == '/' || p[0] < q[0]));
    }
    if Precedes(start + p, start + q) {
      var k :| 0 <= k <= |start + p| && FirstDiffersAt(start + p, start + q, k);
      assert n < k <= |start + p| ==> p[0] == (start + p)[n] == (start + p)[..k][n] == (start + q)[n] == q[0];
    }
  }

  lemma Transitive(p: string, q: string, r: string)
    requires Precedes(p, q) && Precedes(q, r)
    ensures Precedes(p, r)
  {
    var k :| 0 <= k <= |p| && FirstDiffersAt(p, q, k);
    var m :| 0 <= m <= |q| && FirstDiffersAt(q, r, m);
    var n := if k < m then k else m;
    assert p[..n] == q[..n] == r[..n] by {
      assert p[..n] == p[..k][..n] && q[..n] == q[..k][..n] == q[..m][..n] && r[..n] == r[..m][..n];
    }
    if k < m {
      assert q[k] == q[..m][k] == r[..m][k] == r[k];
    }
    assert FirstDiffersAt(p, r, n) by {
      if m < k {
        assert p[m] == p[..k][m] == q[..k][m] == q[m];
      }
    }
  }

  lemma {:induction false} Total(p: string, q: string, k: nat)
    requires p != q && k <= |p| && k <= |q| && p[..k] == q[..k]
    ensures Precedes(p, q) || Precedes(q, p)
    decreases |p| - k
  {
    if k == |p| || k == |q| {
      assert p[..|p|] == p && q[..|q|] == q;
      assert FirstDiffersAt(p, q, k) || FirstDiffersAt(q, p, k);
    } else if p[k] == q[k] {
      assert p[..k + 1] == p[..k] + [p[k]] && q[..k + 1] == q[..k] + [q[k]];
      Total(p, q, k + 1);
    } else {
      assert FirstDiffersAt(p, q, k) || FirstDiffersAt(q, p, k);
    }
  }

  function Inserted(paths: seq<string>, p: string): seq<string> {
    if paths == [] then [p]
    else if Precedes(p, paths[0]) then [p] + paths
    else [paths[0]] + Inserted(paths[1..], p)
  }

  lemma Alone()
    ensures InOrder([])
  {
  }

  lemma {:induction false} InsertedHas(paths: seq<string>, p: string)
    ensures forall q :: q in Inserted(paths, p) <==> q == p || q in paths
  {
    hide Precedes;
    if paths != [] {
      assert paths == [paths[0]] + paths[1..];
      InsertedHas(paths[1..], p);
    }
  }

  lemma FirstInOrder(first: string, rest: seq<string>)
    requires InOrder(rest) && forall q :: q in rest ==> Precedes(first, q)
    ensures InOrder([first] + rest)
  {
    hide Precedes;
  }

  lemma {:induction false} InsertedInOrder(paths: seq<string>, p: string)
    requires InOrder(paths) && p !in paths
    ensures InOrder(Inserted(paths, p))
    ensures forall q :: q in Inserted(paths, p) <==> q == p || q in paths
  {
    hide Precedes;
    InsertedHas(paths, p);
    if paths != [] {
      var first, rest := paths[0], paths[1..];
      assert paths == [first] + rest;
      assert forall q :: q in rest ==> Precedes(first, q);
      if Precedes(p, first) {
        forall q | q in paths ensures Precedes(p, q) {
          if q != first {
            Transitive(p, first, q);
          }
        }
        FirstInOrder(p, paths);
      } else {
        InsertedInOrder(rest, p);
        Total(p, first, 0);
        FirstInOrder(first, Inserted(rest, p));
      }
    }
  }
}
