/** Fetch runs of one OneDrive submission, each of which may be killed between any two of its
    persistent effects and run again over what it left behind. One run is inside the submission at
    a time; anybody may commit documents of their own meanwhile. */
module Ingest {
  import opened Wrappers
  import opened DocumentTypes
  import opened FileNames
  import opened ClassifyFiles
  import opened NeighborFallback

  type Sha = string

  /** `owner` is the submission the document came from, if it came from one. */
  datatype Document = Document(id: nat, sha: Sha, owner: Option<nat>)

  datatype Original = OfDocument(id: nat) | OfFile(name: string)

  /** One entry of `skipped_files`. */
  datatype Skipped = Skipped(filename: string, status: string, duplicateOf: Option<Original>)

  /** How ingesting one file ends: refused, rolled back, or committed; after the commit the staged file
      may stay, the rest of the call may still raise, and the ledger line may fail to be written. */
  datatype IngestAnswer =
    | Rejected(code: string)
    | Raised
    | Committed(id: nat, unlinks: bool, raisesAfter: bool, recorded: bool)

  /** Everything one run does not decide. `fetch` is the download directory after a successful
      download, or none; `partial` what a failed or killed download leaves in it; `classify` the
      outcome of every file, or none when something other than a ClassifyError was raised;
      `tidied` is what the clean-up leaves of the directory, `ledgerGoes` whether it can remove the
      ledger; `arrivals` the documents others commit as the run goes on; `killAt` its last effect. */
  datatype World = World(
    fetch: (map<File, Sha>, set<File>) -> Option<map<File, Sha>>,
    partial: map<File, Sha> -> map<File, Sha>,
    classify: seq<File> -> Option<map<File, Outcome>>,
    ingest: File -> IngestAnswer,
    moves: File -> bool,
    tidied: map<File, Sha> -> map<File, Sha>,
    ledgerGoes: bool,
    arrivals: nat -> seq<Document>,
    killAt: nat)

  datatype Verdict = New | AlreadyIngested | Duplicate(original: Original)

  const DUPLICATE := "DUPLICATE"

  /** A run that has marked its submission fetched ends as FetchedRun, even if it is killed while it
      cleans up, or as UntidyRun: the ledger could not be removed, and the row is failed after all. */
  datatype RunEnd = Killed | FailedRun | FetchedRun | UntidyRun

  predicate Fetched(end: RunEnd) {
    end.FetchedRun? || end.UntidyRun?
  }

  const SUPPORTED_EXTENSIONS := {".jpg", ".jpeg", ".png", ".pdf", ".tif", ".tiff"}

  predicate Supported(path: File) {
    Lower(SuffixOf(path)) in SUPPORTED_EXTENSIONS
  }

  /** The files a run looks at: photographs, scans and PDFs, by what their names end in. */
  lemma SupportedInWords(p: File)
    ensures Supported(p) <==>
            || EndsWith(p, ".jpg") || EndsWith(p, ".jpeg") || EndsWith(p, ".png") || EndsWith(p, ".pdf")
            || EndsWith(p, ".tif") || EndsWith(p, ".tiff")
  {
    hide EndsWith, SuffixOf, Lower;
    SuffixInWords(p, ".jpg");
    SuffixInWords(p, ".jpeg");
    SuffixInWords(p, ".png");
    SuffixInWords(p, ".pdf");
    SuffixInWords(p, ".tif");
    SuffixInWords(p, ".tiff");
  }

  predicate Typed(t: DocumentType) {
    !Handwritten(t)
  }

  // ---- committed documents ----

  function Shas(documents: seq<Document>): set<Sha> {
    set d | d in documents :: d.sha
  }

  function OwnShas(documents: seq<Document>, id: nat): set<Sha> {
    set d | d in documents && d.owner == Some(id) :: d.sha
  }

  /** No two documents of the submission have the same bytes. */
  ghost predicate OwnDistinct(documents: seq<Document>, id: nat) {
    forall i, k :: 0 <= i < k < |documents| && documents[i].owner == Some(id) == documents[k].owner ==>
      documents[i].sha != documents[k].sha
  }

  lemma AppendOwn(documents: seq<Document>, d: Document, id: nat)
    requires OwnDistinct(documents, id) && d.owner == Some(id) && d.sha !in OwnShas(documents, id)
    ensures OwnDistinct(documents + [d], id)
    ensures OwnShas(documents + [d], id) == OwnShas(documents, id) + {d.sha}
    ensures Shas(documents + [d]) == Shas(documents) + {d.sha}
  {
  }

  lemma AppendOthers(documents: seq<Document>, more: seq<Document>, id: nat)
    requires OwnDistinct(documents, id) && forall d :: d in more ==> d.owner != Some(id)
    ensures OwnDistinct(documents + more, id)
    ensures OwnShas(documents + more, id) == OwnShas(documents, id)
    ensures Shas(documents) <= Shas(documents + more)
  {
  }

  /** Others never commit documents in this submission's name. */
  ghost predicate OthersOnly(world: World, id: nat) {
    forall n: nat, d :: d in world.arrivals(n) ==> d.owner != Some(id)
  }

  /** A successful download brings every file of the share that is not on the skip list. */
  ghost predicate Delivers(world: World, share: map<File, Sha>) {
    forall dest: map<File, Sha>, skip: set<File>, p ::
      world.fetch(dest, skip).Some? && p in share && p !in skip ==>
        p in world.fetch(dest, skip).value && world.fetch(dest, skip).value[p] == share[p]
  }

  ghost predicate ClassifiesEach(world: World) {
    forall files: seq<File> :: world.classify(files).Some? ==>
      forall f :: f in files ==> f in world.classify(files).value
  }

  predicate NameSkipped(skipped: seq<Skipped>, path: File) {
    exists e | e in skipped :: e.filename == NameOf(path)
  }

  ghost predicate Distinct(files: seq<File>) {
    forall i, k :: 0 <= i < k < |files| ==> files[i] != files[k]
  }

  ghost predicate DistinctContents(dest: map<File, Sha>, files: seq<File>) {
    && (forall p :: p in files ==> p in dest)
    && (forall p, q :: p in files && q in files && dest[p] == dest[q] ==> p == q)
  }

  function Paths(entries: seq<Entry>): seq<File> {
    seq(|entries|, i requires 0 <= i < |entries| => entries[i].path)
  }

  lemma OwnAmongAll(documents: seq<Document>, id: nat)
    ensures OwnShas(documents, id) <= Shas(documents)
  {
  }

  lemma AnotherEntry(skipped: seq<Skipped>, e: Skipped, p: File)
    ensures NameSkipped(skipped + [e], p) <==> NameSkipped(skipped, p) || e.filename == NameOf(p)
    ensures forall q :: NameSkipped(skipped, q) ==> NameSkipped(skipped + [e], q)
  {
  }

  /** The entry of a file whose contents are somebody else's document, or another file of the run. */
  ghost predicate Truthful(e: Skipped, p: File, dest: map<File, Sha>, documents: seq<Document>, kept: seq<File>, id: nat) {
    && p in dest && e.filename == NameOf(p) && e.status == "DUPLICATE" && e.duplicateOf.Some?
    && match e.duplicateOf.value
       case OfDocument(k) => exists d :: d in documents && d.id == k && d.sha == dest[p] && d.owner != Some(id)
       case OfFile(name) => exists q :: q in kept && Precedes(q, p) && q in dest && dest[q] == dest[p] && NameOf(q) == name
  }

  ghost predicate AllTruthful(entries: seq<Skipped>, files: seq<File>, dest: map<File, Sha>, documents: seq<Document>,
                              kept: seq<File>, id: nat) {
    forall e :: e in entries ==> exists p :: p in files && Truthful(e, p, dest, documents, kept, id)
  }

  lemma TruthStays(entries: seq<Skipped>, files: seq<File>, dest: map<File, Sha>, documents: seq<Document>,
                   documents': seq<Document>, kept: seq<File>, kept': seq<File>, id: nat)
    requires AllTruthful(entries, files, dest, documents, kept, id)
    requires documents <= documents' && forall p :: p in kept ==> p in kept'
    ensures AllTruthful(entries, files, dest, documents', kept', id)
  {
  }

  /** A file that is left out is the submission's own already, or has an entry that says whose copy it is. */
  ghost predicate LeftOut(p: File, entries: seq<Skipped>, dest: map<File, Sha>, documents: seq<Document>,
                          kept: seq<File>, id: nat)
    requires p in dest
  {
    dest[p] in OwnShas(documents, id) || exists e :: e in entries && Truthful(e, p, dest, documents, kept, id)
  }

  ghost predicate AllLeftOut(files: seq<File>, entries: seq<Skipped>, dest: map<File, Sha>, documents: seq<Document>,
                             kept: seq<File>, id: nat)
    requires forall p :: p in files ==> p in dest
  {
    forall p :: p in files && p !in kept ==> LeftOut(p, entries, dest, documents, kept, id)
  }

  lemma LeftOutStays(files: seq<File>, entries: seq<Skipped>, entries': seq<Skipped>, dest: map<File, Sha>,
                     documents: seq<Document>, documents': seq<Document>, kept: seq<File>, kept': seq<File>, id: nat)
    requires (forall p :: p in files ==> p in dest) && AllLeftOut(files, entries, dest, documents, kept, id)
    requires documents <= documents' && entries <= entries' && forall p :: p in kept ==> p in kept'
    ensures AllLeftOut(files, entries', dest, documents', kept', id)
  {
    hide Precedes;
    forall p | p in files && p !in kept' ensures LeftOut(p, entries', dest, documents', kept', id) {
      if dest[p] !in OwnShas(documents, id) {
        var e :| e in entries && Truthful(e, p, dest, documents, kept, id);
        assert e in entries' && Truthful(e, p, dest, documents', kept', id);
      }
    }
  }

  lemma CopyLeftOut(p: File, entries: seq<Skipped>, e: Skipped, dest: map<File, Sha>, documents: seq<Document>,
                    kept: seq<File>, id: nat)
    requires p in dest && Truthful(e, p, dest, documents, kept, id)
    ensures LeftOut(p, entries + [e], dest, documents, kept, id)
  {
    hide Truthful, OwnShas;
    assert e in entries + [e];
  }

  lemma OneMoreLeftOut(files: seq<File>, p: File, entries: seq<Skipped>, dest: map<File, Sha>, documents: seq<Document>,
                       kept: seq<File>, id: nat)
    requires (forall q :: q in files ==> q in dest) && AllLeftOut(files, entries, dest, documents, kept, id) && p in dest
    requires p in kept || LeftOut(p, entries, dest, documents, kept, id)
    ensures AllLeftOut(files + [p], entries, dest, documents, kept, id)
  {
    hide LeftOut;
  }

  lemma OrderedOnce(files: seq<File>)
    requires InOrder(files)
    ensures Distinct(files)
  {
    forall i, k | 0 <= i < k < |files| ensures files[i] != files[k] {
      Irreflexive(files[i]);
    }
  }

  lemma LeftOutNamed(files: seq<File>, entries: seq<Skipped>, dest: map<File, Sha>, documents: seq<Document>,
                     kept: seq<File>, id: nat)
    requires (forall p :: p in files ==> p in dest) && AllLeftOut(files, entries, dest, documents, kept, id)
    ensures forall p :: p in files && p !in kept ==> dest[p] in OwnShas(documents, id) || NameSkipped(entries, p)
  {
    hide OwnShas, Precedes;
  }

  /** What the look-up found out about a file is the truth about it. */
  lemma IsTruthful(e: Skipped, files: seq<File>, i: nat, seen: map<Sha, string>, dest: map<File, Sha>,
                   documents: seq<Document>, kept: seq<File>, id: nat)
    requires i < |files| && InOrder(files) && files[i] in dest && forall q :: q in kept ==> q in dest && q in files[..i]
    requires forall h :: h in seen ==> exists q :: q in kept && dest[q] == h && NameOf(q) == seen[h]
    requires e.filename == NameOf(files[i]) && e.status == DUPLICATE && e.duplicateOf.Some?
    requires match e.duplicateOf.value
      case OfDocument(k) => exists d :: d in documents && d.id == k && d.sha == dest[files[i]] && d.owner != Some(id)
      case OfFile(name) => dest[files[i]] in seen && name == seen[dest[files[i]]]
    ensures Truthful(e, files[i], dest, documents, kept, id)
  {
    hide Precedes, NameOf;
    assert forall q :: q in files[..i] ==> Precedes(q, files[i]);
  }

  lemma LastInOrder(files: seq<File>, i: nat, kept: seq<File>)
    requires i < |files| && InOrder(files) && InOrder(kept) && forall q :: q in kept ==> q in files[..i]
    ensures InOrder(kept + [files[i]]) && files[i] !in kept
  {
    if files[i] in kept {
      Irreflexive(files[i]);
    }
    hide Precedes;
    assert forall q :: q in files[..i] ==> Precedes(q, files[i]);
  }

  /** Where the loop over the files stands: what it has kept, what it has said, and whose hashes it knows. */
  ghost predicate Sifted(i: nat, files: seq<File>, dest: map<File, Sha>, documents: seq<Document>, kept: seq<File>,
                         entries: seq<Skipped>, seen: map<Sha, string>, id: nat)
    requires i <= |files| && forall p :: p in files ==> p in dest
  {
    && (forall p :: p in kept ==> p in files[..i] && p in dest && dest[p] in seen)
    && (forall h :: h in seen ==> exists q :: q in kept && dest[q] == h && NameOf(q) == seen[h])
    && AllTruthful(entries, files, dest, documents, kept, id)
    && InOrder(kept) && DistinctContents(dest, kept)
    && AllLeftOut(files[..i], entries, dest, documents, kept, id)
  }

  lemma SiftedMeans(i: nat, files: seq<File>, dest: map<File, Sha>, documents: seq<Document>, kept: seq<File>,
                    entries: seq<Skipped>, seen: map<Sha, string>, id: nat)
    requires i <= |files| && (forall p :: p in files ==> p in dest) && Sifted(i, files, dest, documents, kept, entries, seen, id)
    ensures (forall p :: p in kept ==> p in files) && InOrder(kept) && DistinctContents(dest, kept)
    ensures AllTruthful(entries, files, dest, documents, kept, id)
    ensures AllLeftOut(files[..i], entries, dest, documents, kept, id)
  {
    hide InOrder, DistinctContents, AllTruthful, AllLeftOut;
  }

  lemma NothingSifted(files: seq<File>, dest: map<File, Sha>, documents: seq<Document>, id: nat)
    requires forall p :: p in files ==> p in dest
    ensures Sifted(0, files, dest, documents, [], [], map[], id)
  {
  }

  lemma SiftedStays(i: nat, files: seq<File>, dest: map<File, Sha>, documents: seq<Document>, documents': seq<Document>,
                    kept: seq<File>, entries: seq<Skipped>, seen: map<Sha, string>, id: nat)
    requires i <= |files| && (forall p :: p in files ==> p in dest) && Sifted(i, files, dest, documents, kept, entries, seen, id)
    requires documents <= documents'
    ensures Sifted(i, files, dest, documents', kept, entries, seen, id)
  {
    TruthStays(entries, files, dest, documents, documents', kept, kept, id);
    LeftOutStays(files[..i], entries, entries, dest, documents, documents', kept, kept, id);
    hide InOrder, DistinctContents, AllTruthful, AllLeftOut;
  }

  /** A file of the submission's own is passed over. */
  lemma SiftOwn(i: nat, files: seq<File>, dest: map<File, Sha>, documents: seq<Document>, kept: seq<File>,
                entries: seq<Skipped>, seen: map<Sha, string>, id: nat)
    requires i < |files| && (forall p :: p in files ==> p in dest) && Sifted(i, files, dest, documents, kept, entries, seen, id)
    requires dest[files[i]] in OwnShas(documents, id)
    ensures Sifted(i + 1, files, dest, documents, kept, entries, seen, id)
  {
    OneMoreLeftOut(files[..i], files[i], entries, dest, documents, kept, id);
    hide InOrder, DistinctContents, AllTruthful, AllLeftOut, OwnShas;
    assert files[..i + 1] == files[..i] + [files[i]];
  }

  /** A copy gets an entry. */
  lemma SiftCopy(i: nat, files: seq<File>, dest: map<File, Sha>, documents: seq<Document>, kept: seq<File>,
                 entries: seq<Skipped>, seen: map<Sha, string>, id: nat, e: Skipped)
    requires i < |files| && InOrder(files) && forall p :: p in files ==> p in dest
    requires Sifted(i, files, dest, documents, kept, entries, seen, id)
    requires e.filename == NameOf(files[i]) && e.status == DUPLICATE && e.duplicateOf.Some?
    requires match e.duplicateOf.value
      case OfDocument(k) => exists d :: d in documents && d.id == k && d.sha == dest[files[i]] && d.owner != Some(id)
      case OfFile(name) => dest[files[i]] in seen && name == seen[dest[files[i]]]
    ensures Sifted(i + 1, files, dest, documents, kept, entries + [e], seen, id)
  {
    hide DistinctContents, AllTruthful, AllLeftOut, OwnShas, NameOf, Truthful, LeftOut, InOrder;
    IsTruthful(e, files, i, seen, dest, documents, kept, id);
    OneMoreTruth(entries, e, files[i], files, dest, documents, kept, id);
    LeftOutStays(files[..i], entries, entries + [e], dest, documents, documents, kept, kept, id);
    CopyLeftOut(files[i], entries, e, dest, documents, kept, id);
    OneMoreLeftOut(files[..i], files[i], entries + [e], dest, documents, kept, id);
    assert files[..i + 1] == files[..i] + [files[i]];
  }

  /** A new file is kept. */
  lemma SiftNew(i: nat, files: seq<File>, dest: map<File, Sha>, documents: seq<Document>, kept: seq<File>,
                entries: seq<Skipped>, seen: map<Sha, string>, id: nat)
    requires i < |files| && InOrder(files) && forall p :: p in files ==> p in dest
    requires Sifted(i, files, dest, documents, kept, entries, seen, id) && dest[files[i]] !in seen
    ensures Sifted(i + 1, files, dest, documents, kept + [files[i]], entries, seen[dest[files[i]] := NameOf(files[i])], id)
  {
    TruthStays(entries, files, dest, documents, documents, kept, kept + [files[i]], id);
    LeftOutStays(files[..i], entries, entries, dest, documents, documents, kept, kept + [files[i]], id);
    OneMoreLeftOut(files[..i], files[i], entries, dest, documents, kept + [files[i]], id);
    LastInOrder(files, i, kept);
    hide InOrder, AllTruthful, AllLeftOut, OwnShas, NameOf;
    assert files[..i + 1] == files[..i] + [files[i]];
  }

  lemma OneMoreTruth(entries: seq<Skipped>, e: Skipped, p: File, files: seq<File>, dest: map<File, Sha>,
                     documents: seq<Document>, kept: seq<File>, id: nat)
    requires AllTruthful(entries, files, dest, documents, kept, id) && p in files && Truthful(e, p, dest, documents, kept, id)
    ensures AllTruthful(entries + [e], files, dest, documents, kept, id)
  {
  }

  /** What a run found to do, with the documents that were committed when it had looked, and the files
      that were classified. */
  datatype Plan = Plan(files: seq<File>, toClassify: seq<File>, duplicates: seq<Skipped>, seen: seq<Document>,
                       classified: seq<Entry>)

  // ---- what a run records, from the answers it was given ----

  function Failures(files: seq<File>, outcomes: map<File, Outcome>): seq<Skipped>
    requires forall p :: p in files ==> p in outcomes
  {
    if files == [] then []
    else
      var p := files[|files| - 1];
      Failures(files[..|files| - 1], outcomes)
      + if outcomes[p].Failure? then [Skipped(NameOf(p), "CLASSIFY_FAILED", None)] else []
  }

  function Successes(files: seq<File>, outcomes: map<File, Outcome>): seq<Entry>
    requires forall p :: p in files ==> p in outcomes
  {
    if files == [] then []
    else
      var p := files[|files| - 1];
      Successes(files[..|files| - 1], outcomes)
      + if outcomes[p].Success? then [Entry(p, outcomes[p].value)] else []
  }

  /** Typed documents are only read from PDFs. */
  predicate RequiresPdf(p: File, routed: Routed) {
    routed.As? && Typed(routed.documentType) && Lower(SuffixOf(p)) != ".pdf"
  }

  ghost predicate AllDiffer(dest: map<File, Sha>, entries: seq<Entry>) {
    forall i, k :: 0 <= i < k < |entries| ==>
      var p, q := entries[i].path, entries[k].path;
      p in dest && q in dest && p != q && dest[p] != dest[q]
  }

  /** The file's bytes are staged and new to the submission, and are what the share has under its path
      unless those are committed. */
  ghost predicate Ingestible(dest: map<File, Sha>, share: map<File, Sha>, documents: seq<Document>, id: nat, p: File)
    ensures Ingestible(dest, share, documents, id, p) ==> p in dest
  {
    && p in dest && dest[p] !in OwnShas(documents, id)
    && (p in share ==> dest[p] == share[p] || share[p] in Shas(documents))
  }

  lemma StaysIngestible(dest: map<File, Sha>, dest': map<File, Sha>, share: map<File, Sha>, documents: seq<Document>,
                        documents': seq<Document>, id: nat, p: File, q: File)
    requires Ingestible(dest, share, documents, id, q) && p in dest && dest[p] != dest[q]
    requires q in dest' && dest'[q] == dest[q]
    requires OwnShas(documents', id) <= OwnShas(documents, id) + {dest[p]} && Shas(documents) <= Shas(documents')
    ensures Ingestible(dest', share, documents', id, q)
  {
  }

  /** From position `start` on, every classified file can be ingested, and is as it was downloaded. */
  ghost predicate StagedFrom(start: nat, classified: seq<Entry>, downloaded: map<File, Sha>, dest: map<File, Sha>,
                             share: map<File, Sha>, documents: seq<Document>, id: nat) {
    forall i :: start <= i < |classified| ==>
      var p := classified[i].path;
      Ingestible(dest, share, documents, id, p) && p in downloaded && dest[p] == downloaded[p]
  }

  lemma FirstStaged(i: nat, classified: seq<Entry>, downloaded: map<File, Sha>, dest: map<File, Sha>,
                    share: map<File, Sha>, documents: seq<Document>, id: nat)
    requires i < |classified| && StagedFrom(i, classified, downloaded, dest, share, documents, id)
    ensures var p := classified[i].path;
      Ingestible(dest, share, documents, id, p) && p in downloaded && p in dest && dest[p] == downloaded[p]
  {
  }

  /** Handling one file leaves the later ones as they were. */
  lemma RestStaged(i: nat, classified: seq<Entry>, downloaded: map<File, Sha>, dest: map<File, Sha>,
                   dest': map<File, Sha>, share: map<File, Sha>, documents: seq<Document>, documents': seq<Document>, id: nat)
    requires i < |classified| && StagedFrom(i, classified, downloaded, dest, share, documents, id)
    requires AllDiffer(downloaded, classified) && classified[i].path in dest
    requires forall q :: q in dest && q != classified[i].path ==> q in dest' && dest'[q] == dest[q]
    requires OwnShas(documents', id) <= OwnShas(documents, id) + {dest[classified[i].path]}
    requires Shas(documents) <= Shas(documents')
    ensures StagedFrom(i + 1, classified, downloaded, dest', share, documents', id)
  {
    hide Shas, OwnShas;
    forall k | i < k < |classified|
      ensures var q := classified[k].path;
        Ingestible(dest', share, documents', id, q) && q in downloaded && dest'[q] == downloaded[q]
    {
      StaysIngestible(dest, dest', share, documents, documents', id, classified[i].path, classified[k].path);
    }
  }

  predicate ContentIn(dest: map<File, Sha>, p: File, shas: set<Sha>) {
    p in dest && dest[p] in shas
  }

  lemma PathsAt(entries: seq<Entry>)
    requires Distinct(Paths(entries))
    ensures forall i :: 0 <= i < |entries| ==> entries[i].path in Paths(entries)
    ensures forall i, k :: 0 <= i < k < |entries| ==> entries[i].path != entries[k].path
  {
    forall i | 0 <= i < |entries| ensures entries[i].path in Paths(entries) {
      assert Paths(entries)[i] == entries[i].path;
    }
    forall i, k | 0 <= i < k < |entries| ensures entries[i].path != entries[k].path {
      assert Paths(entries)[i] == entries[i].path && Paths(entries)[k] == entries[k].path;
    }
  }

  /** The classified files are still staged, and no two of them are the same or have the same bytes. */
  lemma Staged(files: seq<File>, outcomes: map<File, Outcome>, downloaded: map<File, Sha>, dest: map<File, Sha>,
               share: map<File, Sha>, documents: seq<Document>, id: nat)
    requires Distinct(files) && DistinctContents(downloaded, files)
    requires forall p :: p in files ==> p in outcomes
    requires forall p :: p in share ==> (p in downloaded && downloaded[p] == share[p]) || share[p] in Shas(documents)
    requires forall p :: p in files && outcomes[p].Success? ==>
      p in dest && dest[p] == downloaded[p] && dest[p] !in OwnShas(documents, id)
    ensures AllDiffer(downloaded, Successes(files, outcomes))
    ensures StagedFrom(0, Successes(files, outcomes), downloaded, dest, share, documents, id)
  {
    hide Shas, OwnShas;
    SuccessesOnce(files, outcomes);
    PathsAt(Successes(files, outcomes));
  }

  /** The status a classified file is skipped with, or none if it is ingested without a hitch. */
  function Refusal(p: File, routed: Routed, world: World): Option<string> {
    if routed.Skip? then Some(routed.status)
    else if RequiresPdf(p, routed) then Some("TYPED_REQUIRES_PDF")
    else match world.ingest(p)
      case Rejected(code) => Some(code)
      case Raised => Some("INGEST_FAILED")
      case Committed(_, _, raisesAfter, _) => if raisesAfter then Some("INGEST_FAILED") else None
  }

  function Refused(p: File, status: Option<string>): seq<Skipped> {
    if status.Some? then [Skipped(NameOf(p), status.value, None)] else []
  }

  /** The entries of the first `n` classified files, routed as the neighbour and Nikah passes say. */
  function Refusals(entries: seq<Entry>, batchName: string, world: World, n: nat): seq<Skipped>
    requires n <= |entries|
  {
    if n == 0 then []
    else
      Refusals(entries, batchName, world, n - 1)
      + Refused(entries[n - 1].path, Refusal(entries[n - 1].path, RoutedAs(entries, n - 1, batchName), world))
  }

  /** Every file is either classified, once, or has an entry. */
  lemma {:induction false} SuccessesOnce(files: seq<File>, outcomes: map<File, Outcome>)
    requires Distinct(files) && forall p :: p in files ==> p in outcomes
    ensures Distinct(Paths(Successes(files, outcomes)))
    ensures forall p :: p in Paths(Successes(files, outcomes)) <==> p in files && outcomes[p].Success?
  {
    if files != [] {
      var n := |files| - 1;
      var p, rest := files[n], files[..n];
      SuccessesOnce(rest, outcomes);
      assert files == rest + [p] && p !in rest;
      if outcomes[p].Success? {
        assert Paths(Successes(files, outcomes)) == Paths(Successes(rest, outcomes)) + [p];
      } else {
        assert Successes(files, outcomes) == Successes(rest, outcomes);
      }
    }
  }

  /** The classified files, in the order of the files, each with the classification it was given. */
  ghost predicate ClassifiedInOrder(classified: seq<Entry>, files: seq<File>, outcomes: map<File, Outcome>) {
    && InOrder(Paths(classified))
    && (forall e :: e in classified ==> e.path in files && e.path in outcomes && outcomes[e.path] == Success(e.classification))
    && (forall p :: p in files && p in outcomes && outcomes[p].Success? ==> Entry(p, outcomes[p].value) in classified)
  }

  lemma {:induction false} SuccessesInOrder(files: seq<File>, outcomes: map<File, Outcome>)
    requires InOrder(files) && forall p :: p in files ==> p in outcomes
    ensures ClassifiedInOrder(Successes(files, outcomes), files, outcomes)
  {
    hide Precedes;
    if files != [] {
      var n := |files| - 1;
      var p, rest := files[n], files[..n];
      SuccessesInOrder(rest, outcomes);
      assert files == rest + [p];
      var before := Successes(rest, outcomes);
      if outcomes[p].Success? {
        OneMoreInOrder(before, rest, p, outcomes);
      } else {
        assert Successes(files, outcomes) == before;
      }
    }
  }

  lemma OneMoreInOrder(before: seq<Entry>, files: seq<File>, p: File, outcomes: map<File, Outcome>)
    requires ClassifiedInOrder(before, files, outcomes) && InOrder(files + [p]) && p in outcomes && outcomes[p].Success?
    ensures ClassifiedInOrder(before + [Entry(p, outcomes[p].value)], files + [p], outcomes)
  {
    hide Precedes;
    var after := before + [Entry(p, outcomes[p].value)];
    assert Paths(after) == Paths(before) + [p];
    forall e | e in before ensures Precedes(e.path, p) {
      var k :| 0 <= k < |files| && files[k] == e.path;
      assert Precedes((files + [p])[k], (files + [p])[|files|]);
    }
    assert InOrder(Paths(after)) by {
      forall i | 0 <= i < |before| ensures Precedes(Paths(before)[i], p) {
        assert before[i] in before;
      }
    }
  }

  lemma {:induction false} FailuresSkipped(files: seq<File>, outcomes: map<File, Outcome>, p: File)
    requires (forall q :: q in files ==> q in outcomes) && p in files && outcomes[p].Failure?
    ensures NameSkipped(Failures(files, outcomes), p)
  {
    hide NameSkipped;
    var n := |files| - 1;
    if outcomes[files[n]].Failure? {
      AnotherEntry(Failures(files[..n], outcomes), Skipped(NameOf(files[n]), "CLASSIFY_FAILED", None), p);
    }
    if p != files[n] {
      assert files == files[..n] + [files[n]];
      FailuresSkipped(files[..n], outcomes, p);
      if outcomes[files[n]].Success? {
        assert Failures(files, outcomes) == Failures(files[..n], outcomes);
      }
    }
  }

  lemma {:induction false} RefusedAreSkipped(entries: seq<Entry>, batchName: string, world: World, n: nat, i: nat)
    requires i < n <= |entries| && Refusal(entries[i].path, RoutedAs(entries, i, batchName), world).Some?
    ensures NameSkipped(Refusals(entries, batchName, world, n), entries[i].path)
  {
    hide RoutedAs, Refusal;
    var refusal := Refusal(entries[n - 1].path, RoutedAs(entries, n - 1, batchName), world);
    if i < n - 1 {
      RefusedAreSkipped(entries, batchName, world, n - 1, i);
    }
    if refusal.Some? {
      AnotherEntry(Refusals(entries, batchName, world, n - 1), Skipped(NameOf(entries[n - 1].path), refusal.value, None),
                   entries[i].path);
    }
  }

  // ---- the entries in words ----

  /** The seven types of printed forms, and what only PDFs are read as. */
  predicate MayRead(p: File, t: DocumentType) {
    || t !in {TypedBorang4B, TypedNikahLegacy, TypedNikahModern, TypedCeraiLegacy, TypedCeraiModern, TypedRujukLegacy,
              TypedRujukModern}
    || EndsWith(p, ".pdf")
  }

  lemma MayReadWhat(p: File, t: DocumentType)
    ensures MayRead(p, t) <==> !RequiresPdf(p, As(t))
  {
    hide EndsWith, SuffixOf, Lower, Handwritten;
    HandwrittenOrTyped(t);
    SuffixInWords(p, ".pdf");
  }

  /** A classified file gets an entry with this status: it could not be routed, it is typed but no PDF,
      it was refused with a code of its own, or ingesting it raised, be it before or after the commit. */
  predicate SkippedAs(p: File, routed: Routed, answer: IngestAnswer, status: string) {
    match routed
    case Skip(s) => status == s
    case As(t) =>
      if !MayRead(p, t) then status == "TYPED_REQUIRES_PDF"
      else match answer
        case Rejected(code) => status == code
        case Raised => status == "INGEST_FAILED"
        case Committed(_, _, raisesAfter, _) => raisesAfter && status == "INGEST_FAILED"
  }

  lemma RefusalInWords(p: File, routed: Routed, world: World, status: string)
    ensures Refusal(p, routed, world) == Some(status) <==> SkippedAs(p, routed, world.ingest(p), status)
  {
    hide MayRead, RequiresPdf;
    if routed.As? {
      MayReadWhat(p, routed.documentType);
    }
  }

  /** Where an entry of a run comes from. */
  ghost predicate FromFailure(e: Skipped, files: seq<File>, outcomes: map<File, Outcome>) {
    exists p :: p in files && p in outcomes && outcomes[p].Failure? && e == Skipped(NameOf(p), "CLASSIFY_FAILED", None)
  }

  ghost predicate FromEntry(e: Skipped, classified: seq<Entry>, i: nat, batchName: string, world: World) {
    && i < |classified| && e.filename == NameOf(classified[i].path) && e.duplicateOf == None
    && SkippedAs(classified[i].path, RoutedAs(classified, i, batchName), world.ingest(classified[i].path), e.status)
  }

  lemma {:induction false} FailuresInWords(files: seq<File>, outcomes: map<File, Outcome>, e: Skipped)
    requires forall p :: p in files ==> p in outcomes
    ensures e in Failures(files, outcomes) <==> FromFailure(e, files, outcomes)
  {
    if files != [] {
      var n := |files| - 1;
      assert files == files[..n] + [files[n]];
      FailuresInWords(files[..n], outcomes, e);
    }
  }

  lemma {:induction false} RefusalsInWords(entries: seq<Entry>, batchName: string, world: World, n: nat, e: Skipped)
    requires n <= |entries|
    ensures e in Refusals(entries, batchName, world, n) <==> exists i: nat :: i < n && FromEntry(e, entries, i, batchName, world)
  {
    hide FromEntry, Refusal, RoutedAs, Refused;
    if n > 0 {
      RefusalsInWords(entries, batchName, world, n - 1, e);
      RefusedInWords(entries, batchName, world, n - 1, e);
    }
  }

  lemma RefusedInWords(entries: seq<Entry>, batchName: string, world: World, i: nat, e: Skipped)
    requires i < |entries|
    ensures e in Refused(entries[i].path, Refusal(entries[i].path, RoutedAs(entries, i, batchName), world))
            <==> FromEntry(e, entries, i, batchName, world)
  {
    RefusalInWords(entries[i].path, RoutedAs(entries, i, batchName), world, e.status);
    hide RoutedAs, SkippedAs, Refusal, NameOf;
  }

  /** Exactly these entries: one for every duplicate, for every file whose classifying failed, and for
      every classified file that was skipped, with the status it was skipped with. */
  ghost predicate Told(skipped: seq<Skipped>, plan: Plan, outcomes: map<File, Outcome>, batchName: string, world: World) {
    forall e :: e in skipped <==>
      || e in plan.duplicates
      || FromFailure(e, plan.toClassify, outcomes)
      || exists i: nat :: FromEntry(e, plan.classified, i, batchName, world)
  }

  lemma EntriesTold(plan: Plan, outcomes: map<File, Outcome>, batchName: string, world: World)
    requires (forall p :: p in plan.toClassify ==> p in outcomes)
    ensures Told(plan.duplicates + Failures(plan.toClassify, outcomes)
                 + Refusals(plan.classified, batchName, world, |plan.classified|), plan, outcomes, batchName, world)
  {
    hide FromFailure, FromEntry;
    var skipped := plan.duplicates + Failures(plan.toClassify, outcomes)
                   + Refusals(plan.classified, batchName, world, |plan.classified|);
    forall e
      ensures e in skipped <==>
        || e in plan.duplicates
        || FromFailure(e, plan.toClassify, outcomes)
        || exists i: nat :: FromEntry(e, plan.classified, i, batchName, world)
    {
      FailuresInWords(plan.toClassify, outcomes, e);
      RefusalsInWords(plan.classified, batchName, world, |plan.classified|, e);
      forall i: nat | FromEntry(e, plan.classified, i, batchName, world) ensures i < |plan.classified| {
        EntryIndex(e, plan.classified, i, batchName, world);
      }
    }
  }

  lemma EntryIndex(e: Skipped, classified: seq<Entry>, i: nat, batchName: string, world: World)
    requires FromEntry(e, classified, i, batchName, world)
    ensures i < |classified|
  {
  }

  lemma SkippedInEither(a: seq<Skipped>, b: seq<Skipped>, p: File)
    ensures NameSkipped(a + b, p) <==> NameSkipped(a, p) || NameSkipped(b, p)
  {
  }

  /** A file that was looked at has its contents committed, or one of the entries has its name. */
  lemma AccountedFor(plan: Plan, outcomes: map<File, Outcome>, world: World, batchName: string, shas: set<Sha>,
                     content: Sha, p: File)
    requires Distinct(plan.toClassify) && forall q :: q in plan.toClassify ==> q in outcomes
    requires p in plan.toClassify || content in shas || NameSkipped(plan.duplicates, p)
    requires var classified := Successes(plan.toClassify, outcomes);
      forall i :: 0 <= i < |classified| && classified[i].path == p ==>
        content in shas || Refusal(p, RoutedAs(classified, i, batchName), world).Some?
    ensures var classified := Successes(plan.toClassify, outcomes);
      content in shas || NameSkipped(plan.duplicates + Failures(plan.toClassify, outcomes)
                                     + Refusals(classified, batchName, world, |classified|), p)
  {
    hide RoutedAs, Refusal, NameSkipped;
    var classified, failures := Successes(plan.toClassify, outcomes), Failures(plan.toClassify, outcomes);
    var refusals := Refusals(classified, batchName, world, |classified|);
    SkippedInEither(plan.duplicates, failures, p);
    SkippedInEither(plan.duplicates + failures, refusals, p);
    if p in plan.toClassify && outcomes[p].Failure? {
      FailuresSkipped(plan.toClassify, outcomes, p);
    } else if p in plan.toClassify && content !in shas {
      SuccessesOnce(plan.toClassify, outcomes);
      assert p in Paths(classified);
      var i :| 0 <= i < |Paths(classified)| && Paths(classified)[i] == p;
      assert classified[i].path == p;
      RefusedAreSkipped(classified, batchName, world, |classified|, i);
    }
  }

  /** The file's bytes are committed as a document of the submission, ... */
  predicate Stores(p: File, routed: Routed, world: World) {
    routed.As? && MayRead(p, routed.documentType) && world.ingest(p).Committed?
  }

  /** ... and the downloader is told to leave the file out from now on. */
  predicate Lists(p: File, routed: Routed, world: World) {
    Stores(p, routed, world) && !world.ingest(p).raisesAfter && world.ingest(p).recorded
  }

  ghost predicate StoresAt(classified: seq<Entry>, i: nat, batchName: string, world: World) {
    i < |classified| && Stores(classified[i].path, RoutedAs(classified, i, batchName), world)
  }

  /** Of the first `end` classified files those that store are committed, ... */
  ghost predicate Stored(end: nat, classified: seq<Entry>, downloaded: map<File, Sha>, shas: set<Sha>, batchName: string,
                         world: World) {
    forall i: nat :: i < end && StoresAt(classified, i, batchName, world) ==>
      ContentIn(downloaded, classified[i].path, shas)
  }

  /** ... and nothing else of the submission is new. */
  ghost predicate NoneBut(own: set<Sha>, before: set<Sha>, classified: seq<Entry>, downloaded: map<File, Sha>,
                          batchName: string, world: World) {
    forall h :: h in own && h !in before ==>
      exists i: nat ::
        i < |classified| && StoresAt(classified, i, batchName, world) && ContentIn(downloaded, classified[i].path, {h})
  }

  lemma OneStored(i: nat, classified: seq<Entry>, downloaded: map<File, Sha>, shas: set<Sha>, shas': set<Sha>,
                  batchName: string, world: World)
    requires i < |classified| && Stored(i, classified, downloaded, shas, batchName, world) && shas <= shas'
    requires StoresAt(classified, i, batchName, world) ==> ContentIn(downloaded, classified[i].path, shas')
    ensures Stored(i + 1, classified, downloaded, shas', batchName, world)
  {
    hide StoresAt;
  }

  lemma StoredStays(end: nat, classified: seq<Entry>, downloaded: map<File, Sha>, shas: set<Sha>, shas': set<Sha>,
                    batchName: string, world: World)
    requires end <= |classified| && Stored(end, classified, downloaded, shas, batchName, world) && shas <= shas'
    ensures Stored(end, classified, downloaded, shas', batchName, world)
  {
    hide StoresAt;
    forall i: nat | i < end && StoresAt(classified, i, batchName, world)
      ensures ContentIn(downloaded, classified[i].path, shas')
    {
      assert ContentIn(downloaded, classified[i].path, shas);
    }
  }

  lemma OneMoreOwn(i: nat, own: set<Sha>, own': set<Sha>, before: set<Sha>, classified: seq<Entry>,
                   downloaded: map<File, Sha>, batchName: string, world: World)
    requires i < |classified| && NoneBut(own, before, classified, downloaded, batchName, world)
    requires classified[i].path in downloaded && own' <= own + {downloaded[classified[i].path]}
    requires !StoresAt(classified, i, batchName, world) ==> own' == own
    ensures NoneBut(own', before, classified, downloaded, batchName, world)
  {
    hide StoresAt;
    forall h | h in own' && h !in before
      ensures exists k: nat ::
        k < |classified| && StoresAt(classified, k, batchName, world) && ContentIn(downloaded, classified[k].path, {h})
    {
      if h !in own {
        assert StoresAt(classified, i, batchName, world) && ContentIn(downloaded, classified[i].path, {h});
      }
    }
  }

  lemma NothingNew(own: set<Sha>, classified: seq<Entry>, downloaded: map<File, Sha>, batchName: string, world: World)
    ensures NoneBut(own, own, classified, downloaded, batchName, world)
  {
  }

  ghost predicate ListsAt(classified: seq<Entry>, i: nat, batchName: string, world: World) {
    i < |classified| && Lists(classified[i].path, RoutedAs(classified, i, batchName), world)
  }

  /** The ledger has what it had, and those of the first `end` classified files that are listed. */
  ghost predicate Listed(end: nat, ledger: set<File>, before: set<File>, classified: seq<Entry>, batchName: string,
                         world: World)
    requires end <= |classified|
  {
    forall p :: p in ledger <==> p in before || exists i: nat ::
      i < end && ListsAt(classified, i, batchName, world) && classified[i].path == p
  }

  lemma OneListed(i: nat, ledger: set<File>, ledger': set<File>, before: set<File>, classified: seq<Entry>,
                  batchName: string, world: World)
    requires i < |classified| && Listed(i, ledger, before, classified, batchName, world)
    requires ledger' == if ListsAt(classified, i, batchName, world) then ledger + {classified[i].path} else ledger
    ensures Listed(i + 1, ledger', before, classified, batchName, world)
  {
    hide ListsAt;
  }

  lemma NothingStored(own: set<Sha>, ledger: set<File>, classified: seq<Entry>, downloaded: map<File, Sha>, shas: set<Sha>,
                      batchName: string, world: World)
    ensures Stored(0, classified, downloaded, shas, batchName, world)
    ensures NoneBut(own, own, classified, downloaded, batchName, world)
    ensures Listed(0, ledger, ledger, classified, batchName, world)
  {
  }

  /** What becomes of a classified file in a run: a PDF that can be routed and commits is in a document
      and has no entry of its own, a typed file that is no PDF is skipped for that and stores nothing, and
      no handwritten one is refused so by the run itself. */
  lemma WhatBecomes(plan: Plan, outcomes: map<File, Outcome>, downloaded: map<File, Sha>, shas: set<Sha>,
                    skipped: seq<Skipped>, batchName: string, world: World, i: nat)
    requires i < |plan.classified| && Told(skipped, plan, outcomes, batchName, world)
    requires Stored(|plan.classified|, plan.classified, downloaded, shas, batchName, world)
    ensures var p, routed := plan.classified[i].path, RoutedAs(plan.classified, i, batchName); var answer := world.ingest(p);
      && (routed.As? && EndsWith(p, ".pdf") && answer.Committed? && !answer.raisesAfter ==>
            ContentIn(downloaded, p, shas) && forall e :: !FromEntry(e, plan.classified, i, batchName, world))
      && (routed.As? && !EndsWith(p, ".pdf")
          && routed.documentType in {TypedBorang4B, TypedNikahLegacy, TypedNikahModern, TypedCeraiLegacy, TypedCeraiModern,
                                     TypedRujukLegacy, TypedRujukModern} ==>
            && Skipped(NameOf(p), "TYPED_REQUIRES_PDF", None) in skipped && !StoresAt(plan.classified, i, batchName, world)
            && forall e :: FromEntry(e, plan.classified, i, batchName, world) ==> e.status == "TYPED_REQUIRES_PDF")
      && (routed.As? && Handwritten(routed.documentType) && answer != Rejected("TYPED_REQUIRES_PDF") ==>
            forall e :: FromEntry(e, plan.classified, i, batchName, world) ==> e.status != "TYPED_REQUIRES_PDF")
      && (routed.Skip? ==> Skipped(NameOf(p), routed.status, None) in skipped)
  {
    hide EndsWith, RoutedAs, Handwritten;
    var p, routed := plan.classified[i].path, RoutedAs(plan.classified, i, batchName);
    if routed.As? {
      HandwrittenOrTyped(routed.documentType);
      assert FromEntry(Skipped(NameOf(p), "TYPED_REQUIRES_PDF", None), plan.classified, i, batchName, world)
        <==> SkippedAs(p, routed, world.ingest(p), "TYPED_REQUIRES_PDF");
    } else {
      assert FromEntry(Skipped(NameOf(p), routed.status, None), plan.classified, i, batchName, world);
    }
  }

  /** Each of the first `end` classified files has its contents committed, or is skipped with a status. */
  ghost predicate Handled(end: nat, classified: seq<Entry>, downloaded: map<File, Sha>, shas: set<Sha>, batchName: string,
                          world: World)
    requires end <= |classified|
  {
    forall i :: 0 <= i < end ==>
      || ContentIn(downloaded, classified[i].path, shas)
      || Refusal(classified[i].path, RoutedAs(classified, i, batchName), world).Some?
  }

  lemma NothingHandled(classified: seq<Entry>, downloaded: map<File, Sha>, shas: set<Sha>, batchName: string, world: World)
    ensures Handled(0, classified, downloaded, shas, batchName, world)
  {
  }

  lemma OneHandled(i: nat, classified: seq<Entry>, downloaded: map<File, Sha>, shas: set<Sha>, shas': set<Sha>,
                   batchName: string, world: World)
    requires i < |classified| && Handled(i, classified, downloaded, shas, batchName, world) && shas <= shas'
    requires || ContentIn(downloaded, classified[i].path, shas')
             || Refusal(classified[i].path, RoutedAs(classified, i, batchName), world).Some?
    ensures Handled(i + 1, classified, downloaded, shas', batchName, world)
  {
    hide RoutedAs, Refusal;
  }

  lemma HandledStays(end: nat, classified: seq<Entry>, downloaded: map<File, Sha>, shas: set<Sha>, shas': set<Sha>,
                     batchName: string, world: World)
    requires end <= |classified| && Handled(end, classified, downloaded, shas, batchName, world) && shas <= shas'
    ensures Handled(end, classified, downloaded, shas', batchName, world)
  {
    hide RoutedAs, Refusal;
  }

  lemma EveryFileAccountedFor(plan: Plan, outcomes: map<File, Outcome>, world: World, batchName: string,
                              share: map<File, Sha>, downloaded: map<File, Sha>, shas: set<Sha>)
    requires Distinct(plan.toClassify) && forall p :: p in plan.toClassify ==> p in outcomes
    requires forall p :: p in share ==> (p in downloaded && downloaded[p] == share[p]) || share[p] in shas
    requires forall p :: p in downloaded && Supported(p) ==>
      p in plan.toClassify || downloaded[p] in shas || NameSkipped(plan.duplicates, p)
    requires Handled(|Successes(plan.toClassify, outcomes)|, Successes(plan.toClassify, outcomes), downloaded, shas, batchName, world)
    ensures var classified := Successes(plan.toClassify, outcomes);
      var skipped := plan.duplicates + Failures(plan.toClassify, outcomes)
                     + Refusals(classified, batchName, world, |classified|);
      forall p :: p in share && Supported(p) ==> share[p] in shas || NameSkipped(skipped, p)
  {
    hide Supported, NameSkipped, RoutedAs, Refusal;
    forall p | p in share && Supported(p) && share[p] !in shas
      ensures var classified := Successes(plan.toClassify, outcomes);
        NameSkipped(plan.duplicates + Failures(plan.toClassify, outcomes)
                    + Refusals(classified, batchName, world, |classified|), p)
    {
      AccountedFor(plan, outcomes, world, batchName, shas, share[p], p);
    }
  }

  class Submission {
    const id: nat
    const share: map<File, Sha>
    const batchName: string
    var documents: seq<Document>
    // The worker's own volume: the download directory, and the paths listed as ingested.
    var dest: map<File, Sha>
    var ledger: set<File>
    var skipped: seq<Skipped>
    var clock: nat

    constructor (id: nat, share: map<File, Sha>, batchName: string, documents: seq<Document>)
      requires forall d :: d in documents ==> d.owner != Some(id)
      ensures this.id == id && this.share == share && this.documents == documents && Valid()
    {
      this.id, this.share, this.batchName := id, share, batchName;
      this.documents, dest, ledger, skipped, clock := documents, map[], {}, [], 0;
    }

    ghost predicate Valid()
      reads this
    {
      && OwnDistinct(documents, id)
      && forall p :: p in ledger && p in share ==> share[p] in Shas(documents)
    }

    /** Between two effects of the run others commit, and the worker may be killed. */
    method Step(world: World) returns (alive: bool)
      requires OthersOnly(world, id) && Valid()
      modifies this`documents, this`clock
      ensures Valid() && OwnShas(documents, id) == old(OwnShas(documents, id)) && old(Shas(documents)) <= Shas(documents)
      ensures documents == old(documents) + world.arrivals(old(clock))
    {
      AppendOthers(documents, world.arrivals(clock), id);
      documents := documents + world.arrivals(clock);
      clock := clock + 1;
      alive := clock <= world.killAt;
    }

    /** The supported files of the download directory, sorted. */
    method SupportedFiles() returns (files: seq<File>)
      ensures InOrder(files) && forall p :: p in files <==> p in dest && Supported(p)
    {
      hide Supported, InOrder, Inserted;
      files := [];
      var left := dest.Keys;
      assert InOrder(files) by { Alone(); }
      while left != {}
        invariant left <= dest.Keys && InOrder(files)
        invariant forall p :: p in files <==> p in dest && p !in left && Supported(p)
      {
        var p :| p in left;
        left := left - {p};
        if Supported(p) {
          InsertedInOrder(files, p);
          files := Inserted(files, p);
        }
      }
    }

    /** What the file duplicates, if anything; a new file's hash is noted in `seen`. */
    method DuplicateOf(p: File, digest: Sha, seen: map<Sha, string>) returns (v: Verdict, seen': map<Sha, string>)
      ensures v.New? ==> digest !in Shas(documents) && digest !in seen && seen' == seen[digest := NameOf(p)]
      ensures !v.New? ==> seen' == seen
      ensures v.AlreadyIngested? ==> digest in OwnShas(documents, id)
      ensures v.Duplicate? && v.original.OfDocument? ==>
                exists d :: d in documents && d.id == v.original.id && d.sha == digest && d.owner != Some(id)
      ensures v.Duplicate? && v.original.OfFile? ==>
                digest !in Shas(documents) && digest in seen && v.original.name == seen[digest]
    {
      seen' := seen;
      if exists d :: d in documents && d.sha == digest {
        var existing :| existing in documents && existing.sha == digest;
        v := if existing.owner == Some(id) then AlreadyIngested else Duplicate(OfDocument(existing.id));
      } else if digest in seen {
        v := Duplicate(OfFile(seen[digest]));
      } else {
        seen' := seen[digest := NameOf(p)];
        v := New;
      }
    }

    /** Which files are new: the others are already this submission's, or are recorded as duplicates. */
    method Deduplicate(files: seq<File>, world: World)
      returns (alive: bool, toClassify: seq<File>, skippedFiles: seq<Skipped>)
      requires Valid() && OthersOnly(world, id) && InOrder(files) && forall p :: p in files ==> p in dest
      modifies this`documents, this`clock
      ensures Valid() && OwnShas(documents, id) == old(OwnShas(documents, id)) && old(Shas(documents)) <= Shas(documents)
      ensures InOrder(toClassify) && forall p :: p in toClassify ==> p in files && dest[p] !in OwnShas(documents, id)
      ensures DistinctContents(dest, toClassify) && forall p :: p in toClassify ==> dest[p] !in old(Shas(documents))
      ensures alive ==> AllLeftOut(files, skippedFiles, dest, documents, toClassify, id)
      ensures AllTruthful(skippedFiles, files, dest, documents, toClassify, id)
    {
      hide Shas, OwnShas, Valid, OthersOnly, AllTruthful, AllLeftOut, Sifted, InOrder, DistinctContents;
      alive, toClassify, skippedFiles := true, [], [];
      var seen: map<Sha, string> := map[];
      assert Sifted(0, files, dest, documents, [], [], seen, id) by { NothingSifted(files, dest, documents, id); }
      for i := 0 to |files|
        invariant alive && Valid() && OwnShas(documents, id) == old(OwnShas(documents, id))
        invariant old(Shas(documents)) <= Shas(documents)
        invariant forall p :: p in toClassify ==> p in dest && dest[p] !in OwnShas(documents, id)
        invariant forall p :: p in toClassify ==> dest[p] !in old(Shas(documents))
        invariant Sifted(i, files, dest, documents, toClassify, skippedFiles, seen, id)
      {
        var p := files[i];
        SiftedStays(i, files, dest, documents, documents + world.arrivals(clock), toClassify, skippedFiles, seen, id);
        alive := Step(world);
        if !alive {
          SiftedMeans(i, files, dest, documents, toClassify, skippedFiles, seen, id);
          return;
        }
        var v, seen' := DuplicateOf(p, dest[p], seen);
        match v
        case AlreadyIngested =>
          SiftOwn(i, files, dest, documents, toClassify, skippedFiles, seen, id);
        case Duplicate(original) =>
          var e := Skipped(NameOf(p), DUPLICATE, Some(original));
          SiftCopy(i, files, dest, documents, toClassify, skippedFiles, seen, id, e);
          skippedFiles := skippedFiles + [e];
        case New =>
          OwnAmongAll(documents, id);
          SiftNew(i, files, dest, documents, toClassify, skippedFiles, seen, id);
          toClassify := toClassify + [p];
        seen := seen';
      }
      SiftedMeans(|files|, files, dest, documents, toClassify, skippedFiles, seen, id);
      assert files[..|files|] == files;
    }

    /** Keeps an entry for a file that could not be routed or ingested, and moves its bytes away. */
    method RecordSkipped(p: File, status: string, skippedFiles: seq<Skipped>, world: World)
      returns (alive: bool, skippedFiles': seq<Skipped>)
      requires Valid() && OthersOnly(world, id)
      modifies this`documents, this`clock, this`dest
      ensures Valid() && OwnShas(documents, id) == old(OwnShas(documents, id)) && old(Shas(documents)) <= Shas(documents)
      ensures dest == if alive && p in old(dest) && world.moves(p) then old(dest) - {p} else old(dest)
      ensures skippedFiles' == skippedFiles + [Skipped(NameOf(p), status, None)]
    {
      alive := Step(world);
      skippedFiles' := skippedFiles + [Skipped(NameOf(p), status, None)];
      if alive && p in dest && world.moves(p) {
        dest := dest - {p};
      }
    }

    /** Commits the document, then removes the staged copy if it can. */
    method Commit(p: File, newId: nat, unlinks: bool, world: World) returns (alive: bool)
      requires Valid() && OthersOnly(world, id) && p in dest && dest[p] !in OwnShas(documents, id)
      modifies this`documents, this`clock, this`dest
      ensures Valid() && old(Shas(documents)) <= Shas(documents)
      ensures OwnShas(documents, id) == old(OwnShas(documents, id))
              || (OwnShas(documents, id) == old(OwnShas(documents, id)) + {old(dest)[p]} && old(dest)[p] in Shas(documents))
      ensures dest == old(dest) || dest == old(dest) - {p}
      ensures alive ==> old(dest)[p] in Shas(documents) && dest == if unlinks then old(dest) - {p} else old(dest)
      ensures alive ==> Document(newId, old(dest)[p], Some(id)) in documents
    {
      hide Shas, OwnShas;
      alive := Step(world);
      if !alive {
        return;
      }
      AppendOwn(documents, Document(newId, dest[p], Some(id)), id);
      ghost var at := |documents|;
      documents := documents + [Document(newId, dest[p], Some(id))];
      assert documents[at] == Document(newId, old(dest)[p], Some(id));
      alive := Step(world);
      if !alive {
        return;
      }
      if unlinks {
        dest := dest - {p};
      }
      assert documents[at] == Document(newId, old(dest)[p], Some(id));
      alive := Step(world);
      assert documents[at] == Document(newId, old(dest)[p], Some(id));
    }

    /** Ingests one file. */
    method IngestOneFile(p: File, t: DocumentType, world: World) returns (alive: bool, r: Result<(), string>)
      requires Valid() && OthersOnly(world, id) && p in dest && dest[p] !in OwnShas(documents, id)
      modifies this`documents, this`clock, this`dest
      ensures Valid() && old(Shas(documents)) <= Shas(documents)
      ensures OwnShas(documents, id) == old(OwnShas(documents, id))
              || (OwnShas(documents, id) == old(OwnShas(documents, id)) + {old(dest)[p]} && old(dest)[p] in Shas(documents))
      ensures dest == old(dest) || dest == old(dest) - {p}
      ensures alive ==> r == if Refusal(p, As(t), world).Some? then Failure(Refusal(p, As(t), world).value) else Success(())
      ensures t in {TypedBorang4B, TypedNikahLegacy, TypedNikahModern, TypedCeraiLegacy, TypedCeraiModern, TypedRujukLegacy,
                    TypedRujukModern} && !EndsWith(p, ".pdf") ==>
                alive && r == Failure("TYPED_REQUIRES_PDF") && documents == old(documents) && dest == old(dest)
      ensures !MayRead(p, t) || !world.ingest(p).Committed? ==> OwnShas(documents, id) == old(OwnShas(documents, id))
      ensures alive && MayRead(p, t) && world.ingest(p).Rejected? ==> r == Failure(world.ingest(p).code)
      ensures alive && MayRead(p, t) && world.ingest(p).Raised? ==> r == Failure("INGEST_FAILED")
      ensures alive && MayRead(p, t) && world.ingest(p).Committed? ==>
                && Document(world.ingest(p).id, old(dest)[p], Some(id)) in documents && old(dest)[p] in Shas(documents)
                && r == if world.ingest(p).raisesAfter then Failure("INGEST_FAILED") else Success(())
    {
      hide SuffixOf, Lower, Typed, Shas, OwnShas, Valid, EndsWith, Handwritten;
      MayReadWhat(p, t);
      HandwrittenOrTyped(t);
      SuffixInWords(p, ".pdf");
      alive := true;
      if Typed(t) && Lower(SuffixOf(p)) != ".pdf" {
        return alive, Failure("TYPED_REQUIRES_PDF");
      }
      r := Failure("INGEST_FAILED");
      match world.ingest(p)
      case Rejected(code) => r := Failure(code);
      case Raised =>
      case Committed(newId, unlinks, raisesAfter, _) =>
        alive := Commit(p, newId, unlinks, world);
        if alive && !raisesAfter {
          r := Success(());
        }
    }

    /** The ledger line of an ingested file, if it can be written. */
    method AppendIngested(p: File, world: World) returns (alive: bool)
      requires Valid() && OthersOnly(world, id) && (p in share ==> share[p] in Shas(documents))
      modifies this`documents, this`clock, this`ledger
      ensures Valid() && OwnShas(documents, id) == old(OwnShas(documents, id)) && old(Shas(documents)) <= Shas(documents)
      ensures ledger == if alive && world.ingest(p).Committed? && world.ingest(p).recorded then old(ledger) + {p}
                        else old(ledger)
    {
      alive := Step(world);
      if alive && world.ingest(p).Committed? && world.ingest(p).recorded {
        ledger := ledger + {p};
      }
    }

    /** The files that were classified, in order; the others get an entry. */
    method Sort(toClassify: seq<File>, outcomes: map<File, Outcome>, skipped0: seq<Skipped>, world: World)
      returns (alive: bool, classified: seq<Entry>, skippedFiles: seq<Skipped>)
      requires Valid() && OthersOnly(world, id) && forall p :: p in toClassify ==> p in outcomes && p in dest
      modifies this`documents, this`clock, this`dest
      ensures Valid() && OwnShas(documents, id) == old(OwnShas(documents, id)) && old(Shas(documents)) <= Shas(documents)
      ensures forall p :: p in toClassify && outcomes[p].Success? ==> p in dest && dest[p] == old(dest)[p]
      ensures alive ==> classified == Successes(toClassify, outcomes)
      ensures alive ==> skippedFiles == skipped0 + Failures(toClassify, outcomes)
    {
      hide Shas, OwnShas, Valid, OthersOnly;
      alive, classified, skippedFiles := true, [], skipped0;
      for i := 0 to |toClassify|
        invariant alive && Valid() && OwnShas(documents, id) == old(OwnShas(documents, id))
        invariant old(Shas(documents)) <= Shas(documents)
        invariant forall p :: p in toClassify && outcomes[p].Success? ==> p in dest && dest[p] == old(dest)[p]
        invariant classified == Successes(toClassify[..i], outcomes)
        invariant skippedFiles == skipped0 + Failures(toClassify[..i], outcomes)
      {
        var p := toClassify[i];
        assert toClassify[..i + 1][..i] == toClassify[..i];
        match outcomes[p]
        case Failure(_) =>
          alive, skippedFiles := RecordSkipped(p, "CLASSIFY_FAILED", skippedFiles, world);
          if !alive {
            return;
          }
        case Success(c) =>
          classified := classified + [Entry(p, c)];
      }
      assert toClassify[..|toClassify|] == toClassify;
    }

    /** Ingests one classified file, or skips it. */
    method Handle(p: File, routed: Routed, skipped0: seq<Skipped>, world: World)
      returns (alive: bool, skippedFiles: seq<Skipped>)
      requires Valid() && OthersOnly(world, id) && Ingestible(dest, share, documents, id, p)
      modifies this`documents, this`clock, this`dest, this`ledger
      ensures Valid() && old(Shas(documents)) <= Shas(documents)
      ensures OwnShas(documents, id) <= old(OwnShas(documents, id)) + {old(dest)[p]}
      ensures dest.Keys <= old(dest).Keys && forall q :: q in old(dest) && q != p ==> q in dest && dest[q] == old(dest)[q]
      ensures alive ==> old(dest)[p] in Shas(documents) || Refusal(p, routed, world).Some?
      ensures alive ==> skippedFiles == skipped0 + Refused(p, Refusal(p, routed, world))
      ensures !Stores(p, routed, world) ==> OwnShas(documents, id) == old(OwnShas(documents, id))
      ensures alive && Stores(p, routed, world) ==> old(dest)[p] in Shas(documents)
      ensures alive ==> ledger == if Lists(p, routed, world) then old(ledger) + {p} else old(ledger)
    {
      hide Shas, OwnShas, Valid, OthersOnly, SuffixOf, RequiresPdf, EndsWith, MayRead;
      if routed.As? {
        MayReadWhat(p, routed.documentType);
      }
      skippedFiles := skipped0;
      var status;
      match routed {
        case As(t) =>
          var r;
          alive, r := IngestOneFile(p, t, world);
          if !alive {
            return;
          }
          if r.Success? {
            alive := AppendIngested(p, world);
            return;
          }
          status := r.error;
        case Skip(s) =>
          status := s;
      }
      alive, skippedFiles := RecordSkipped(p, status, skippedFiles, world);
    }

    /** `classified` is what `routed` was before the neighbour and Nikah passes. */
    method IngestAll(routed: seq<Entry>, ghost classified: seq<Entry>, ghost downloaded: map<File, Sha>,
                     skipped0: seq<Skipped>, world: World)
      returns (alive: bool, skippedFiles: seq<Skipped>)
      requires |classified| == |routed| && forall i :: 0 <= i < |routed| ==>
        routed[i].path == classified[i].path && Route(routed[i].classification) == RoutedAs(classified, i, batchName)
      requires Valid() && OthersOnly(world, id)
      requires StagedFrom(0, classified, downloaded, dest, share, documents, id) && AllDiffer(downloaded, classified)
      modifies this`documents, this`clock, this`dest, this`ledger
      ensures Valid() && old(Shas(documents)) <= Shas(documents)
      ensures alive ==> skippedFiles == skipped0 + Refusals(classified, batchName, world, |classified|)
      ensures alive ==> Handled(|classified|, classified, downloaded, Shas(documents), batchName, world)
      ensures alive ==> Stored(|classified|, classified, downloaded, Shas(documents), batchName, world)
      ensures NoneBut(OwnShas(documents, id), old(OwnShas(documents, id)), classified, downloaded, batchName, world)
      ensures alive ==> Listed(|classified|, ledger, old(ledger), classified, batchName, world)
    {
      hide Shas, OwnShas, Valid, OthersOnly, Route, RoutedAs, Refusal, RequiresPdf, Ingestible, StagedFrom, Handled, AllDiffer,
        Stored, NoneBut, Listed, Stores, Lists;
      alive, skippedFiles := true, skipped0;
      assert Stored(0, classified, downloaded, Shas(documents), batchName, world)
             && NoneBut(OwnShas(documents, id), OwnShas(documents, id), classified, downloaded, batchName, world)
             && Listed(0, ledger, ledger, classified, batchName, world) by {
        NothingStored(OwnShas(documents, id), ledger, classified, downloaded, Shas(documents), batchName, world);
      }
      assert Handled(0, classified, downloaded, Shas(documents), batchName, world) by {
        NothingHandled(classified, downloaded, Shas(documents), batchName, world);
      }
      for i := 0 to |routed|
        invariant alive && Valid() && old(Shas(documents)) <= Shas(documents)
        invariant StagedFrom(i, classified, downloaded, dest, share, documents, id)
        invariant skippedFiles == skipped0 + Refusals(classified, batchName, world, i)
        invariant Handled(i, classified, downloaded, Shas(documents), batchName, world)
        invariant Stored(i, classified, downloaded, Shas(documents), batchName, world)
        invariant NoneBut(OwnShas(documents, id), old(OwnShas(documents, id)), classified, downloaded, batchName, world)
        invariant Listed(i, ledger, old(ledger), classified, batchName, world)
      {
        ghost var dest0, documents0, ledger0 := dest, documents, ledger;
        FirstStaged(i, classified, downloaded, dest, share, documents, id);
        alive, skippedFiles := Handle(routed[i].path, Route(routed[i].classification), skippedFiles, world);
        OneMoreOwn(i, OwnShas(documents0, id), OwnShas(documents, id), old(OwnShas(documents, id)), classified, downloaded,
                   batchName, world);
        if !alive {
          return;
        }
        OneHandled(i, classified, downloaded, Shas(documents0), Shas(documents), batchName, world);
        OneStored(i, classified, downloaded, Shas(documents0), Shas(documents), batchName, world);
        OneListed(i, ledger0, ledger, old(ledger), classified, batchName, world);
        RestStaged(i, classified, downloaded, dest0, dest, share, documents0, documents, id);
      }
    }

    /** Leaves out what is not new and classifies the rest. */
    method Triage(world: World)
      returns (end: Option<RunEnd>, classified: seq<Entry>, skippedFiles: seq<Skipped>, ghost plan: Plan)
      requires Valid() && OthersOnly(world, id) && ClassifiesEach(world)
      modifies this`documents, this`clock, this`dest
      ensures Valid() && old(Shas(documents)) <= Shas(documents) && (end.Some? ==> !Fetched(end.value))
      ensures OwnShas(documents, id) == old(OwnShas(documents, id))
      ensures end.None? ==> world.classify(plan.toClassify).Some? && InOrder(plan.toClassify)
      ensures end.None? ==> classified == Successes(plan.toClassify, world.classify(plan.toClassify).value)
      ensures end.None? ==> skippedFiles == plan.duplicates + Failures(plan.toClassify, world.classify(plan.toClassify).value)
      ensures end.None? ==> AllTruthful(plan.duplicates, plan.files, old(dest), plan.seen, plan.toClassify, id)
      ensures end.None? ==> (forall p :: p in plan.files ==> p in old(dest))
                            && AllLeftOut(plan.files, plan.duplicates, old(dest), plan.seen, plan.toClassify, id)
      ensures end.None? ==> plan.classified == classified && Shas(plan.seen) <= Shas(documents)
      ensures DistinctContents(old(dest), plan.toClassify) &&
        forall p :: p in plan.toClassify ==> p in old(dest) && old(dest)[p] !in old(Shas(documents))
      ensures end.None? ==> forall p :: p in plan.files <==> p in old(dest) && Supported(p)
      ensures end.None? ==> forall p :: p in plan.toClassify ==> p in world.classify(plan.toClassify).value
      ensures end.None? ==> forall p :: p in plan.toClassify && world.classify(plan.toClassify).value[p].Success? ==>
                p in dest && dest[p] == old(dest)[p] && dest[p] !in OwnShas(documents, id)
      ensures end.None? ==> forall p :: p in old(dest) && Supported(p) ==>
                p in plan.toClassify || old(dest)[p] in Shas(documents) || NameSkipped(plan.duplicates, p)
    {
      hide Shas, OwnShas, OthersOnly, Supported, Valid, AllTruthful, AllLeftOut, Precedes;
      classified, skippedFiles := [], [];
      var files := SupportedFiles();
      var alive, toClassify, duplicates := Deduplicate(files, world);
      plan := Plan(files, toClassify, duplicates, documents, []);
      if !alive {
        return Some(Killed), classified, skippedFiles, plan;
      }
      var outcomes := world.classify(toClassify);
      if outcomes.None? {
        return Some(FailedRun), classified, skippedFiles, plan;
      }
      OwnAmongAll(documents, id);
      LeftOutNamed(files, duplicates, dest, documents, toClassify, id);
      alive, classified, skippedFiles := Sort(toClassify, outcomes.value, duplicates, world);
      plan := plan.(classified := classified);
      end := if alive then None else Some(Killed);
    }

    /** The file's contents are in a committed document, or its name is in `skipped_files`. */
    ghost predicate Accounted(p: File)
      requires p in share
      reads this
    {
      share[p] in Shas(documents) || NameSkipped(skipped, p)
    }

    /** What the download leaves: each file of the share is there, unless its contents are committed. */
    method Download(world: World) returns (end: Option<RunEnd>)
      requires Valid() && OthersOnly(world, id) && Delivers(world, share)
      modifies this`documents, this`clock, this`dest
      ensures Valid() && old(Shas(documents)) <= Shas(documents) && (end.Some? ==> !Fetched(end.value))
      ensures end.None? ==> forall p :: p in share ==> (p in dest && dest[p] == share[p]) || share[p] in Shas(documents)
      ensures OwnShas(documents, id) == old(OwnShas(documents, id))
      ensures end.None? ==> world.fetch(old(dest), ledger) == Some(dest)
    {
      hide Shas, OwnShas;
      var alive := Step(world);
      var fetched := world.fetch(dest, ledger);
      if !alive || fetched.None? {
        dest := world.partial(dest);
        return Some(if alive then FailedRun else Killed);
      }
      dest := fetched.value;
      end := None;
    }

    /** What the run's entries are, from the answers it was given. */
    ghost predicate Recorded(plan: Plan, downloaded: map<File, Sha>, world: World)
      reads this
    {
      && AllTruthful(plan.duplicates, plan.files, downloaded, plan.seen, plan.toClassify, id)
      && InOrder(plan.toClassify) && (forall p :: p in plan.files <==> p in downloaded && Supported(p))
      && AllLeftOut(plan.files, plan.duplicates, downloaded, plan.seen, plan.toClassify, id)
      && world.classify(plan.toClassify).Some?
      && var outcomes := world.classify(plan.toClassify).value;
         (forall p :: p in plan.toClassify ==> p in outcomes)
         && ClassifiedInOrder(plan.classified, plan.toClassify, outcomes)
         && skipped == plan.duplicates + Failures(plan.toClassify, outcomes)
                       + Refusals(plan.classified, batchName, world, |plan.classified|)
         && Told(skipped, plan, outcomes, batchName, world)
    }

    /** After the submission has been marked fetched: the download goes, and then the ledger. */
    method Tidy(world: World) returns (end: RunEnd)
      requires Valid() && OthersOnly(world, id)
      modifies this`documents, this`clock, this`dest, this`ledger
      ensures Valid() && old(Shas(documents)) <= Shas(documents) && Fetched(end)
      ensures OwnShas(documents, id) == old(OwnShas(documents, id))
      ensures ledger == old(ledger) || (ledger == {} && end == FetchedRun && world.ledgerGoes)
      ensures end == UntidyRun ==> ledger == old(ledger) && !world.ledgerGoes
    {
      hide Shas, OwnShas, OthersOnly;
      end := FetchedRun;
      var alive := Step(world);
      if !alive {
        return;
      }
      dest := world.tidied(dest);
      alive := Step(world);
      if !alive {
        return;
      }
      if world.ledgerGoes {
        ledger := {};
      } else {
        end := UntidyRun;
      }
    }

    /** One fetch run. However it ends, this submission's documents stay distinct and its ledger honest;
        when it marks the submission fetched, every supported file of the share is accounted for. */
    method RunOneDriveFetch(world: World) returns (end: RunEnd, ghost plan: Plan, ghost downloaded: map<File, Sha>)
      requires Valid() && OthersOnly(world, id) && Delivers(world, share) && ClassifiesEach(world)
      modifies this
      ensures Valid() && old(Shas(documents)) <= Shas(documents)
      ensures Fetched(end) ==> forall p :: p in share && Supported(p) ==> Accounted(p)
      ensures Fetched(end) ==> Recorded(plan, downloaded, world)
      ensures Fetched(end) ==> world.fetch(old(dest), old(ledger)) == Some(downloaded)
      ensures Fetched(end) ==> Stored(|plan.classified|, plan.classified, downloaded, Shas(documents), batchName, world)
      ensures NoneBut(OwnShas(documents, id), old(OwnShas(documents, id)), plan.classified, downloaded, batchName, world)
      ensures Fetched(end) ==> forall p :: p in plan.toClassify ==> p in downloaded && downloaded[p] !in old(Shas(documents))
      ensures !Fetched(end) ==> skipped == old(skipped)
    {
      hide Shas, OwnShas, OthersOnly, Supported, DistinctContents, AllTruthful, RoutedAs, Refusal, NameSkipped, Distinct,
        StagedFrom, AllDiffer, Handled, Delivers, ClassifiesEach, Stored, NoneBut, Listed, Told, ClassifiedInOrder, AllLeftOut,
        InOrder, Successes, Failures, Refusals;
      plan, downloaded := Plan([], [], [], [], []), dest;
      NothingNew(OwnShas(documents, id), [], downloaded, batchName, world);
      var early := Download(world);
      if early.Some? {
        return early.value, plan, downloaded;
      }
      downloaded := dest;
      var classified, skippedFiles;
      early, classified, skippedFiles, plan := Triage(world);
      NothingNew(OwnShas(documents, id), plan.classified, downloaded, batchName, world);
      if early.Some? {
        return early.value, plan, downloaded;
      }
      ghost var outcomes := world.classify(plan.toClassify).value;
      OrderedOnce(plan.toClassify);
      SuccessesInOrder(plan.toClassify, outcomes);
      Staged(plan.toClassify, outcomes, downloaded, dest, share, documents, id);
      var routed := RouteAll(classified, batchName);
      var alive;
      alive, skippedFiles := IngestAll(routed, classified, downloaded, skippedFiles, world);
      if !alive {
        return Killed, plan, downloaded;
      }
      ghost var ingested := Shas(documents);
      alive := Step(world);
      if !alive {
        return Killed, plan, downloaded;
      }
      skipped := skippedFiles;
      HandledStays(|classified|, classified, downloaded, ingested, Shas(documents), batchName, world);
      StoredStays(|classified|, classified, downloaded, ingested, Shas(documents), batchName, world);
      EntriesTold(plan, outcomes, batchName, world);
      ingested := Shas(documents);
      EveryFileAccountedFor(plan, outcomes, world, batchName, share, downloaded, Shas(documents));
      end := Tidy(world);
      StoredStays(|classified|, classified, downloaded, ingested, Shas(documents), batchName, world);
    }
  }

  /** Any sequence of runs, each in its own world, going on after one that has marked the submission
      fetched: a clean-up that raises, or a stray failure, lets it be retried and run again. */
  method Runs(s: Submission, worlds: seq<World>) returns (ends: seq<RunEnd>)
    requires s.Valid()
    requires forall w :: w in worlds ==> OthersOnly(w, s.id) && Delivers(w, s.share) && ClassifiesEach(w)
    modifies s
    ensures OwnDistinct(s.documents, s.id) && |ends| == |worlds|
    ensures (exists end :: end in ends && Fetched(end)) ==> forall p :: p in s.share && Supported(p) ==> s.Accounted(p)
    ensures old(Shas(s.documents)) <= Shas(s.documents)
  {
    hide Supported, NameSkipped, Shas;
    ends := [];
    for i := 0 to |worlds|
      invariant s.Valid() && |ends| == i && old(Shas(s.documents)) <= Shas(s.documents)
      invariant (exists end :: end in ends && Fetched(end)) ==> forall p :: p in s.share && Supported(p) ==> s.Accounted(p)
    {
      assert worlds[i] in worlds;
      ghost var fetched := exists end :: end in ends && Fetched(end);
      var end, _, _ := s.RunOneDriveFetch(worlds[i]);
      ends := ends + [end];
      assert (exists e :: e in ends && Fetched(e)) ==> fetched || Fetched(end);
    }
  }
}
