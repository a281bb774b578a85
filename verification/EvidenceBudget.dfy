/** Repository evidence for one clarification: a byte and file budget shared out over the
    repositories, and the bounded selection of files in each of them. */
module EvidenceBudget {
  import opened Protocol

  const MAX_EVIDENCE_CANDIDATES: nat := 256
  const MAX_EVIDENCE_BYTES: nat := 32 * 1024
  const MAX_EVIDENCE_FILE_BYTES: nat := 8 * 1024
  const MAX_EVIDENCE_FILES: nat := 32
  const MAX_TOTAL_EVIDENCE_BYTES: nat := 64 * 1024
  const MAX_TOTAL_EVIDENCE_FILES: nat := 64

  newtype Byte = x: int | 0 <= x < 256

  type Bytes = seq<Byte>

  datatype Budget = Budget(maxCandidates: nat, maxFiles: nat, maxBytes: nat)

  datatype SourceFile = SourceFile(path: Bytes, content: Bytes)

  datatype Evidence = Evidence(repositoryId: Bytes, commitSha: Bytes, files: seq<SourceFile>)

  function BytesOf(files: seq<SourceFile>, n: nat): nat
    requires n <= |files|
  {
    if n == 0 then 0 else BytesOf(files, n - 1) + |files[n - 1].path| + |files[n - 1].content|
  }

  function FileBytes(files: seq<SourceFile>): nat {
    BytesOf(files, |files|)
  }

  lemma {:induction false} BytesOfPrefix(files: seq<SourceFile>, f: SourceFile, n: nat)
    requires n <= |files|
    ensures BytesOf(files + [f], n) == BytesOf(files, n)
  {
    if n > 0 {
      BytesOfPrefix(files, f, n - 1);
    }
  }

  lemma OneMoreFile(files: seq<SourceFile>, f: SourceFile)
    ensures FileBytes(files + [f]) == FileBytes(files) + |f.path| + |f.content|
  {
    BytesOfPrefix(files, f, |files|);
  }

  function EvidenceBytes(e: Evidence): nat {
    |e.repositoryId| + |e.commitSha| + FileBytes(e.files)
  }

  predicate Fits(e: Evidence, b: Budget) {
    EvidenceBytes(e) <= b.maxBytes && |e.files| <= b.maxFiles
  }

  function Min(a: nat, b: nat): nat { if a < b then a else b }

  /* ---- Sharing out the budget ---- */

  /** `a` taken `n` times. */
  function Product(a: nat, n: nat): nat {
    if n == 0 then 0 else a + Product(a, n - 1)
  }

  lemma {:induction false} ProductIs(a: nat, n: nat)
    ensures Product(a, n) == a * n
  {
    if n > 0 {
      ProductIs(a, n - 1);
    }
  }

  lemma {:induction false} ProductMono(a: nat, b: nat, n: nat)
    requires a <= b
    ensures Product(a, n) <= Product(b, n)
  {
    if n > 0 {
      ProductMono(a, b, n - 1);
    }
  }

  /** The largest equal share of `total` among `n`, up to a cap. */
  predicate EqualShare(q: nat, total: nat, n: nat, cap: nat) {
    q <= cap && Product(q, n) <= total && (q == cap || total < Product(q + 1, n))
  }

  lemma DivisionShares(total: nat, n: nat, cap: nat)
    requires n > 0
    ensures EqualShare(Min(total / n, cap), total, n, cap)
  {
    var q := total / n;
    ProductIs(q, n);
    ProductIs(q + 1, n);
    ProductMono(Min(q, cap), q, n);
  }

  /** The share of the next repository: an equal part of what is left, up to the cap, if there is a
      byte and a file for each. */
  method Allocate(bytes: nat, files: nat, repositories: nat) returns (r: Option<Budget>)
    ensures r.None? <==> repositories == 0 || bytes < repositories || files < repositories
    ensures r.Some? ==>
      && r.value.maxCandidates == MAX_EVIDENCE_CANDIDATES
      && EqualShare(r.value.maxBytes, bytes, repositories, MAX_EVIDENCE_BYTES)
      && EqualShare(r.value.maxFiles, files, repositories, MAX_EVIDENCE_FILES)
      && r.value.maxBytes > 0 && r.value.maxFiles > 0
  {
    if repositories == 0 || bytes < repositories || files < repositories {
      return None;
    }
    var maxBytes := Min(bytes / repositories, MAX_EVIDENCE_BYTES);
    var maxFiles := Min(files / repositories, MAX_EVIDENCE_FILES);
    DivisionShares(bytes, repositories, MAX_EVIDENCE_BYTES);
    DivisionShares(files, repositories, MAX_EVIDENCE_FILES);
    SharePositive(maxBytes, bytes, repositories, MAX_EVIDENCE_BYTES);
    SharePositive(maxFiles, files, repositories, MAX_EVIDENCE_FILES);
    return Some(Budget(MAX_EVIDENCE_CANDIDATES, maxFiles, maxBytes));
  }

  lemma SharePositive(q: nat, total: nat, n: nat, cap: nat)
    requires EqualShare(q, total, n, cap) && total >= n > 0 && cap > 0
    ensures q > 0
  {
    ProductIs(1, n);
  }

  /** A share is at least any amount that everyone can have, up to the cap. */
  lemma ShareAtLeast(q: nat, total: nat, n: nat, cap: nat, each: nat)
    requires EqualShare(q, total, n, cap) && total >= Product(each, n)
    ensures q >= Min(each, cap)
  {
    if q + 1 <= each {
      ProductMono(q + 1, each, n);
    }
  }

  /** Spending within one share leaves the others what they had. */
  lemma SpendingLeaves(q: nat, total: nat, n: nat, cap: nat, each: nat, used: nat)
    requires EqualShare(q, total, n, cap) && n > 0 && total >= Product(each, n) && used <= q
    ensures used <= total && total - used >= Product(each, n - 1)
  {
    if each <= q {
      ProductMono(each, q, n - 1);
    }
  }

  /** What is left covers a share of at least `bytesEach` and `filesEach` for everyone to come. */
  predicate Covers(bytes: nat, files: nat, repositories: nat, bytesEach: nat, filesEach: nat) {
    bytes >= Product(bytesEach, repositories) && files >= Product(filesEach, repositories)
  }

  /** The bytes and the files of the first `n` repositories. */
  function Spent(es: seq<Evidence>, n: nat): (nat, nat)
    requires n <= |es|
  {
    if n == 0 then (0, 0)
    else (Spent(es, n - 1).0 + EvidenceBytes(es[n - 1]), Spent(es, n - 1).1 + |es[n - 1].files|)
  }

  function TotalBytes(es: seq<Evidence>): nat {
    Spent(es, |es|).0
  }

  function TotalFiles(es: seq<Evidence>): nat {
    Spent(es, |es|).1
  }

  lemma {:induction false} SpentPrefix(es: seq<Evidence>, e: Evidence, n: nat)
    requires n <= |es|
    ensures Spent(es + [e], n) == Spent(es, n)
  {
    if n > 0 {
      SpentPrefix(es, e, n - 1);
    }
  }

  lemma OneMoreRepository(es: seq<Evidence>, e: Evidence)
    ensures TotalBytes(es + [e]) == TotalBytes(es) + EvidenceBytes(e)
    ensures TotalFiles(es + [e]) == TotalFiles(es) + |e.files|
  {
    SpentPrefix(es, e, |es|);
  }

  /** The equal share of a total among `n`. */
  function FairShare(total: nat, n: nat): nat
    requires n > 0
  {
    total / n
  }

  lemma FirstShare(n: nat)
    requires 0 < n <= MAX_TOTAL_EVIDENCE_FILES
    ensures FairShare(MAX_TOTAL_EVIDENCE_BYTES, n) > 0 && FairShare(MAX_TOTAL_EVIDENCE_FILES, n) > 0
    ensures Covers(MAX_TOTAL_EVIDENCE_BYTES, MAX_TOTAL_EVIDENCE_FILES, n,
                   FairShare(MAX_TOTAL_EVIDENCE_BYTES, n), FairShare(MAX_TOTAL_EVIDENCE_FILES, n))
  {
    ProductIs(FairShare(MAX_TOTAL_EVIDENCE_BYTES, n), n);
    ProductIs(FairShare(MAX_TOTAL_EVIDENCE_FILES, n), n);
  }

  predicate AtLeast(b: Budget, bytesEach: nat, filesEach: nat) {
    b.maxBytes >= Min(bytesEach, MAX_EVIDENCE_BYTES) && b.maxFiles >= Min(filesEach, MAX_EVIDENCE_FILES)
  }

  /** A repository that spends within its share leaves the others covered. */
  lemma StaysCovered(bytes: nat, files: nat, n: nat, bytesEach: nat, filesEach: nat, b: Budget, e: Evidence)
    requires n > 0 && Covers(bytes, files, n, bytesEach, filesEach) && Fits(e, b)
    requires EqualShare(b.maxBytes, bytes, n, MAX_EVIDENCE_BYTES)
    requires EqualShare(b.maxFiles, files, n, MAX_EVIDENCE_FILES)
    ensures EvidenceBytes(e) <= bytes && |e.files| <= files
    ensures Covers(bytes - EvidenceBytes(e), files - |e.files|, n - 1, bytesEach, filesEach)
  {
    SpendingLeaves(b.maxBytes, bytes, n, MAX_EVIDENCE_BYTES, bytesEach, EvidenceBytes(e));
    SpendingLeaves(b.maxFiles, files, n, MAX_EVIDENCE_FILES, filesEach, |e.files|);
  }

  lemma CoveredForEach(bytes: nat, files: nat, n: nat, bytesEach: nat, filesEach: nat)
    requires Covers(bytes, files, n, bytesEach, filesEach) && bytesEach > 0 && filesEach > 0
    ensures bytes >= n && files >= n
  {
    ProductIs(1, n);
    ProductMono(1, bytesEach, n);
    ProductMono(1, filesEach, n);
  }

  /** A covered allocation gives at least the fair share, up to the caps. */
  lemma GivesAtLeast(bytes: nat, files: nat, n: nat, bytesEach: nat, filesEach: nat, b: Budget)
    requires n > 0 && Covers(bytes, files, n, bytesEach, filesEach)
    requires EqualShare(b.maxBytes, bytes, n, MAX_EVIDENCE_BYTES)
    requires EqualShare(b.maxFiles, files, n, MAX_EVIDENCE_FILES)
    ensures AtLeast(b, bytesEach, filesEach)
  {
    ShareAtLeast(b.maxBytes, bytes, n, MAX_EVIDENCE_BYTES, bytesEach);
    ShareAtLeast(b.maxFiles, files, n, MAX_EVIDENCE_FILES, filesEach);
  }

  /* ---- Selecting files in one repository ---- */

  /** A bounded read: the first bytes of a file, and whether it was cut off. */
  datatype Read = ReadFailed | Content(bytes: Bytes, truncated: bool)

  /** The files of a commit, those that can be read. */
  type Tree = map<Bytes, Bytes>

  function ReadBounded(tree: Tree, path: Bytes, limit: nat): Read {
    if path !in tree then ReadFailed
    else if |tree[path]| <= limit then Content(tree[path], false)
    else Content(tree[path][..limit], true)
  }

  datatype ExtractError = Cancelled | PathHasNul | Unreadable | NoTrackedFiles | NoUsableEvidence

  datatype Extraction = Extracted(evidence: Evidence) | Refused(error: ExtractError)

  function Bounded(b: Budget): Budget {
    Budget(Min(b.maxCandidates, MAX_EVIDENCE_CANDIDATES), Min(b.maxFiles, MAX_EVIDENCE_FILES),
           Min(b.maxBytes, MAX_EVIDENCE_BYTES))
  }

  /** A budget that was allocated is within the caps, and so is used as it is. */
  lemma AllocatedIsBounded(bytes: nat, files: nat, n: nat, b: Budget)
    requires b.maxCandidates == MAX_EVIDENCE_CANDIDATES
    requires EqualShare(b.maxBytes, bytes, n, MAX_EVIDENCE_BYTES)
    requires EqualShare(b.maxFiles, files, n, MAX_EVIDENCE_FILES)
    ensures Bounded(b) == b
  {
  }

  function Limit(used: nat, maxBytes: nat): nat {
    if used >= maxBytes then 0 else Min(maxBytes - used, MAX_EVIDENCE_FILE_BYTES)
  }

  /** A candidate that would be taken with `used` bytes spent: whole, text, and small enough. Of all byte
      strings, `text` are those that decode. */
  predicate Usable(path: Bytes, used: nat, maxBytes: nat, tree: Tree, text: set<Bytes>) {
    var c := ReadBounded(tree, path, Limit(used, maxBytes));
    && path in text && c.Content? && !c.truncated && 0 !in c.bytes && c.bytes in text
    && used + |path| + |c.bytes| <= maxBytes
  }

  /** What that means of the file itself: the bounded read makes no difference. */
  predicate Takeable(path: Bytes, used: nat, maxBytes: nat, tree: Tree, text: set<Bytes>) {
    && path in tree && path in text && tree[path] in text && 0 !in tree[path]
    && |tree[path]| <= 8192 && used + |path| + |tree[path]| <= maxBytes
  }

  lemma UsableMeans(path: Bytes, used: nat, maxBytes: nat, tree: Tree, text: set<Bytes>)
    ensures Usable(path, used, maxBytes, tree, text) <==> Takeable(path, used, maxBytes, tree, text)
    ensures Usable(path, used, maxBytes, tree, text) ==>
      ReadBounded(tree, path, Limit(used, maxBytes)) == Content(tree[path], false)
  {
  }

  datatype Choice = Take(content: Bytes) | Skip | Stop(error: ExtractError)

  function Consider(path: Bytes, used: nat, maxBytes: nat, tree: Tree, text: set<Bytes>): (r: Choice)
    ensures r.Take? ==>
      && Usable(path, used, maxBytes, tree, text)
      && ReadBounded(tree, path, Limit(used, maxBytes)) == Content(r.content, false)
      && ReadWhole(path, r.content, tree) && path in text && r.content in text && 0 !in r.content
      && used + |path| + |r.content| <= maxBytes
    ensures r.Skip? ==> !Usable(path, used, maxBytes, tree, text)
    ensures r.Stop? <==> path in text && (0 in path || path !in tree)
    ensures r.Stop? ==> r.error == if 0 in path then PathHasNul else Unreadable
  {
    if path !in text then Skip
    else if 0 in path then Stop(PathHasNul)
    else
      var c := ReadBounded(tree, path, Limit(used, maxBytes));
      if c.ReadFailed? then Stop(Unreadable)
      else if c.truncated || 0 in c.bytes || c.bytes !in text || used + |path| + |c.bytes| > maxBytes then Skip
      else Take(c.bytes)
  }

  /** The content is the whole of the file, and within the limit for one file. */
  predicate ReadWhole(path: Bytes, content: Bytes, tree: Tree) {
    path in tree && tree[path] == content && |content| <= MAX_EVIDENCE_FILE_BYTES
  }

  /** The files of `files` are the candidates at rising positions, read completely. */
  ghost predicate Picked(files: seq<SourceFile>, paths: seq<Bytes>, at: seq<nat>, tree: Tree, text: set<Bytes>) {
    && |at| == |files| && Ascending(at)
    && forall k | 0 <= k < |files| ::
         && at[k] < |paths| && files[k].path == paths[at[k]] && files[k].path in text && files[k].content in text
         && 0 !in files[k].content && ReadWhole(files[k].path, files[k].content, tree)
  }

  lemma PickOne(files: seq<SourceFile>, paths: seq<Bytes>, at: seq<nat>, tree: Tree, text: set<Bytes>,
                i: nat, content: Bytes)
    requires Picked(files, paths, at, tree, text) && (forall k | 0 <= k < |at| :: at[k] < i) && i < |paths|
    requires paths[i] in text && content in text && 0 !in content && ReadWhole(paths[i], content, tree)
    ensures Picked(files + [SourceFile(paths[i], content)], paths, at + [i], tree, text)
    ensures FileBytes(files + [SourceFile(paths[i], content)]) == FileBytes(files) + |paths[i]| + |content|
    ensures forall k | 0 <= k < |at + [i]| :: (at + [i])[k] < i + 1
  {
    OneMoreFile(files, SourceFile(paths[i], content));
  }

  /** What the first `n` candidates give: each one in turn, when it is usable with the bytes spent
      so far and the files and bytes are not used up. */
  ghost function Chosen(paths: seq<Bytes>, n: nat, base: nat, b: Budget, tree: Tree, text: set<Bytes>): seq<SourceFile>
    requires n <= |paths|
  {
    if n == 0 then []
    else
      var files := Chosen(paths, n - 1, base, b, tree, text);
      var used := base + FileBytes(files);
      if !UsedUp(files, base, b) && Usable(paths[n - 1], used, b.maxBytes, tree, text)
      then files + [SourceFile(paths[n - 1], ReadBounded(tree, paths[n - 1], Limit(used, b.maxBytes)).bytes)]
      else files
  }

  predicate UsedUp(files: seq<SourceFile>, base: nat, b: Budget) {
    |files| >= b.maxFiles || base + FileBytes(files) >= b.maxBytes
  }

  lemma {:induction false} ChosenStops(paths: seq<Bytes>, i: nat, n: nat, base: nat, b: Budget, tree: Tree,
                                       text: set<Bytes>)
    requires i <= n <= |paths| && UsedUp(Chosen(paths, i, base, b, tree, text), base, b)
    ensures Chosen(paths, n, base, b, tree, text) == Chosen(paths, i, base, b, tree, text)
  {
    if i < n {
      ChosenStops(paths, i, n - 1, base, b, tree, text);
    }
  }

  /** None of the first `n` candidates is usable with nothing spent. */
  predicate NoneUsable(paths: seq<Bytes>, n: nat, base: nat, b: Budget, tree: Tree, text: set<Bytes>)
    requires n <= |paths|
  {
    forall k | 0 <= k < n :: !Usable(paths[k], base, b.maxBytes, tree, text)
  }

  /** Nothing is chosen exactly when no candidate is usable with nothing spent. */
  lemma {:induction false} NothingChosen(paths: seq<Bytes>, n: nat, base: nat, b: Budget, tree: Tree, text: set<Bytes>)
    requires n <= |paths| && !UsedUp([], base, b)
    ensures Chosen(paths, n, base, b, tree, text) == [] <==> NoneUsable(paths, n, base, b, tree, text)
  {
    if n > 0 {
      NothingChosen(paths, n - 1, base, b, tree, text);
      assert Chosen(paths, n - 1, base, b, tree, text) != [] ==> Chosen(paths, n, base, b, tree, text) != [];
    }
  }

  /** The candidates looked at: as many as the budget allows. */
  function Candidates(paths: seq<Bytes>, b: Budget): nat {
    Min(|paths|, b.maxCandidates)
  }

  lemma ChosenNext(paths: seq<Bytes>, i: nat, base: nat, b: Budget, tree: Tree, text: set<Bytes>)
    requires i < |paths| && !UsedUp(Chosen(paths, i, base, b, tree, text), base, b)
    ensures var files := Chosen(paths, i, base, b, tree, text);
      var used := base + FileBytes(files);
      var choice := Consider(paths[i], used, b.maxBytes, tree, text);
      && (choice.Skip? ==> Chosen(paths, i + 1, base, b, tree, text) == files)
      && (choice.Take? ==>
            var more := files + [SourceFile(paths[i], choice.content)];
            && Chosen(paths, i + 1, base, b, tree, text) == more
            && base + FileBytes(more) == used + |paths[i]| + |choice.content| <= b.maxBytes)
  {
    var files := Chosen(paths, i, base, b, tree, text);
    var choice := Consider(paths[i], base + FileBytes(files), b.maxBytes, tree, text);
    if choice.Take? {
      OneMoreFile(files, SourceFile(paths[i], choice.content));
    }
  }

  /** What is chosen keeps within the budget: whole files at rising positions of the listing. */
  lemma {:induction false} ChosenPicked(paths: seq<Bytes>, n: nat, base: nat, b: Budget, tree: Tree, text: set<Bytes>)
    returns (at: seq<nat>)
    requires n <= |paths|
    ensures var files := Chosen(paths, n, base, b, tree, text);
      && Picked(files, paths, at, tree, text) && (forall k | 0 <= k < |at| :: at[k] < n)
      && |files| <= b.maxFiles && (files != [] ==> base + FileBytes(files) <= b.maxBytes)
  {
    at := [];
    if n > 0 {
      at := ChosenPicked(paths, n - 1, base, b, tree, text);
      var files := Chosen(paths, n - 1, base, b, tree, text);
      var used := base + FileBytes(files);
      if !UsedUp(files, base, b) && Usable(paths[n - 1], used, b.maxBytes, tree, text) {
        PickOne(files, paths, at, tree, text, n - 1, ReadBounded(tree, paths[n - 1], Limit(used, b.maxBytes)).bytes);
        at := at + [n - 1];
      }
    }
  }

  /** A candidate joins what the ones before it gave exactly when files and bytes are left and the whole
      file is text and fits; otherwise it changes nothing. */
  lemma CandidateJoins(paths: seq<Bytes>, k: nat, base: nat, b: Budget, tree: Tree, text: set<Bytes>)
    requires k < |paths|
    ensures var files, more := Chosen(paths, k, base, b, tree, text), Chosen(paths, k + 1, base, b, tree, text);
      var used := base + FileBytes(files);
      if |files| < b.maxFiles && used < b.maxBytes && Takeable(paths[k], used, b.maxBytes, tree, text)
      then more == files + [SourceFile(paths[k], tree[paths[k]])]
      else more == files
    ensures Chosen(paths, 0, base, b, tree, text) == []
  {
    var files := Chosen(paths, k, base, b, tree, text);
    UsableMeans(paths[k], base + FileBytes(files), b.maxBytes, tree, text);
  }

  /* ---- What stops a selection ---- */

  /** At this candidate the selection cannot go on: the inspection is found cancelled, or its path holds a
      NUL or cannot be read. A path that is no text is passed over. */
  predicate Obstructs(paths: seq<Bytes>, i: nat, tree: Tree, text: set<Bytes>, cancelled: set<nat>) {
    i < |paths| && (i + 1 in cancelled || (paths[i] in text && (0 in paths[i] || paths[i] !in tree)))
  }

  function ObstacleError(paths: seq<Bytes>, i: nat, cancelled: set<nat>): ExtractError
    requires i < |paths|
  {
    if i + 1 in cancelled then Cancelled else if 0 in paths[i] then PathHasNul else Unreadable
  }

  /** The selection gets to this candidate, with files and bytes left, and no further. */
  ghost predicate StopsAt(paths: seq<Bytes>, i: nat, base: nat, b: Budget, tree: Tree, text: set<Bytes>,
                          cancelled: set<nat>)
  {
    && i < |paths| && i < b.maxCandidates && Obstructs(paths, i, tree, text, cancelled)
    && (forall k: nat | k < i :: !Obstructs(paths, k, tree, text, cancelled))
    && !UsedUp(Chosen(paths, i, base, b, tree, text), base, b)
  }

  /** Take usable files in listing order until the files or bytes of the budget are used up. */
  method Select(base: nat, paths: seq<Bytes>, tree: Tree, text: set<Bytes>, cancelled: set<nat>, b: Budget)
    returns (stopped: Option<ExtractError>, files: seq<SourceFile>)
    ensures stopped.Some? ==> exists i: nat ::
      StopsAt(paths, i, base, b, tree, text, cancelled) && stopped.value == ObstacleError(paths, i, cancelled)
    ensures stopped.None? ==> forall i: nat :: !StopsAt(paths, i, base, b, tree, text, cancelled)
    ensures stopped.None? ==> files == Chosen(paths, Candidates(paths, b), base, b, tree, text)
  {
    stopped, files := None, [];
    var used := base;
    var i := 0;
    while i < Candidates(paths, b) && |files| < b.maxFiles && used < b.maxBytes
      invariant i <= Candidates(paths, b) && used == base + FileBytes(files)
      invariant files == Chosen(paths, i, base, b, tree, text)
      invariant forall k: nat | k < i :: !Obstructs(paths, k, tree, text, cancelled)
    {
      if i + 1 in cancelled {
        assert StopsAt(paths, i, base, b, tree, text, cancelled);
        return Some(Cancelled), files;
      }
      var choice := Consider(paths[i], used, b.maxBytes, tree, text);
      ChosenNext(paths, i, base, b, tree, text);
      match choice {
        case Stop(error) =>
          assert StopsAt(paths, i, base, b, tree, text, cancelled);
          return Some(error), files;
        case Take(content) =>
          used := used + |paths[i]| + |content|;
          files := files + [SourceFile(paths[i], content)];
        case Skip =>
      }
      i := i + 1;
    }
    if i < Candidates(paths, b) {
      ChosenStops(paths, i, Candidates(paths, b), base, b, tree, text);
      forall k: nat | i <= k < Candidates(paths, b) ensures !StopsAt(paths, k, base, b, tree, text, cancelled) {
        ChosenStops(paths, i, k, base, b, tree, text);
      }
    }
  }

  /** Why a repository gives no evidence, in the order in which it is found out. */
  ghost predicate RefusedFor(paths: seq<Bytes>, base: nat, b: Budget, tree: Tree, text: set<Bytes>,
                             cancelled: set<nat>, error: ExtractError)
  {
    if 0 in cancelled then error == Cancelled
    else if exists i: nat :: StopsAt(paths, i, base, b, tree, text, cancelled) then
      exists i: nat ::
        StopsAt(paths, i, base, b, tree, text, cancelled) && error == ObstacleError(paths, i, cancelled)
    else if paths == [] then error == NoTrackedFiles
    else if UsedUp([], base, b) || NoneUsable(paths, Candidates(paths, b), base, b, tree, text) then
      error == NoUsableEvidence
    else |paths| + 1 in cancelled && error == Cancelled
  }

  ghost predicate NotRefused(paths: seq<Bytes>, base: nat, b: Budget, tree: Tree, text: set<Bytes>,
                             cancelled: set<nat>)
  {
    forall error :: !RefusedFor(paths, base, b, tree, text, cancelled, error)
  }

  /** The evidence of one repository is what its budget chooses from the listing; it respects the
      budget and its caps. It is refused exactly for the reasons there are. */
  method Extract(repositoryId: Bytes, commitSha: Bytes, paths: seq<Bytes>, tree: Tree, text: set<Bytes>,
                 cancelled: set<nat>, budget: Budget)
    returns (r: Extraction, ghost at: seq<nat>)
    ensures r.Extracted? ==>
      && Fits(r.evidence, budget) && Fits(r.evidence, Bounded(budget)) && r.evidence.files != []
      && r.evidence.repositoryId == repositoryId && r.evidence.commitSha == commitSha
      && (var b := Bounded(budget);
          r.evidence.files == Chosen(paths, Candidates(paths, b), |repositoryId| + |commitSha|, b, tree, text))
      && Picked(r.evidence.files, paths, at, tree, text)
    ensures r.Refused? ==>
      RefusedFor(paths, |repositoryId| + |commitSha|, Bounded(budget), tree, text, cancelled, r.error)
    ensures r.Extracted? ==>
      NotRefused(paths, |repositoryId| + |commitSha|, Bounded(budget), tree, text, cancelled)
  {
    at := [];
    if 0 in cancelled {
      return Refused(Cancelled), at;
    }
    var b, base := Bounded(budget), |repositoryId| + |commitSha|;
    var stopped, files := Select(base, paths, tree, text, cancelled, b);
    if stopped.Some? {
      return Refused(stopped.value), at;
    }
    if paths == [] {
      return Refused(NoTrackedFiles), at;
    }
    NothingGiven(paths, Candidates(paths, b), base, b, tree, text);
    if files == [] {
      return Refused(NoUsableEvidence), at;
    }
    if |paths| + 1 in cancelled {
      return Refused(Cancelled), at;
    }
    at := ChosenPicked(paths, Candidates(paths, b), base, b, tree, text);
    return Extracted(Evidence(repositoryId, commitSha, files)), at;
  }

  lemma NothingGiven(paths: seq<Bytes>, n: nat, base: nat, b: Budget, tree: Tree, text: set<Bytes>)
    requires n <= |paths|
    ensures Chosen(paths, n, base, b, tree, text) == [] <==>
            UsedUp([], base, b) || NoneUsable(paths, n, base, b, tree, text)
  {
    if UsedUp([], base, b) {
      ChosenStops(paths, 0, n, base, b, tree, text);
    } else {
      NothingChosen(paths, n, base, b, tree, text);
    }
  }

  /* ---- Every repository within its share ---- */

  /** A repository checked out for inspection: its listing, its files, and the polls at which the
      inspection is found cancelled. */
  datatype Workspace = Workspace(
    repositoryId: Bytes, commitSha: Bytes, paths: seq<Bytes>, tree: Tree, cancelled: set<nat>)

  datatype RunError = CannotCover | BudgetViolated | InspectionFailed | InspectionCancelled

  datatype Result<+T> = Ok(value: T) | Err(error: RunError)

  /** The evidence is what the budget chooses from the workspace. */
  ghost predicate Gathers(w: Workspace, text: set<Bytes>, budget: Budget, e: Evidence) {
    var b := Bounded(budget);
    && e.repositoryId == w.repositoryId && e.commitSha == w.commitSha && e.files != []
    && e.files == Chosen(w.paths, Candidates(w.paths, b), |w.repositoryId| + |w.commitSha|, b, w.tree, text)
    && Fits(e, budget)
  }

  /** Why the inspection of a repository fails. */
  ghost predicate FailsAs(prepared: Option<Workspace>, text: set<Bytes>, budget: Budget, error: RunError) {
    match prepared
    case None => error == InspectionFailed
    case Some(w) =>
      var b, base := Bounded(budget), |w.repositoryId| + |w.commitSha|;
      if NotRefused(w.paths, base, b, w.tree, text, w.cancelled) then
        |w.paths| + 2 in w.cancelled && error == InspectionCancelled
      else
        exists x :: RefusedFor(w.paths, base, b, w.tree, text, w.cancelled, x)
                    && error == if x == Cancelled then InspectionCancelled else InspectionFailed
  }

  ghost predicate NothingFails(prepared: Option<Workspace>, text: set<Bytes>, budget: Budget) {
    forall error :: !FailsAs(prepared, text, budget, error)
  }

  /** Not found cancelled at any of the first polls. */
  predicate Uncancelled(cancelled: set<nat>, n: nat) {
    forall k | k in cancelled :: k >= n
  }

  /** Why the inspection ends early: found cancelled before a repository or after the last one, or the
      last repository that got a share fails. */
  ghost predicate EndsEarly(sources: seq<Option<Workspace>>, text: set<Bytes>, cancelled: set<nat>,
                            budgets: seq<Budget>, error: RunError)
  {
    || (|budgets| in cancelled && error == InspectionCancelled)
    || (0 < |budgets| <= |sources| && FailsAs(sources[|budgets| - 1], text, budgets[|budgets| - 1], error))
  }

  /** Each repository's evidence is what its own budget chooses from it. */
  ghost predicate AllGathered(sources: seq<Option<Workspace>>, text: set<Bytes>, budgets: seq<Budget>,
                              es: seq<Evidence>) {
    && |es| == |budgets| <= |sources|
    && (forall i | 0 <= i < |es| :: sources[i].Some? && Gathers(sources[i].value, text, budgets[i], es[i]))
    && forall i | 0 <= i < |es| :: NothingFails(sources[i], text, budgets[i])
  }

  lemma OneMoreGathered(sources: seq<Option<Workspace>>, text: set<Bytes>, budgets: seq<Budget>, es: seq<Evidence>,
                        b: Budget, e: Evidence)
    requires AllGathered(sources, text, budgets, es) && |es| < |sources|
    requires sources[|es|].Some? && Gathers(sources[|es|].value, text, b, e) && NothingFails(sources[|es|], text, b)
    ensures AllGathered(sources, text, budgets + [b], es + [e])
  {
  }

  lemma FailsEarly(sources: seq<Option<Workspace>>, text: set<Bytes>, cancelled: set<nat>, budgets: seq<Budget>,
                   b: Budget, error: RunError)
    requires |budgets| < |sources| && FailsAs(sources[|budgets|], text, b, error)
    ensures EndsEarly(sources, text, cancelled, budgets + [b], error)
  {
  }

  /** Inspect one repository; nothing when it could not be checked out. */
  method InspectRepository(prepared: Option<Workspace>, text: set<Bytes>, budget: Budget)
    returns (r: Result<Evidence>)
    ensures r.Ok? ==> prepared.Some? && Gathers(prepared.value, text, budget, r.value)
    ensures r.Err? ==> FailsAs(prepared, text, budget, r.error)
    ensures r.Ok? ==> NothingFails(prepared, text, budget)
  {
    if prepared.None? {
      return Err(InspectionFailed);
    }
    var w := prepared.value;
    var extraction, _ := Extract(w.repositoryId, w.commitSha, w.paths, w.tree, text, w.cancelled, budget);
    match extraction
    case Refused(error) => return Err(if error == Cancelled then InspectionCancelled else InspectionFailed);
    case Extracted(evidence) =>
      return if |w.paths| + 2 in w.cancelled then Err(InspectionCancelled) else Ok(evidence);
  }

  /** One repository: its share, its inspection, the check of its size, and what is left afterwards.
      The check never finds the share exceeded. */
  method InspectOne(prepared: Option<Workspace>, text: set<Bytes>, bytes: nat, files: nat, n: nat,
                    ghost bytesEach: nat, ghost filesEach: nat)
    returns (r: Result<Evidence>, budget: Option<Budget>, bytesLeft: nat, filesLeft: nat)
    requires n > 0 && bytesEach > 0 && filesEach > 0
    requires Covers(bytes, files, n, bytesEach, filesEach) || files < n
    ensures r == Err(CannotCover) <==> budget.None?
    ensures Covers(bytes, files, n, bytesEach, filesEach) ==> budget.Some?
    ensures files < n ==> budget.None?
    ensures budget.Some? ==> AtLeast(budget.value, bytesEach, filesEach)
    ensures r != Err(BudgetViolated)
    ensures r.Err? && budget.Some? ==> FailsAs(prepared, text, budget.value, r.error)
    ensures r.Ok? ==>
      && prepared.Some? && Gathers(prepared.value, text, budget.value, r.value)
      && NothingFails(prepared, text, budget.value)
      && bytesLeft + EvidenceBytes(r.value) == bytes && filesLeft + |r.value.files| == files
      && Covers(bytesLeft, filesLeft, n - 1, bytesEach, filesEach)
  {
    bytesLeft, filesLeft := bytes, files;
    if Covers(bytes, files, n, bytesEach, filesEach) {
      CoveredForEach(bytes, files, n, bytesEach, filesEach);
    }
    budget := Allocate(bytes, files, n);
    if budget.None? {
      return Err(CannotCover), budget, bytes, files;
    }
    GivesAtLeast(bytes, files, n, bytesEach, filesEach, budget.value);
    r := InspectRepository(prepared, text, budget.value);
    if r.Err? {
      return r, budget, bytes, files;
    }
    var e := r.value;
    if EvidenceBytes(e) > budget.value.maxBytes || |e.files| > budget.value.maxFiles {
      return Err(BudgetViolated), budget, bytes, files;
    }
    StaysCovered(bytes, files, n, bytesEach, filesEach, budget.value, e);
    return Ok(e), budget, bytes - EvidenceBytes(e), files - |e.files|;
  }

  /** Inspect every repository within its share of the budget. The allocation can fail only at the
      start, for more repositories than files to share; no repository gets less than the fair share;
      each bundle is what its share chooses from its repository; the totals stay within the limits; and
      the budget is never found violated. The subtractions are natural numbers: they cannot underflow. */
  method InspectAll(sources: seq<Option<Workspace>>, text: set<Bytes>, cancelled: set<nat>)
    returns (r: Result<seq<Evidence>>, budgets: seq<Budget>)
    ensures r == Err(CannotCover) <==> |sources| > MAX_TOTAL_EVIDENCE_FILES && 0 !in cancelled
    ensures r != Err(BudgetViolated)
    ensures r.Err? && r.error != CannotCover ==> EndsEarly(sources, text, cancelled, budgets, r.error)
    ensures r.Ok? ==> Uncancelled(cancelled, |sources| + 1)
    ensures budgets != [] ==> 0 < |sources| <= MAX_TOTAL_EVIDENCE_FILES
    ensures |sources| > 0 ==> forall i | 0 <= i < |budgets| ::
      AtLeast(budgets[i],
              FairShare(MAX_TOTAL_EVIDENCE_BYTES, |sources|), FairShare(MAX_TOTAL_EVIDENCE_FILES, |sources|))
    ensures r.Ok? ==>
      && |r.value| == |sources| && AllGathered(sources, text, budgets, r.value)
      && TotalBytes(r.value) <= MAX_TOTAL_EVIDENCE_BYTES && TotalFiles(r.value) <= MAX_TOTAL_EVIDENCE_FILES
  {
    ghost var bytesEach: nat, filesEach: nat := 1, 1;
    if 0 < |sources| <= MAX_TOTAL_EVIDENCE_FILES {
      FirstShare(|sources|);
      bytesEach := FairShare(MAX_TOTAL_EVIDENCE_BYTES, |sources|);
      filesEach := FairShare(MAX_TOTAL_EVIDENCE_FILES, |sources|);
    }
    assert 0 < |sources| <= MAX_TOTAL_EVIDENCE_FILES ==>
      && bytesEach == FairShare(MAX_TOTAL_EVIDENCE_BYTES, |sources|)
      && filesEach == FairShare(MAX_TOTAL_EVIDENCE_FILES, |sources|);
    r, budgets := InspectEach(sources, text, cancelled, bytesEach, filesEach);
  }

  method InspectEach(sources: seq<Option<Workspace>>, text: set<Bytes>, cancelled: set<nat>,
                     ghost bytesEach: nat, ghost filesEach: nat)
    returns (r: Result<seq<Evidence>>, budgets: seq<Budget>)
    requires bytesEach > 0 && filesEach > 0
    requires |sources| <= MAX_TOTAL_EVIDENCE_FILES ==>
      Covers(MAX_TOTAL_EVIDENCE_BYTES, MAX_TOTAL_EVIDENCE_FILES, |sources|, bytesEach, filesEach)
    ensures r == Err(CannotCover) <==> |sources| > MAX_TOTAL_EVIDENCE_FILES && 0 !in cancelled
    ensures r != Err(BudgetViolated)
    ensures r.Err? && r.error != CannotCover ==> EndsEarly(sources, text, cancelled, budgets, r.error)
    ensures r.Ok? ==> Uncancelled(cancelled, |sources| + 1)
    ensures budgets != [] ==> 0 < |sources| <= MAX_TOTAL_EVIDENCE_FILES
    ensures forall i | 0 <= i < |budgets| :: AtLeast(budgets[i], bytesEach, filesEach)
    ensures r.Ok? ==>
      && |r.value| == |sources| && AllGathered(sources, text, budgets, r.value)
      && TotalBytes(r.value) <= MAX_TOTAL_EVIDENCE_BYTES && TotalFiles(r.value) <= MAX_TOTAL_EVIDENCE_FILES
  {
    var bytes: nat, files: nat := MAX_TOTAL_EVIDENCE_BYTES, MAX_TOTAL_EVIDENCE_FILES;
    var evidence: seq<Evidence> := [];
    var remaining: nat := |sources|;
    budgets := [];
    var i := 0;
    while i < |sources|
      invariant i + remaining == |sources| && |budgets| == |evidence| == i
      invariant i > 0 ==> |sources| <= MAX_TOTAL_EVIDENCE_FILES
      invariant i == 0 ==> files == MAX_TOTAL_EVIDENCE_FILES
      invariant |sources| <= MAX_TOTAL_EVIDENCE_FILES ==> Covers(bytes, files, remaining, bytesEach, filesEach)
      invariant TotalBytes(evidence) + bytes == MAX_TOTAL_EVIDENCE_BYTES
      invariant TotalFiles(evidence) + files == MAX_TOTAL_EVIDENCE_FILES
      invariant forall k | 0 <= k < i :: AtLeast(budgets[k], bytesEach, filesEach)
      invariant AllGathered(sources, text, budgets, evidence) && Uncancelled(cancelled, i)
    {
      if i in cancelled {
        return Err(InspectionCancelled), budgets;
      }
      var inspected, budget, bytesLeft, filesLeft :=
        InspectOne(sources[i], text, bytes, files, remaining, bytesEach, filesEach);
      if inspected.Err? {
        if budget.Some? {
          FailsEarly(sources, text, cancelled, budgets, budget.value, inspected.error);
          budgets := budgets + [budget.value];
        }
        return Err(inspected.error), budgets;
      }
      var e := inspected.value;
      OneMoreGathered(sources, text, budgets, evidence, budget.value, e);
      budgets := budgets + [budget.value];
      bytes, files, remaining := bytesLeft, filesLeft, remaining - 1;
      OneMoreRepository(evidence, e);
      evidence := evidence + [e];
      i := i + 1;
    }
    return if |sources| in cancelled then Err(InspectionCancelled) else Ok(evidence), budgets;
  }
}
