// Checkpoint staging: native and repository state is copied into a stage while
// the session still runs, caught up under a short barrier, and packed after
// the barrier is gone (src/hel_checkpoint.rs). The result is compared with the
// export that does everything under the barrier.

module Staging {
  import opened Text

  type Path = Text

  // ----- What is checkpointed -----

  datatype Body = Body(mode: nat, data: Text)
  datatype Artifact = Artifact(path: Path, mode: nat, data: Text)
  datatype Repository = Repository(metadata: Text, bundle: Text, staged: Text, unstaged: Text, untracked: Text)

  /** The target at one instant. A repository is nothing when Git fails on it. */
  datatype Source = Source(native: map<Path, Body>, repositories: seq<Option<Repository>>, fingerprint: Text)

  const MAX_NATIVE_FILE: nat := 1024 * 1024 * 1024
  const MAX_NATIVE_TOTAL: nat := 8 * 1024 * 1024 * 1024
  /** What the archive writer takes as one payload. */
  const MAX_PAYLOAD_BYTES: nat := 8 * 1024 * 1024 * 1024
  const MAX_MANIFEST_BYTES: nat := 8 * 1024 * 1024
  const MAX_STAGE_MANIFEST: nat := 8 * 1024 * 1024

  function Listing(native: map<Path, Body>, order: seq<Path>): seq<Artifact> {
    if order == [] then []
    else
      var p := order[|order|-1];
      Listing(native, order[..|order|-1]) + if p in native then [Artifact(p, native[p].mode, native[p].data)] else []
  }

  predicate EachFits(arts: seq<Artifact>) {
    forall i :: 0 <= i < |arts| ==> |arts[i].data| <= MAX_NATIVE_FILE
  }

  function TotalSize(arts: seq<Artifact>): nat {
    if arts == [] then 0 else TotalSize(arts[..|arts|-1]) + |arts[|arts|-1].data|
  }

  /** The native artifacts of a source that stands still. */
  function Collected(native: map<Path, Body>, order: seq<Path>, allowEmpty: bool): Option<seq<Artifact>> {
    var arts := Listing(native, order);
    if EachFits(arts) && (allowEmpty || arts != []) && TotalSize(arts) <= MAX_NATIVE_TOTAL then Some(arts) else None
  }

  function RepositoryAt(found: seq<Option<Repository>>, i: nat): Option<Repository> {
    if i < |found| then found[i] else None
  }

  function Repositories(found: seq<Option<Repository>>, count: nat): Option<seq<Repository>> {
    if count == 0 then Some([])
    else
      match (Repositories(found, count - 1), RepositoryAt(found, count - 1))
      case (Some(front), Some(r)) => Some(front + [r])
      case _ => None
  }

  // ----- The stage -----

  datatype Part = Bundle | Staged | Unstaged | Untracked

  /** Paths inside the stage, by component. */
  type StagePath = seq<Text>

  const NATIVE: Text := Ascii("native")
  const REPOSITORIES: Text := Ascii("repositories")

  function NativePath(i: nat): StagePath {
    [NATIVE, Padded(i, 8)]
  }

  function PartName(part: Part): Text {
    match part
    case Bundle => Ascii("committed.bundle")
    case Staged => Ascii("staged.patch")
    case Unstaged => Ascii("unstaged.patch")
    case Untracked => Ascii("untracked.tar")
  }

  function PartPath(i: nat, part: Part): StagePath {
    [REPOSITORIES, Padded(i, 8), PartName(part)]
  }

  lemma PathsDiffer(i: nat, p: Part, j: nat, q: Part)
    ensures PartPath(i, p) == PartPath(j, q) <==> i == j && p == q
    ensures NativePath(i) == NativePath(j) <==> i == j
    ensures NativePath(i) != PartPath(j, q)
  {
    hide Padded;
    if Padded(i, 8) == Padded(j, 8) {
      PaddedInjective(i, j, 8);
    }
    PartNamesDiffer(p, q);
    assert PartPath(i, p)[1] == Padded(i, 8) && PartPath(j, q)[1] == Padded(j, 8);
    assert PartPath(i, p)[2] == PartName(p) && PartPath(j, q)[2] == PartName(q);
    assert NativePath(i)[1] == Padded(i, 8) && NativePath(j)[1] == Padded(j, 8);
    assert |NativePath(i)| == 2 && |PartPath(j, q)| == 3;
  }

  lemma PartNamesDiffer(p: Part, q: Part)
    ensures PartName(p) == PartName(q) <==> p == q
  {
    assert |PartName(Bundle)| == 16 && |PartName(Staged)| == 12 && |PartName(Unstaged)| == 14 && |PartName(Untracked)| == 13;
  }

  datatype StagedNative = StagedNative(path: Path, mode: nat, size: nat, body: StagePath)
  datatype StagedRepository = StagedRepository(metadata: Text, bundle: StagePath, staged: StagePath, unstaged: StagePath, untracked: StagePath)

  datatype Manifest = Manifest(session: Text, target: Text, bundle: Text, fingerprint: Option<Text>, native: seq<StagedNative>, repositories: seq<StagedRepository>)

  type Files = map<StagePath, Text>

  /** A sealed stage. Its manifest is nothing when it no longer parses. */
  datatype Stage = Stage(manifest: Option<Manifest>, files: Files)

  predicate At(files: Files, path: StagePath, data: Text) {
    path in files && files[path] == data
  }

  predicate HoldsNative(files: Files, staged: seq<StagedNative>, arts: seq<Artifact>) {
    |staged| == |arts| &&
    forall i :: 0 <= i < |arts| ==>
      staged[i] == StagedNative(arts[i].path, arts[i].mode, |arts[i].data|, NativePath(i)) &&
      At(files, NativePath(i), arts[i].data)
  }

  predicate HoldsRepository(files: Files, i: nat, r: Repository) {
    At(files, PartPath(i, Bundle), r.bundle) && At(files, PartPath(i, Staged), r.staged) &&
    At(files, PartPath(i, Unstaged), r.unstaged) && At(files, PartPath(i, Untracked), r.untracked)
  }

  function StagedAs(i: nat, r: Repository): StagedRepository {
    StagedRepository(r.metadata, PartPath(i, Bundle), PartPath(i, Staged), PartPath(i, Unstaged), PartPath(i, Untracked))
  }

  predicate HoldsRepositories(files: Files, staged: seq<StagedRepository>, repos: seq<Repository>) {
    |staged| == |repos| &&
    forall i :: 0 <= i < |repos| ==> staged[i] == StagedAs(i, repos[i]) && HoldsRepository(files, i, repos[i])
  }

  /** Nothing under native/ differs. */
  ghost predicate SameNative(a: Files, b: Files) {
    forall i: nat :: NativePath(i) in a ==> At(b, NativePath(i), a[NativePath(i)])
  }

  /** Nothing of another repository than `i` differs. */
  ghost predicate SameOthers(a: Files, b: Files, i: nat) {
    forall j: nat, q :: j != i && PartPath(j, q) in a ==> At(b, PartPath(j, q), a[PartPath(j, q)])
  }

  lemma SameNativeTrans(a: Files, b: Files, c: Files)
    requires SameNative(a, b) && SameNative(b, c)
    ensures SameNative(a, c)
  {
    hide NativePath;
    forall i: nat | NativePath(i) in a
      ensures At(c, NativePath(i), a[NativePath(i)])
    {
      assert At(b, NativePath(i), a[NativePath(i)]);
    }
  }

  lemma SameTrans(a: Files, b: Files, c: Files, i: nat)
    requires SameNative(a, b) && SameNative(b, c) && SameOthers(a, b, i) && SameOthers(b, c, i)
    ensures SameNative(a, c) && SameOthers(a, c, i)
  {
    hide NativePath, PartPath;
    SameNativeTrans(a, b, c);
    forall j: nat, q | j != i && PartPath(j, q) in a
      ensures At(c, PartPath(j, q), a[PartPath(j, q)])
    {
      assert At(b, PartPath(j, q), a[PartPath(j, q)]);
    }
  }

  lemma OthersHold(a: Files, b: Files, i: nat, j: nat, r: Repository)
    requires SameOthers(a, b, i) && j != i && HoldsRepository(a, j, r)
    ensures HoldsRepository(b, j, r)
  {
    hide PartPath;
  }

  lemma SameNativeHolds(a: Files, b: Files, staged: seq<StagedNative>, arts: seq<Artifact>)
    requires HoldsNative(a, staged, arts) && SameNative(a, b)
    ensures HoldsNative(b, staged, arts)
  {
    hide NativePath;
  }

  // ----- Requests and results -----

  datatype Spec = Spec(session: Text, target: Text, bundle: Text, count: nat, allowEmpty: bool, refresh: bool)

  datatype Input = Input(session: Text, target: Text, bundle: Text, canonical: Text, native: seq<Artifact>, repositories: seq<Repository>)

  /** Why a step failed: input and output, the source itself, a stage in the
      way or missing, a manifest that does not parse, or a staged file whose
      size is not the recorded one or over its limit. */
  datatype Failure = Io | BadSource | Occupied | Missing | Garbled | Resized | Oversize

  predicate RepositoryFits(r: Repository) {
    |r.bundle| <= MAX_PAYLOAD_BYTES && |r.staged| <= MAX_PAYLOAD_BYTES &&
    |r.unstaged| <= MAX_PAYLOAD_BYTES && |r.untracked| <= MAX_PAYLOAD_BYTES
  }

  predicate RepositoriesFit(repos: seq<Repository>) {
    forall i :: 0 <= i < |repos| ==> RepositoryFits(repos[i])
  }

  /** What is collected from a source in one instant. */
  function Gathered(spec: Spec, src: Source, order: seq<Path>): Option<(seq<Artifact>, seq<Repository>)> {
    match (Collected(src.native, order, spec.allowEmpty), Repositories(src.repositories, spec.count))
    case (Some(native), Some(repos)) => Some((native, repos))
    case _ => None
  }

  /** The archive writer's limits. Native files are far below the one for a
      payload. */
  predicate Writable(input: Input, archiveSize: Input -> nat) {
    RepositoriesFit(input.repositories) && archiveSize(input) <= MAX_MANIFEST_BYTES
  }

  /** The archive input of an export made in one instant, if the archive writer
      takes it. `archiveSize` is the size of the archive's own manifest. */
  function Direct(spec: Spec, canonical: Text, src: Source, order: seq<Path>, archiveSize: Input -> nat): Option<Input> {
    match Gathered(spec, src, order)
    case Some((native, repos)) =>
      var input := Input(spec.session, spec.target, spec.bundle, canonical, native, repos);
      if Writable(input, archiveSize) then Some(input) else None
    case None => None
  }

  // ----- What an export holds, on the source itself -----

  /** The artifact is the file at the `i`-th path. */
  predicate FileAt(native: map<Path, Body>, order: seq<Path>, i: nat, a: Artifact) {
    i < |order| && order[i] in native &&
    a.path == order[i] && a.mode == native[order[i]].mode && a.data == native[order[i]].data
  }

  /** `at` lists, in order, exactly the positions of `order` whose path is there,
      and the artifacts are the files at those paths. */
  ghost predicate Placed(native: map<Path, Body>, order: seq<Path>, arts: seq<Artifact>, at: seq<nat>) {
    && |at| == |arts|
    && (forall k :: 0 <= k < |at| ==> FileAt(native, order, at[k], arts[k]))
    && (forall j, k :: 0 <= j < k < |at| ==> at[j] < at[k])
    && (forall i :: 0 <= i < |order| && order[i] in native ==> i in at)
  }

  ghost predicate NativeOf(native: map<Path, Body>, order: seq<Path>, arts: seq<Artifact>) {
    exists at :: Placed(native, order, arts, at)
  }

  predicate IsRepository(src: Source, i: nat, r: Repository) {
    i < |src.repositories| && src.repositories[i] == Some(r)
  }

  predicate RepositoriesOf(found: seq<Option<Repository>>, count: nat, repos: seq<Repository>) {
    |repos| == count <= |found| && forall i :: 0 <= i < count ==> found[i] == Some(repos[i])
  }

  /** The input holds the source: every file of `order` that is there, and one
      snapshot for every repository asked for, each in its place. */
  ghost predicate ExportOf(spec: Spec, canonical: Text, src: Source, order: seq<Path>, input: Input) {
    && input.session == spec.session && input.target == spec.target && input.bundle == spec.bundle && input.canonical == canonical
    && NativeOf(src.native, order, input.native)
    && RepositoriesOf(src.repositories, spec.count, input.repositories)
  }

  function Datas(arts: seq<Artifact>): seq<Text> {
    seq(|arts|, i requires 0 <= i < |arts| => arts[i].data)
  }

  /** The total is that of all files put together. */
  lemma {:induction false} TotalIsBytes(arts: seq<Artifact>)
    ensures TotalSize(arts) == |Concat(Datas(arts))|
  {
    if arts != [] {
      var n := |arts| - 1;
      TotalIsBytes(arts[..n]);
      assert Datas(arts) == Datas(arts[..n]) + [arts[n].data];
      ConcatSnoc(Datas(arts[..n]), arts[n].data);
    }
  }

  predicate WithinLimits(spec: Spec, input: Input, archiveSize: Input -> nat) {
    && (forall i :: 0 <= i < |input.native| ==> |input.native[i].data| <= MAX_NATIVE_FILE)
    && (input.native == [] ==> spec.allowEmpty) && |Concat(Datas(input.native))| <= MAX_NATIVE_TOTAL
    && (forall i :: 0 <= i < |input.repositories| ==>
          var r := input.repositories[i];
          |r.bundle| <= MAX_PAYLOAD_BYTES && |r.staged| <= MAX_PAYLOAD_BYTES &&
          |r.unstaged| <= MAX_PAYLOAD_BYTES && |r.untracked| <= MAX_PAYLOAD_BYTES)
    && archiveSize(input) <= MAX_MANIFEST_BYTES
  }

  lemma {:induction false} ListingPlaced(native: map<Path, Body>, order: seq<Path>) returns (at: seq<nat>)
    ensures Placed(native, order, Listing(native, order), at)
  {
    if order == [] {
      at := [];
    } else {
      var n := |order| - 1;
      at := ListingPlaced(native, order[..n]);
      PlacedLonger(native, order, Listing(native, order[..n]), at);
      if order[n] in native {
        at := at + [n];
      }
    }
  }

  lemma PlacedLonger(native: map<Path, Body>, order: seq<Path>, arts: seq<Artifact>, at: seq<nat>)
    requires order != [] && Placed(native, order[..|order|-1], arts, at)
    ensures var n := |order| - 1;
            if order[n] in native
            then Placed(native, order, arts + [Artifact(order[n], native[order[n]].mode, native[order[n]].data)], at + [n])
            else Placed(native, order, arts, at)
  {
    var n := |order| - 1;
    assert forall k :: 0 <= k < |at| ==> FileAt(native, order[..n], at[k], arts[k]);
    assert forall k :: 0 <= k < |at| ==> FileAt(native, order, at[k], arts[k]);
    var longer := if order[n] in native then at + [n] else at;
    forall i | 0 <= i < |order| && order[i] in native
      ensures i in longer
    {
      if i < n {
        assert order[..n][i] in native;
        assert i in at;
      }
    }
  }

  lemma PlacedFront(native: map<Path, Body>, order: seq<Path>, arts: seq<Artifact>, at: seq<nat>)
    requires Placed(native, order, arts, at) && order != []
    ensures var n := |order| - 1;
            if order[n] in native then at != [] && at[|at|-1] == n && Placed(native, order[..n], arts[..|at|-1], at[..|at|-1])
            else Placed(native, order[..n], arts, at)
  {
    var n := |order| - 1;
    if order[n] in native {
      assert n in at;
      var m := |at| - 1;
      assert at[m] == n;
      forall i | 0 <= i < n && order[..n][i] in native
        ensures i in at[..m]
      {
        assert order[i] in native;
        var k :| 0 <= k < |at| && at[k] == i;
        assert at[..m][k] == i;
      }
    } else {
      forall i | 0 <= i < n && order[..n][i] in native
        ensures i in at
      {
        assert order[i] in native;
      }
    }
  }

  lemma {:induction false} PlacedIsListing(native: map<Path, Body>, order: seq<Path>, arts: seq<Artifact>, at: seq<nat>)
    requires Placed(native, order, arts, at)
    ensures arts == Listing(native, order)
    decreases order
  {
    if order == [] {
      assert at == [];
    } else {
      var n := |order| - 1;
      PlacedFront(native, order, arts, at);
      if order[n] in native {
        var m := |at| - 1;
        PlacedIsListing(native, order[..n], arts[..m], at[..m]);
        assert arts == arts[..m] + [arts[m]];
      } else {
        PlacedIsListing(native, order[..n], arts, at);
      }
    }
  }

  lemma NativeIff(native: map<Path, Body>, order: seq<Path>, arts: seq<Artifact>)
    ensures NativeOf(native, order, arts) <==> arts == Listing(native, order)
  {
    hide Placed;
    var at := ListingPlaced(native, order);
    if NativeOf(native, order, arts) {
      var those :| Placed(native, order, arts, those);
      PlacedIsListing(native, order, arts, those);
    }
  }

  lemma {:induction false} RepositoriesIff(found: seq<Option<Repository>>, count: nat, repos: seq<Repository>)
    ensures Repositories(found, count) == Some(repos) <==> RepositoriesOf(found, count, repos)
  {
    if count > 0 && repos != [] {
      var n := |repos| - 1;
      RepositoriesIff(found, count - 1, repos[..n]);
      assert repos == repos[..n] + [repos[n]];
    }
  }

  /** An export gives an input exactly when it holds the source and is within
      the limits. */
  lemma ExportedIff(spec: Spec, canonical: Text, src: Source, order: seq<Path>, archiveSize: Input -> nat, input: Input)
    ensures Direct(spec, canonical, src, order, archiveSize) == Some(input) <==>
            ExportOf(spec, canonical, src, order, input) && WithinLimits(spec, input, archiveSize)
  {
    hide NativeOf, RepositoriesOf, Listing, Repositories, TotalSize, Concat, Datas;
    TotalIsBytes(input.native);
    NativeIff(src.native, order, input.native);
    RepositoriesIff(src.repositories, spec.count, input.repositories);
  }

  /** Equal fingerprints mean that the native state did not change between. */
  ghost predicate FingerprintFaithful(history: nat -> Source) {
    forall s: nat, t: nat, u: nat :: s <= t <= u && history(s).fingerprint == history(u).fingerprint ==>
      history(t).native == history(s).native
  }

  ghost predicate NativeStill(history: nat -> Source, from: nat, until: nat) {
    forall t :: from <= t <= until ==> history(t).native == history(from).native
  }

  /** Nothing changes from one instant to another, as under the barrier. */
  ghost predicate Still(history: nat -> Source, from: nat, until: nat) {
    forall t :: from <= t <= until ==> history(t) == history(from)
  }

  // ----- What a stage manifest says -----

  function StagedNatives(arts: seq<Artifact>): seq<StagedNative> {
    seq(|arts|, i requires 0 <= i < |arts| => StagedNative(arts[i].path, arts[i].mode, |arts[i].data|, NativePath(i)))
  }

  function StagedRepositories(repos: seq<Repository>): seq<StagedRepository> {
    seq(|repos|, i requires 0 <= i < |repos| => StagedAs(i, repos[i]))
  }

  function ManifestOf(session: Text, target: Text, bundle: Text, arts: seq<Artifact>, repos: seq<Repository>, fingerprint: Option<Text>): Manifest {
    Manifest(session, target, bundle, fingerprint, StagedNatives(arts), StagedRepositories(repos))
  }

  lemma HoldsPins(files: Files, native: seq<StagedNative>, arts: seq<Artifact>, staged: seq<StagedRepository>, repos: seq<Repository>)
    requires HoldsNative(files, native, arts) && HoldsRepositories(files, staged, repos)
    ensures native == StagedNatives(arts) && staged == StagedRepositories(repos)
  {
    hide NativePath, PartPath, HoldsRepository;
  }

  lemma ManifestIs(files: Files, native: seq<StagedNative>, arts: seq<Artifact>, staged: seq<StagedRepository>, repos: seq<Repository>,
                   spec: Spec, fingerprint: Option<Text>)
    requires HoldsNative(files, native, arts) && HoldsRepositories(files, staged, repos)
    ensures Manifest(spec.session, spec.target, spec.bundle, fingerprint, native, staged) ==
            ManifestOf(spec.session, spec.target, spec.bundle, arts, repos, fingerprint)
  {
    hide HoldsNative, HoldsRepositories, StagedNatives, StagedRepositories;
    HoldsPins(files, native, arts, staged, repos);
  }

  /** The manifest of a stage of `src`, taken in one instant. */
  function StageManifest(spec: Spec, src: Source, order: seq<Path>): Option<Manifest> {
    match Gathered(spec, src, order)
    case Some((native, repos)) => Some(ManifestOf(spec.session, spec.target, spec.bundle, native, repos, Some(src.fingerprint)))
    case None => None
  }

  // ----- Reading a source that changes -----

  /** The first `k` files, each read one instant after the one before. */
  function TornListing(history: nat -> Source, order: seq<Path>, from: nat, k: nat): seq<Artifact>
    requires k <= |order|
  {
    if k == 0 then []
    else
      var p, now := order[k-1], history(from + k).native;
      TornListing(history, order, from, k - 1) + if p in now then [Artifact(p, now[p].mode, now[p].data)] else []
  }

  function TornCollected(history: nat -> Source, order: seq<Path>, from: nat, allowEmpty: bool): Option<seq<Artifact>> {
    var arts := TornListing(history, order, from, |order|);
    if EachFits(arts) && (allowEmpty || arts != []) && TotalSize(arts) <= MAX_NATIVE_TOTAL then Some(arts) else None
  }

  function TornRepositories(history: nat -> Source, from: nat, count: nat): Option<seq<Repository>> {
    if count == 0 then Some([])
    else
      match (TornRepositories(history, from, count - 1), RepositoryAt(history(from + count).repositories, count - 1))
      case (Some(front), Some(r)) => Some(front + [r])
      case _ => None
  }

  function TornGathered(history: nat -> Source, spec: Spec, order: seq<Path>, from: nat): Option<(seq<Artifact>, seq<Repository>)> {
    match (TornCollected(history, order, from, spec.allowEmpty), TornRepositories(history, from + |order|, spec.count))
    case (Some(native), Some(repos)) => Some((native, repos))
    case _ => None
  }

  /** The manifest a new capture writes, reading from `from` on, whatever happens
      to the source meanwhile. The fingerprint was taken at `start` and is taken
      again after everything is written. */
  function TornManifest(history: nat -> Source, spec: Spec, order: seq<Path>, from: nat, start: nat): Option<Manifest> {
    match TornGathered(history, spec, order, from)
    case None => None
    case Some((native, repos)) =>
      var before, after := history(start).fingerprint, history(from + |order| + spec.count + |native| + 4 * |repos| + 1).fingerprint;
      Some(ManifestOf(spec.session, spec.target, spec.bundle, native, repos, if before == after then Some(after) else None))
  }

  /** What a prestage that begins at `from` leaves behind. */
  function Prestaged(history: nat -> Source, spec: Spec, order: seq<Path>, from: nat): Option<Manifest> {
    TornManifest(history, spec.(allowEmpty := false, refresh := false), order, from + 1, from + 1)
  }

  lemma {:induction false} TornIsWhole(history: nat -> Source, order: seq<Path>, from: nat, k: nat, native: map<Path, Body>)
    requires k <= |order| && forall t :: from <= t <= from + k ==> history(t).native == native
    ensures TornListing(history, order, from, k) == Listing(native, order[..k])
    ensures |TornListing(history, order, from, k)| <= k
  {
    if k > 0 {
      assert order[..k][..k-1] == order[..k-1];
      TornIsWhole(history, order, from, k - 1, native);
    }
  }

  lemma {:induction false} TornRepositoriesWhole(history: nat -> Source, from: nat, count: nat, found: seq<Option<Repository>>)
    requires forall t :: from <= t <= from + count ==> history(t).repositories == found
    ensures TornRepositories(history, from, count) == Repositories(found, count)
    ensures TornRepositories(history, from, count).Some? ==> |TornRepositories(history, from, count).value| == count
  {
    if count > 0 {
      TornRepositoriesWhole(history, from, count - 1, found);
    }
  }

  /** A prestage of a source that stands still leaves its manifest. */
  lemma StillPrestaged(history: nat -> Source, spec: Spec, order: seq<Path>, from: nat)
    requires Still(history, from, from + CaptureSteps(spec, order))
    ensures Prestaged(history, spec, order, from) == StageManifest(spec.(allowEmpty := false), history(from), order)
  {
    hide Listing, TornListing, EachFits, TotalSize, ManifestOf, Repositories, TornRepositories;
    TornIsWhole(history, order, from + 1, |order|, history(from).native);
    assert order[..|order|] == order;
    TornRepositoriesWhole(history, from + 1 + |order|, spec.count, history(from).repositories);
  }

  // ----- Reading and writing -----

  lemma {:induction false} TornTooLarge(history: nat -> Source, order: seq<Path>, from: nat, k: nat, n: nat)
    requires k < n <= |order| && order[k] in history(from + k + 1).native
    requires |history(from + k + 1).native[order[k]].data| > MAX_NATIVE_FILE
    ensures !EachFits(TornListing(history, order, from, n))
    decreases n
  {
    var all := TornListing(history, order, from, n);
    if k == n - 1 {
      assert all[|all|-1].data == history(from + n).native[order[k]].data;
    } else {
      TornTooLarge(history, order, from, k, n - 1);
      var front := TornListing(history, order, from, n - 1);
      var bad :| 0 <= bad < |front| && |front[bad].data| > MAX_NATIVE_FILE;
      assert all[bad] == front[bad];
    }
  }

  lemma {:induction false} TornRepositoriesFail(history: nat -> Source, from: nat, k: nat, count: nat)
    requires k < count && RepositoryAt(history(from + k + 1).repositories, k).None?
    ensures TornRepositories(history, from, count).None?
  {
    if k < count - 1 {
      TornRepositoriesFail(history, from, k, count - 1);
    }
  }

  lemma {:induction false} TooLargeListed(native: map<Path, Body>, order: seq<Path>, k: nat)
    requires k < |order| && order[k] in native && |native[order[k]].data| > MAX_NATIVE_FILE
    ensures !EachFits(Listing(native, order))
    decreases |order|
  {
    var front := order[..|order|-1];
    if k == |order| - 1 {
      var all := Listing(native, order);
      assert all[|all|-1].data == native[order[k]].data;
    } else {
      TooLargeListed(native, front, k);
      var bad :| 0 <= bad < |Listing(native, front)| && |Listing(native, front)[bad].data| > MAX_NATIVE_FILE;
      assert Listing(native, order)[bad] == Listing(native, front)[bad];
    }
  }

  lemma {:induction false} RepositoriesFail(found: seq<Option<Repository>>, k: nat, count: nat)
    requires k < count && RepositoryAt(found, k).None?
    ensures Repositories(found, count).None?
  {
    if k < count - 1 {
      RepositoriesFail(found, k, count - 1);
    }
  }

  /** The target machine. Every step happens at its own instant, so whatever
      the session writes meanwhile is some `history`. */
  class Target {
    const history: nat -> Source
    /** Every path of the native source, in archive order. */
    const order: seq<Path>
    /** The steps at which reading or writing fails. */
    const fault: nat -> bool
    const manifestSize: Manifest -> nat
    const archiveSize: Input -> nat
    var clock: nat
    var stage: Option<Stage>
    /** The artifacts the stage holds and the instant they were collected. */
    ghost var arts: seq<Artifact>
    ghost var origin: nat

    constructor (history: nat -> Source, order: seq<Path>, fault: nat -> bool, manifestSize: Manifest -> nat, archiveSize: Input -> nat)
      ensures this.history == history && this.order == order && this.fault == fault
      ensures this.manifestSize == manifestSize && this.archiveSize == archiveSize
      ensures clock == 0 && stage == None
    {
      this.history, this.order, this.fault := history, order, fault;
      this.manifestSize, this.archiveSize := manifestSize, archiveSize;
      clock, stage := 0, None;
    }

    /** What every stage keeps, however captures fail: its native part is
        whole, and its fingerprint, if any, is that of the very same state. */
    ghost predicate Valid()
      reads this
    {
      stage.Some? && stage.value.manifest.Some? ==>
        var m := stage.value.manifest.value;
        && HoldsNative(stage.value.files, m.native, arts)
        && EachFits(arts)
        && origin <= clock
        && (m.fingerprint.Some? ==>
              m.fingerprint.value == history(origin).fingerprint &&
              Collected(history(origin).native, order, true) == Some(arts))
    }

    /** Over the limit with which stage manifests are read. */
    predicate ManifestTooLarge(m: Option<Manifest>) {
      m.Some? && manifestSize(m.value) > MAX_STAGE_MANIFEST
    }

    /** The stage is that of `src`, taken in one instant. */
    ghost predicate Holds(spec: Spec, src: Source)
      reads this
    {
      && stage.Some? && stage.value.manifest.Some?
      && var m := stage.value.manifest.value;
      && m.session == spec.session && m.target == spec.target && m.bundle == spec.bundle && m.fingerprint == Some(src.fingerprint)
      && HoldsNative(stage.value.files, m.native, arts)
      && Collected(src.native, order, true) == Some(arts)
      && Repositories(src.repositories, spec.count).Some?
      && HoldsRepositories(stage.value.files, m.repositories, Repositories(src.repositories, spec.count).value)
    }

    /** The files are read one after the other while the source may change. */
    method CollectNative(allowEmpty: bool) returns (r: Option<seq<Artifact>>)
      modifies this`clock
      ensures old(clock) <= clock <= old(clock) + |order|
      ensures NativeStill(history, old(clock), clock) ==> r == Collected(history(old(clock)).native, order, allowEmpty)
      ensures r == TornCollected(history, order, old(clock), allowEmpty) && (r.Some? ==> clock == old(clock) + |order|)
      ensures r.Some? ==> EachFits(r.value) && (allowEmpty || r.value != []) && |r.value| <= |order|
    {
      hide TotalSize, EachFits;
      ghost var native := history(clock).native;
      var out := [];
      NoneFits();
      for k := 0 to |order|
        invariant clock == old(clock) + k && |out| <= k
        invariant EachFits(out) && out == TornListing(history, order, old(clock), k)
        invariant NativeStill(history, old(clock), clock) ==> out == Listing(native, order[..k])
      {
        var p := order[k];
        assert order[..k+1][..k] == order[..k];
        clock := clock + 1;
        var now := history(clock).native;
        assert NativeStill(history, old(clock), clock) ==> now == native;
        if p in now {
          if |now[p].data| > MAX_NATIVE_FILE {
            if NativeStill(history, old(clock), clock) {
              TooLargeListed(native, order, k);
            }
            TornTooLarge(history, order, old(clock), k, |order|);
            return None;
          }
          FitsSnoc(out, Artifact(p, now[p].mode, now[p].data));
          out := out + [Artifact(p, now[p].mode, now[p].data)];
        }
      }
      assert order[..|order|] == order;
      var total := SumOf(out);
      if (allowEmpty || out != []) && total <= MAX_NATIVE_TOTAL {
        r := Some(out);
      } else {
        r := None;
      }
    }

    static lemma NoneFits()
      ensures EachFits([])
    {
    }

    static lemma FitsSnoc(arts: seq<Artifact>, a: Artifact)
      ensures EachFits(arts + [a]) <==> EachFits(arts) && |a.data| <= MAX_NATIVE_FILE
    {
      assert forall i :: 0 <= i < |arts| ==> (arts + [a])[i] == arts[i];
      assert (arts + [a])[|arts|] == a;
    }

    static method SumOf(arts: seq<Artifact>) returns (total: nat)
      ensures total == TotalSize(arts)
    {
      total := 0;
      for k := 0 to |arts|
        invariant total == TotalSize(arts[..k])
      {
        assert arts[..k+1][..k] == arts[..k];
        total := total + |arts[k].data|;
      }
      assert arts[..|arts|] == arts;
    }

    method CollectRepositories(count: nat) returns (r: Option<seq<Repository>>)
      modifies this`clock
      ensures old(clock) <= clock <= old(clock) + count && (r.Some? ==> |r.value| == count)
      ensures Still(history, old(clock), clock) ==> r == Repositories(history(old(clock)).repositories, count)
      ensures r == TornRepositories(history, old(clock), count) && (r.Some? ==> clock == old(clock) + count)
      // each is the one asked for, as it was when its turn came
      ensures r.Some? ==> forall i :: 0 <= i < count ==>
        IsRepository(history(old(clock) + i + 1), i, r.value[i])
      ensures r.None? ==>
        var i := clock - old(clock) - 1;
        0 <= i < count && (|history(clock).repositories| <= i || history(clock).repositories[i].None?)
    {
      ghost var found := history(clock).repositories;
      var out := [];
      for k := 0 to count
        invariant clock == old(clock) + k && |out| == k
        invariant Still(history, old(clock), clock) ==> Some(out) == Repositories(found, k)
        invariant Some(out) == TornRepositories(history, old(clock), k)
        invariant forall i :: 0 <= i < k ==> IsRepository(history(old(clock) + i + 1), i, out[i])
      {
        clock := clock + 1;
        var now := RepositoryAt(history(clock).repositories, k);
        assert Still(history, old(clock), clock) ==> now == RepositoryAt(found, k);
        if now.None? {
          if Still(history, old(clock), clock) {
            RepositoriesFail(found, k, count);
          }
          TornRepositoriesFail(history, old(clock), k, count);
          return None;
        }
        assert IsRepository(history(old(clock) + k + 1), k, now.value);
        out := out + [now.value];
      }
      r := Some(out);
    }

    method Gather(spec: Spec) returns (r: Option<(seq<Artifact>, seq<Repository>)>)
      modifies this`clock
      ensures old(clock) <= clock <= old(clock) + |order| + spec.count
      ensures r.Some? ==> EachFits(r.value.0) && (spec.allowEmpty || r.value.0 != [])
      ensures r.Some? ==> |r.value.0| <= |order| && |r.value.1| == spec.count
      ensures r == TornGathered(history, spec, order, old(clock)) && (r.Some? ==> clock == old(clock) + |order| + spec.count)
      ensures r.Some? && NativeStill(history, old(clock), clock) ==>
              Collected(history(old(clock)).native, order, spec.allowEmpty) == Some(r.value.0)
      ensures r.Some? && Still(history, old(clock), clock) ==>
              Repositories(history(old(clock)).repositories, spec.count) == Some(r.value.1)
      ensures r.None? && Still(history, old(clock), clock) ==> Gathered(spec, history(old(clock)), order).None?
    {
      hide Collected, Repositories, EachFits, TornCollected, TornRepositories;
      var native := CollectNative(spec.allowEmpty);
      if native.None? {
        return None;
      }
      var repos := CollectRepositories(spec.count);
      if repos.None? {
        return None;
      }
      return Some((native.value, repos.value));
    }

    /** Writes one file of a stage; a failure may leave it cut short. */
    method WriteFile(files0: Files, path: StagePath, data: Text) returns (files: Files, failed: bool)
      modifies this`clock
      ensures clock == old(clock) + 1 && failed == fault(clock)
      ensures path in files && files == files0[path := files[path]]
      ensures !failed ==> files[path] == data
    {
      clock := clock + 1;
      failed := fault(clock);
      if failed {
        var n :| 0 <= n <= |data|;
        files := files0[path := data[..n]];
      } else {
        files := files0[path := data];
      }
    }

    method WriteNative(native: seq<Artifact>) returns (files: Files, staged: seq<StagedNative>, failed: bool)
      modifies this`clock
      ensures old(clock) <= clock <= old(clock) + |native|
      ensures failed ==> fault(clock)
      ensures !failed ==> HoldsNative(files, staged, native) && clock == old(clock) + |native|
    {
      hide NativePath;
      files, staged, failed := map[], [], false;
      for k := 0 to |native|
        invariant clock == old(clock) + k
        invariant HoldsNative(files, staged, native[..k])
      {
        var path := NativePath(k);
        ghost var was := files;
        files, failed := WriteFile(files, path, native[k].data);
        if failed {
          return;
        }
        forall i | 0 <= i < k
          ensures At(files, NativePath(i), native[i].data)
        {
          assert At(was, NativePath(i), native[..k][i].data);
          PathsDiffer(i, Bundle, k, Bundle);
        }
        staged := staged + [StagedNative(native[k].path, native[k].mode, |native[k].data|, path)];
      }
      assert native[..|native|] == native;
    }

    method WritePart(files0: Files, i: nat, part: Part, data: Text) returns (files: Files, failed: bool)
      modifies this`clock
      ensures clock == old(clock) + 1
      ensures failed == fault(clock)
      ensures SameNative(files0, files) && SameOthers(files0, files, i)
      ensures forall q :: q != part && PartPath(i, q) in files0 ==> At(files, PartPath(i, q), files0[PartPath(i, q)])
      ensures !failed ==> At(files, PartPath(i, part), data)
    {
      hide PartPath, NativePath;
      files, failed := WriteFile(files0, PartPath(i, part), data);
      ApartFrom(i, part);
    }

    method WriteRepository(files0: Files, i: nat, r: Repository) returns (files: Files, failed: bool)
      modifies this`clock
      ensures old(clock) <= clock <= old(clock) + 4
      ensures failed ==> fault(clock)
      ensures SameNative(files0, files) && SameOthers(files0, files, i)
      ensures !failed ==> HoldsRepository(files, i, r) && clock == old(clock) + 4
    {
      hide PartPath, NativePath, SameNative, SameOthers;
      files, failed := WritePart(files0, i, Bundle, r.bundle);
      if failed {
        return;
      }
      ghost var before := files;
      files, failed := WritePart(files, i, Staged, r.staged);
      SameTrans(files0, before, files, i);
      if failed {
        return;
      }
      before := files;
      files, failed := WritePart(files, i, Unstaged, r.unstaged);
      SameTrans(files0, before, files, i);
      if failed {
        return;
      }
      before := files;
      files, failed := WritePart(files, i, Untracked, r.untracked);
      SameTrans(files0, before, files, i);
    }

    method WriteRepositories(files0: Files, repos: seq<Repository>)
        returns (files: Files, staged: seq<StagedRepository>, failed: bool)
      modifies this`clock
      ensures old(clock) <= clock <= old(clock) + 4 * |repos|
      ensures failed ==> fault(clock)
      ensures SameNative(files0, files)
      ensures !failed ==> HoldsRepositories(files, staged, repos) && clock == old(clock) + 4 * |repos|
    {
      hide NativePath, PartPath, HoldsRepository;
      files, staged, failed := files0, [], false;
      for k := 0 to |repos|
        invariant clock == old(clock) + 4 * k
        invariant SameNative(files0, files)
        invariant HoldsRepositories(files, staged, repos[..k])
      {
        ghost var was := files;
        files, failed := WriteRepository(files, k, repos[k]);
        SameNativeTrans(files0, was, files);
        if failed {
          return;
        }
        forall i | 0 <= i < k
          ensures HoldsRepository(files, i, repos[i])
        {
          assert HoldsRepository(was, i, repos[..k][i]);
          OthersHold(was, files, k, i, repos[i]);
        }
        staged := staged + [StagedAs(k, repos[k])];
      }
      assert repos[..|repos|] == repos;
    }

    /** Rewrites the manifest in place. A failure leaves the old one, the new
        one, or one that does not parse. */
    method WriteManifest(m: Manifest) returns (failed: bool)
      requires stage.Some?
      modifies this`clock, this`stage
      ensures clock == old(clock) + 1 && failed == fault(clock)
      ensures stage.Some? && stage.value.files == old(stage).value.files
      ensures stage.value.manifest in {None, old(stage).value.manifest, Some(m)}
      ensures !failed ==> stage.value.manifest == Some(m)
    {
      clock := clock + 1;
      failed := fault(clock);
      if !failed {
        stage := Some(stage.value.(manifest := Some(m)));
      } else if * {
        stage := Some(stage.value.(manifest := None));
      } else if * {
        stage := Some(stage.value.(manifest := Some(m)));
      }
    }

    method ReadManifest() returns (m: Option<Manifest>, why: Failure)
      requires stage.Some?
      modifies this`clock
      ensures clock == old(clock) + 1
      ensures m.Some? ==> m == stage.value.manifest && manifestSize(m.value) <= MAX_STAGE_MANIFEST
      ensures m.None? ==> match why
        case Io => fault(clock)
        case Garbled => stage.value.manifest.None?
        case Oversize => stage.value.manifest.Some? && manifestSize(stage.value.manifest.value) > MAX_STAGE_MANIFEST
        case _ => false
    {
      clock := clock + 1;
      if fault(clock) {
        return None, Io;
      } else if stage.value.manifest.None? {
        return None, Garbled;
      } else if manifestSize(stage.value.manifest.value) > MAX_STAGE_MANIFEST {
        return None, Oversize;
      }
      return stage.value.manifest, Io;
    }

    /** Replaces the repositories of a stage, bodies first, manifest last. */
    method ReplaceRepositories(m: Manifest, repos: seq<Repository>) returns (failed: bool)
      requires Valid() && stage.Some? && stage.value.manifest == Some(m)
      modifies this`clock, this`stage
      ensures clock >= old(clock) && Valid() && stage.Some?
      ensures failed ==> fault(clock)
      ensures !failed ==>
        && stage.value.manifest.Some? && stage.value.manifest.value == m.(repositories := stage.value.manifest.value.repositories)
        && HoldsNative(stage.value.files, m.native, arts)
        && HoldsRepositories(stage.value.files, stage.value.manifest.value.repositories, repos)
    {
      hide HoldsNative, HoldsRepositories, Collected, EachFits, SameNative;
      clock := clock + 1;
      if fault(clock) {
        return true;
      }
      var bare := WithoutRepositories(stage.value.files);
      BareKeepsNative(stage.value.files);
      var files, staged;
      files, staged, failed := WriteRepositories(bare, repos);
      SameNativeTrans(stage.value.files, bare, files);
      SameNativeHolds(stage.value.files, files, m.native, arts);
      stage := Some(stage.value.(files := files));
      if !failed {
        failed := WriteManifest(m.(repositories := staged));
      }
    }

    /** Brings a stage up to date if its native part is still that of the
        source, whose fingerprint has just been taken. */
    method Refresh(spec: Spec, before: Text) returns (r: Refreshed)
      requires Valid() && FingerprintFaithful(history) && stage.Some? && before == history(clock).fingerprint
      modifies this`clock, this`stage
      ensures clock >= old(clock) && Valid() && stage.Some?
      ensures !r.RefreshFailed? ==> !ManifestTooLarge(old(stage).value.manifest)
      ensures r.Reused? && Still(history, old(clock), clock) ==> Holds(spec, history(old(clock)))
      // the native part is given up only when it is not the one asked for
      ensures r.NotReusable? && Still(history, old(clock), clock) ==>
              old(stage).value.manifest.Some? && !Matches(old(stage).value.manifest.value, spec, before)
      ensures r.RefreshFailed? ==> match r.why
        case Io => fault(clock)
        case BadSource => Still(history, old(clock), clock) ==> Repositories(history(old(clock)).repositories, spec.count).None?
        case Garbled => old(stage).value.manifest.None?
        case Oversize =>
          ManifestTooLarge(old(stage).value.manifest)
        case _ => false
      ensures ManifestTooLarge(old(stage).value.manifest) ==> r == RefreshFailed(Oversize) || r == RefreshFailed(Io)
    {
      hide HoldsNative, HoldsRepositories, Collected, EachFits, Repositories, FingerprintFaithful;
      var read, why := ReadManifest();
      if read.None? {
        return RefreshFailed(why);
      }
      var m := read.value;
      if !Matches(m, spec, before) {
        return NotReusable;
      }
      SameState(history, origin, old(clock));
      var repos := CollectRepositories(spec.count);
      if repos.None? {
        return RefreshFailed(BadSource);
      }
      clock := clock + 1;
      if fault(clock) {
        return RefreshFailed(Io);
      }
      if history(clock).fingerprint != before {
        return NotReusable;
      }
      var failed := ReplaceRepositories(m, repos.value);
      return if failed then RefreshFailed(Io) else Reused;
    }

    method WriteBodies(native: seq<Artifact>, repos: seq<Repository>)
        returns (files: Files, staged: seq<StagedNative>, stagedRepos: seq<StagedRepository>, failed: bool)
      modifies this`clock
      ensures old(clock) <= clock <= old(clock) + |native| + 4 * |repos|
      ensures failed ==> fault(clock)
      ensures !failed ==> HoldsNative(files, staged, native) && HoldsRepositories(files, stagedRepos, repos)
      ensures !failed ==> clock == old(clock) + |native| + 4 * |repos|
    {
      hide HoldsNative, HoldsRepositories, SameNative;
      stagedRepos := [];
      files, staged, failed := WriteNative(native);
      if !failed {
        var bodies := files;
        files, stagedRepos, failed := WriteRepositories(bodies, repos);
        SameNativeHolds(bodies, files, staged, native);
      }
    }

    /** Copies the source, as it is read from `from` on, into a stage that is not
        in place yet. The fingerprint, taken at `start` and again at the end, is
        kept only if it is the same. */
    method CopySource(spec: Spec, before: Text, ghost start: nat)
        returns (why: Option<Failure>, made: Stage, ghost native: seq<Artifact>, ghost repos: seq<Repository>)
      requires start <= clock && before == history(start).fingerprint
      modifies this`clock
      ensures old(clock) <= clock <= old(clock) + CaptureSteps(spec, order) - 2
      ensures why.None? ==>
        && TornGathered(history, spec, order, old(clock)) == Some((native, repos))
        && old(clock) + |order| + spec.count <= clock
        && made.manifest == TornManifest(history, spec, order, old(clock), start) && made.manifest.Some?
        && made.manifest.value.fingerprint == (if before == history(clock).fingerprint then Some(before) else None)
        && made.manifest.value.session == spec.session && made.manifest.value.target == spec.target
        && made.manifest.value.bundle == spec.bundle
        && HoldsNative(made.files, made.manifest.value.native, native)
        && HoldsRepositories(made.files, made.manifest.value.repositories, repos)
        && EachFits(native) && (spec.allowEmpty || native != [])
      ensures why.Some? ==> match why.value
        case Io => fault(clock)
        case BadSource =>
          && TornManifest(history, spec, order, old(clock), start).None?
          && (Still(history, old(clock), clock) ==> Gathered(spec, history(old(clock)), order).None?)
        case Occupied => stage.Some?
        case _ => false
    {
      hide HoldsNative, HoldsRepositories, Collected, EachFits, Repositories, TornGathered, StagedNatives, StagedRepositories, NativeStill, Still, Gathered;
      made, native, repos := Stage(None, map[]), [], [];
      var gathered := Gather(spec);
      if gathered.None? {
        return Some(BadSource), made, [], [];
      }
      if stage.Some? {
        return Some(Occupied), made, [], [];
      }
      native, repos := gathered.value.0, gathered.value.1;
      var files, staged, stagedRepos, failed := WriteBodies(gathered.value.0, gathered.value.1);
      if failed {
        return Some(Io), made, [], [];
      }
      clock := clock + 1;
      if fault(clock) {
        return Some(Io), made, [], [];
      }
      var after := history(clock).fingerprint;
      var kept := if before == after then Some(after) else None;
      ManifestIs(files, staged, native, stagedRepos, repos, spec, kept);
      made := Stage(Some(Manifest(spec.session, spec.target, spec.bundle, kept, staged, stagedRepos)), files);
      why := None;
    }

    /** Makes a new stage and puts it in place in one step. */
    method CaptureAnew(spec: Spec, before: Text, ghost start: nat) returns (why: Option<Failure>)
      requires Valid() && FingerprintFaithful(history) && start <= clock && before == history(start).fingerprint
      modifies this
      ensures old(clock) <= clock < old(clock) + CaptureSteps(spec, order) && Valid()
      ensures why.None? && Still(history, start, clock) ==> Holds(spec, history(start))
      ensures why.None? ==> stage.Some? && (spec.allowEmpty || arts != []) && stage.value.manifest.Some?
      ensures why.None? ==> stage.value.manifest == TornManifest(history, spec, order, old(clock), start)
      ensures why.Some? ==> stage == old(stage)
      ensures why.Some? ==> match why.value
        case Io => fault(clock)
        case BadSource =>
          && TornManifest(history, spec, order, old(clock), start).None?
          && (Still(history, old(clock), clock) ==> Gathered(spec, history(old(clock)), order).None?)
        case Occupied => old(stage).Some?
        case _ => false
    {
      hide HoldsNative, HoldsRepositories, Collected, EachFits, Repositories, FingerprintFaithful, TornGathered, TornManifest,
        NativeStill, Still, Gathered;
      var made;
      ghost var native, repos;
      why, made, native, repos := CopySource(spec, before, start);
      if why.Some? {
        return;
      }
      TornFacts(history, spec, order, old(clock), start, clock, native, repos);
      clock := clock + 1;
      StillSooner(history, start, clock - 1, clock);
      if fault(clock) {
        return Some(Io);
      }
      stage, arts, origin := Some(made), native, start;
    }

    /** One capture: refreshes the stage that is there, or makes a new one. */
    method Capture(spec: Spec) returns (why: Option<Failure>)
      requires Valid() && FingerprintFaithful(history)
      modifies this
      ensures clock >= old(clock) && Valid()
      ensures old(stage).None? ==> clock <= old(clock) + CaptureSteps(spec, order)
      ensures why.None? && Still(history, old(clock), clock) ==> Holds(spec, history(old(clock)))
      ensures why.None? && (spec.allowEmpty || old(stage).None? || old(arts) != []) ==>
              stage.Some? && (spec.allowEmpty || arts != [])
      ensures why.None? && spec.refresh && old(stage).Some? ==> !ManifestTooLarge(old(stage).value.manifest)
      ensures old(stage).None? ==> if why.None? then stage.Some? && stage.value.manifest.Some? else stage.None?
      // with no stage in the way, what is left is determined by the history
      ensures old(stage).None? && why.None? ==>
              stage.value.manifest == TornManifest(history, spec, order, old(clock) + 1, old(clock) + 1)
      ensures old(stage).None? && why == Some(BadSource) ==>
              TornManifest(history, spec, order, old(clock) + 1, old(clock) + 1).None?
      ensures why.Some? ==> match why.value
        case Io => fault(clock)
        case BadSource =>
          Still(history, old(clock), clock) ==> Gathered(spec, history(old(clock)), order).None?
        case Occupied => !spec.refresh && old(stage).Some?
        case Garbled => spec.refresh && old(stage).Some? && old(stage).value.manifest.None?
        case Oversize => spec.refresh && old(stage).Some? && ManifestTooLarge(old(stage).value.manifest)
        case _ => false
      // and a stage with such a manifest cannot be refreshed, whatever the source
      ensures spec.refresh && old(stage).Some? && ManifestTooLarge(old(stage).value.manifest) ==>
              why == Some(Oversize) || why == Some(Io)
    {
      hide HoldsNative, HoldsRepositories, Collected, EachFits, Repositories, FingerprintFaithful;
      clock := clock + 1;
      if fault(clock) {
        return Some(Io);
      }
      var before := history(clock).fingerprint;
      ghost var start := clock;
      if spec.refresh && stage.Some? {
        var refreshed := Refresh(spec, before);
        match refreshed
        case Reused => return None;
        case RefreshFailed(w) => return Some(w);
        case NotReusable =>
          clock := clock + 1;
          if fault(clock) {
            return Some(Io);
          }
          stage := None;
      }
      why := CaptureAnew(spec, before, start);
    }

    method ReadFile(path: StagePath, maximum: nat) returns (data: Option<Text>, why: Failure)
      requires stage.Some?
      modifies this`clock
      ensures clock == old(clock) + 1
      ensures data.Some? ==> At(stage.value.files, path, data.value) && |data.value| <= maximum
      ensures data.None? ==> match why
        case Io => fault(clock)
        case Missing => path !in stage.value.files
        case Oversize => path in stage.value.files && |stage.value.files[path]| > maximum
        case _ => false
    {
      clock := clock + 1;
      if fault(clock) {
        return None, Io;
      } else if path !in stage.value.files {
        return None, Missing;
      } else if |stage.value.files[path]| > maximum {
        return None, Oversize;
      }
      return Some(stage.value.files[path]), Io;
    }

    method ReadNative(staged: seq<StagedNative>) returns (native: Option<seq<Artifact>>, why: Failure)
      requires stage.Some?
      modifies this`clock
      ensures clock >= old(clock)
      ensures HoldsNative(stage.value.files, staged, arts) && EachFits(arts) ==>
              native == Some(arts) || (native.None? && why == Io)
      ensures native.None? && why == Io ==> fault(clock)
    {
      hide NativePath;
      var out := [];
      for k := 0 to |staged|
        invariant clock >= old(clock)
        invariant HoldsNative(stage.value.files, staged, arts) ==> out == arts[..k]
      {
        var s := staged[k];
        var data, w := ReadFile(s.body, MAX_NATIVE_FILE);
        if data.None? {
          assert HoldsNative(stage.value.files, staged, arts) ==> At(stage.value.files, s.body, arts[k].data);
          return None, w;
        }
        if |data.value| != s.size {
          return None, Resized;
        }
        out := out + [Artifact(s.path, s.mode, data.value)];
      }
      assert |arts| == |staged| ==> arts[..|staged|] == arts;
      return Some(out), Io;
    }

    method ReadRepository(s: StagedRepository, ghost i: nat, ghost r: Repository)
        returns (repo: Option<Repository>, why: Failure)
      requires stage.Some?
      modifies this`clock
      ensures clock >= old(clock)
      ensures s == StagedAs(i, r) && HoldsRepository(stage.value.files, i, r) ==>
              match repo case Some(read) => read == r && RepositoryFits(r)
                         case None => why == Io || (why == Oversize && !RepositoryFits(r))
      ensures repo.None? && why == Io ==> fault(clock)
    {
      hide PartPath;
      var bundle, staged, unstaged, untracked;
      bundle, why := ReadFile(s.bundle, MAX_NATIVE_TOTAL);
      if bundle.None? {
        return None, why;
      }
      staged, why := ReadFile(s.staged, MAX_NATIVE_TOTAL);
      if staged.None? {
        return None, why;
      }
      unstaged, why := ReadFile(s.unstaged, MAX_NATIVE_TOTAL);
      if unstaged.None? {
        return None, why;
      }
      untracked, why := ReadFile(s.untracked, MAX_NATIVE_TOTAL);
      if untracked.None? {
        return None, why;
      }
      return Some(Repository(s.metadata, bundle.value, staged.value, unstaged.value, untracked.value)), Io;
    }

    method ReadRepositories(staged: seq<StagedRepository>, ghost repos: seq<Repository>)
        returns (read: Option<seq<Repository>>, why: Failure)
      requires stage.Some?
      modifies this`clock
      ensures clock >= old(clock)
      ensures HoldsRepositories(stage.value.files, staged, repos) ==>
              match read case Some(all) => all == repos && RepositoriesFit(repos)
                         case None => why == Io || (why == Oversize && !RepositoriesFit(repos))
      ensures read.None? && why == Io ==> fault(clock)
    {
      hide PartPath, HoldsRepository, RepositoryFits, StagedAs;
      var out := [];
      for k := 0 to |staged|
        invariant clock >= old(clock)
        invariant HoldsRepositories(stage.value.files, staged, repos) ==> out == repos[..k] && RepositoriesFit(repos[..k])
      {
        ghost var r := if k < |repos| then repos[k] else Repository([], [], [], [], []);
        var repo, w := ReadRepository(staged[k], k, r);
        assert HoldsRepositories(stage.value.files, staged, repos) ==>
          staged[k] == StagedAs(k, repos[k]) && HoldsRepository(stage.value.files, k, repos[k]);
        if repo.None? {
          return None, w;
        }
        out := out + [repo.value];
      }
      assert HoldsRepositories(stage.value.files, staged, repos) ==> repos[..|staged|] == repos;
      return Some(out), Io;
    }

    /** Reads the stage back into an archive input. */
    method Unpack(canonical: Text, ghost repos: seq<Repository>) returns (r: Packed)
      requires stage.Some?
      modifies this`clock
      ensures clock >= old(clock)
      ensures r.PackFailed? && r.why == Io ==> fault(clock)
      ensures r.Packed? ==> stage.value.manifest.Some?
      ensures stage.value.manifest.Some? && EachFits(arts) ==>
        var m := stage.value.manifest.value;
        HoldsNative(stage.value.files, m.native, arts) && HoldsRepositories(stage.value.files, m.repositories, repos) ==>
        match r
        case Packed(input) =>
          && input == Input(m.session, m.target, m.bundle, canonical, arts, repos) && RepositoriesFit(repos)
          && !ManifestTooLarge(Some(m))
        case PackFailed(Io) => true
        case PackFailed(Oversize) => manifestSize(m) > MAX_STAGE_MANIFEST || !RepositoriesFit(repos)
        case PackFailed(_) => false
    {
      hide HoldsNative, HoldsRepositories, EachFits, RepositoriesFit;
      var read, why := ReadManifest();
      if read.None? {
        return PackFailed(why);
      }
      var m := read.value;
      var native, repositories;
      native, why := ReadNative(m.native);
      if native.None? {
        return PackFailed(why);
      }
      repositories, why := ReadRepositories(m.repositories, repos);
      if repositories.None? {
        return PackFailed(why);
      }
      return Packed(Input(m.session, m.target, m.bundle, canonical, native.value, repositories.value));
    }

    /** Packing takes no part of the source: a stage of `src` gives the input of
        an export of `src`, whenever it is packed. The stage is gone after. */
    method Pack(canonical: Text, ghost spec: Spec, ghost src: Source) returns (r: Packed)
      requires stage.Some? && Valid()
      modifies this`clock, this`stage
      ensures clock >= old(clock)
      ensures r.PackFailed? && r.why == Io ==> Faulted(fault, old(clock), clock)
      ensures stage.None? || Faulted(fault, old(clock), clock)
      ensures r.Packed? ==> old(stage).value.manifest.Some?
      ensures old(Holds(spec, src)) && (spec.allowEmpty || arts != []) ==>
        match r
        case Packed(input) =>
          Direct(spec, canonical, src, order, archiveSize) == Some(input) && !ManifestTooLarge(old(stage).value.manifest)
        case PackFailed(Io) => true
        case PackFailed(Oversize) =>
          ManifestTooLarge(old(stage).value.manifest) || Direct(spec, canonical, src, order, archiveSize).None?
        case PackFailed(_) => false
    {
      hide HoldsNative, HoldsRepositories, Repositories, RepositoriesFit;
      ghost var found := Repositories(src.repositories, spec.count);
      r := Unpack(canonical, if found.Some? then found.value else []);
      if r.Packed? && !Writable(r.input, archiveSize) {
        r := PackFailed(Oversize);
      }
      assert old(Holds(spec, src)) ==> Holds(spec, src);
      assert r.PackFailed? && r.why == Io ==> Faulted(fault, old(clock), clock);
      clock := clock + 1;
      if !fault(clock) {
        stage := None;
      } else if r.Packed? {
        r := PackFailed(Io);
      }
    }

    /** The manifest of a stage of `src` is determined by `src`. */
    lemma SealedIs(spec: Spec, src: Source)
      requires Holds(spec, src) && (spec.allowEmpty || arts != [])
      ensures stage.value.manifest == StageManifest(spec, src, order)
    {
      hide Listing, EachFits, TotalSize, Repositories, HoldsNative, HoldsRepositories, ManifestOf;
      var m := stage.value.manifest.value;
      ManifestIs(stage.value.files, m.native, arts, m.repositories, Repositories(src.repositories, spec.count).value, spec, m.fingerprint);
    }

    /** The export that reads everything under the barrier. */
    method ExportDirect(spec: Spec, canonical: Text) returns (input: Option<Input>)
      modifies this`clock
      ensures clock >= old(clock)
      ensures Still(history, old(clock), clock) ==> input == Direct(spec, canonical, history(old(clock)), order, archiveSize)
      ensures Still(history, old(clock), clock) ==>
        forall i :: input == Some(i) <==>
          ExportOf(spec, canonical, history(old(clock)), order, i) && WithinLimits(spec, i, archiveSize)
    {
      hide Collected, Repositories, EachFits, ExportOf, WithinLimits;
      ghost var src := history(clock);
      forall i
        ensures Direct(spec, canonical, src, order, archiveSize) == Some(i) <==>
                ExportOf(spec, canonical, src, order, i) && WithinLimits(spec, i, archiveSize)
      {
        ExportedIff(spec, canonical, src, order, archiveSize, i);
      }
      var gathered := Gather(spec);
      if gathered.None? {
        return None;
      }
      var (native, repos) := gathered.value;
      var written := Input(spec.session, spec.target, spec.bundle, canonical, native, repos);
      return if Writable(written, archiveSize) then Some(written) else None;
    }

    /** A prestage ran into a manifest that cannot be read back. */
    predicate StaleTooLarge(spec: Spec, prestage: bool, from: nat) {
      prestage && ManifestTooLarge(Prestaged(history, spec, order, from))
    }

    /** A whole checkpoint. Whatever the session writes before the barrier and
        after its release, and however the prestage ends, the archive input is
        the one a direct export under the barrier would give. */
    method Checkpoint(spec: Spec, canonical: Text, prestage: bool, wait: nat)
        returns (r: Packed, barrier: nat, released: nat)
      requires stage.None? && FingerprintFaithful(history)
      modifies this
      ensures old(clock) + wait <= barrier <= released <= clock
      ensures Still(history, barrier, released) ==>
        match r
        case Packed(input) =>
          && Direct(spec, canonical, history(barrier), order, archiveSize) == Some(input)
          && ExportOf(spec, canonical, history(barrier), order, input) && WithinLimits(spec, input, archiveSize)
        case PackFailed(Io) => Faulted(fault, old(clock), clock)
        case PackFailed(BadSource) => Direct(spec, canonical, history(barrier), order, archiveSize).None?
        case PackFailed(Oversize) =>
          || StaleTooLarge(spec, prestage, old(clock)) || ManifestTooLarge(StageManifest(spec, history(barrier), order))
          || Direct(spec, canonical, history(barrier), order, archiveSize).None?
        case PackFailed(_) => false
      // without faults it works out exactly when the export does, but for the
      // size of the two stage manifests the history leads to
      ensures Still(history, barrier, released) && !Faulted(fault, old(clock), clock) ==>
        (r.Packed? <==>
          && Direct(spec, canonical, history(barrier), order, archiveSize).Some?
          && !StaleTooLarge(spec, prestage, old(clock)) && !ManifestTooLarge(StageManifest(spec, history(barrier), order)))
      // a stale one stops it whatever there is at the barrier
      ensures StaleTooLarge(spec, prestage, old(clock)) && !Faulted(fault, old(clock), clock) ==> r == PackFailed(Oversize)
    {
      hide HoldsNative, HoldsRepositories, Repositories, RepositoriesFit, Collected, EachFits, FingerprintFaithful, Target.Holds,
        TornManifest, StageManifest, ExportOf, WithinLimits;
      if prestage {
        var ignored := Capture(spec.(allowEmpty := false, refresh := false));
      }
      ghost var left := if stage.Some? then stage.value.manifest else None;
      assert left.Some? ==> prestage && left == Prestaged(history, spec, order, old(clock));
      assert prestage && !Faulted(fault, old(clock), clock) ==> left == Prestaged(history, spec, order, old(clock));
      clock := clock + wait;
      barrier := clock;
      var why := Capture(spec.(refresh := true));
      released := clock;
      DirectIgnores(spec, canonical, history(barrier), order, archiveSize);
      if why.Some? {
        r := PackFailed(why.value);
        return;
      }
      if Still(history, barrier, released) {
        SealedIs(spec.(refresh := true), history(barrier));
      }
      r := Pack(canonical, spec.(refresh := true), history(barrier));
      if r.Packed? {
        ExportedIff(spec, canonical, history(barrier), order, archiveSize, r.input);
      }
    }
  }

  /** The manifest a stage of `input` has. */
  function ManifestFor(input: Input, fingerprint: Text): Manifest {
    ManifestOf(input.session, input.target, input.bundle, input.native, input.repositories, Some(fingerprint))
  }

  const FINGERPRINT_BYTES := 64

  /** Stage manifests are no larger than the archive manifests they lead to.
      Fingerprints are SHA-256 digests in hexadecimal. */
  ghost predicate StageIsSmaller(manifestSize: Manifest -> nat, archiveSize: Input -> nat) {
    forall input, fingerprint :: |fingerprint| == FINGERPRINT_BYTES ==>
      manifestSize(ManifestFor(input, fingerprint)) <= archiveSize(input)
  }

  /** Then the limit on stage manifests adds nothing at the barrier: a checkpoint
      without a prestage, or with one that left a manifest within the limit,
      succeeds exactly when the export does. */
  lemma SealedFits(spec: Spec, canonical: Text, src: Source, order: seq<Path>, manifestSize: Manifest -> nat, archiveSize: Input -> nat)
    requires StageIsSmaller(manifestSize, archiveSize) && |src.fingerprint| == FINGERPRINT_BYTES
    requires Direct(spec, canonical, src, order, archiveSize).Some?
    ensures StageManifest(spec, src, order).Some?
    ensures manifestSize(StageManifest(spec, src, order).value) <= MAX_STAGE_MANIFEST
  {
    hide Gathered, ManifestOf, RepositoriesFit;
    var input := Direct(spec, canonical, src, order, archiveSize).value;
    assert StageManifest(spec, src, order) == Some(ManifestFor(input, src.fingerprint));
  }

  /** For a target that never changes and never fails, prestaged or not, the
      checkpoint and the export agree. */
  method UnchangingTarget(src: Source, order: seq<Path>, spec: Spec, canonical: Text, prestage: bool, wait: nat,
                          manifestSize: Manifest -> nat, archiveSize: Input -> nat)
      returns (direct: Option<Input>, staged: Packed)
    requires StageIsSmaller(manifestSize, archiveSize) && |src.fingerprint| == FINGERPRINT_BYTES
    ensures direct == Direct(spec, canonical, src, order, archiveSize)
    ensures direct.Some? <==> staged.Packed?
    ensures direct.Some? ==> staged == Packed(direct.value)
  {
    hide Gathered, Listing, Direct, StageManifest, Prestaged, StageIsSmaller;
    var alone := new Target((t: nat) => src, order, (t: nat) => false, manifestSize, archiveSize);
    direct := alone.ExportDirect(spec, canonical);
    var target := new Target((t: nat) => src, order, (t: nat) => false, manifestSize, archiveSize);
    var barrier, released;
    staged, barrier, released := target.Checkpoint(spec, canonical, prestage, wait);
    assert Still(target.history, barrier, released);
    if direct.Some? {
      SealedFits(spec, canonical, src, order, manifestSize, archiveSize);
      StillPrestaged(target.history, spec, order, 0);
      PrestageAllows(spec, src, order);
    }
  }

  lemma PrestageAllows(spec: Spec, src: Source, order: seq<Path>)
    ensures StageManifest(spec.(allowEmpty := false), src, order).Some? ==>
            StageManifest(spec.(allowEmpty := false), src, order) == StageManifest(spec, src, order)
  {
    hide Listing, EachFits, TotalSize, ManifestOf, Repositories;
  }

  /** The difference is real. A target where nothing fails, prestaged while it
      has more native artifacts than a stage manifest may have bytes, cannot be
      checkpointed after they are gone, though it can be exported. */
  method StalePrestageBlocks(before: Source, after: Source, order: seq<Path>, spec: Spec, canonical: Text,
                             manifestSize: Manifest -> nat, archiveSize: Input -> nat)
      returns (direct: Option<Input>, staged: Packed)
    requires forall m :: manifestSize(m) >= |m.native|
    requires before.fingerprint != after.fingerprint
    requires Gathered(spec.(allowEmpty := false), before, order).Some? && |Listing(before.native, order)| > MAX_STAGE_MANIFEST
    requires Direct(spec, canonical, after, order, archiveSize).Some?
    ensures direct.Some? && direct == Direct(spec, canonical, after, order, archiveSize)
    ensures staged == PackFailed(Oversize)
  {
    hide Gathered, Listing, Direct, StageManifest, Prestaged;
    var steps := CaptureSteps(spec, order);
    var alone := new Target((t: nat) => after, order, (t: nat) => false, manifestSize, archiveSize);
    direct := alone.ExportDirect(spec, canonical);
    var target := new Target((t: nat) => if t <= steps then before else after, order, (t: nat) => false, manifestSize, archiveSize);
    StillPrestaged(target.history, spec, order, 0);
    ManifestCounts(spec.(allowEmpty := false), before, order);
    var barrier, released;
    staged, barrier, released := target.Checkpoint(spec, canonical, true, steps + 1);
  }

  lemma ManifestCounts(spec: Spec, src: Source, order: seq<Path>)
    requires Gathered(spec, src, order).Some?
    ensures StageManifest(spec, src, order).Some?
    ensures |StageManifest(spec, src, order).value.native| == |Listing(src.native, order)|
  {
    hide Listing, EachFits, TotalSize, Repositories;
  }

  // ----- One such target -----

  /** More names than a stage manifest may have bytes. */
  function ManyPaths(): seq<Path> {
    seq(MAX_STAGE_MANIFEST + 1, i requires 0 <= i < MAX_STAGE_MANIFEST + 1 => Decimal(i))
  }

  /** Every name an empty file. */
  function FullOf(order: seq<Path>): Source {
    Source(map p | p in order :: Body(0, []), [], [1])
  }

  const EMPTIED: Source := Source(map[], [], [2])

  const UNPROMPTED := Spec([], [], [], 0, true, false)

  lemma {:induction false} AllListed(native: map<Path, Body>, order: seq<Path>)
    requires forall p :: p in order ==> p in native && native[p].data == []
    ensures |Listing(native, order)| == |order| && TotalSize(Listing(native, order)) == 0 && EachFits(Listing(native, order))
  {
    if order != [] {
      AllListed(native, order[..|order|-1]);
      var all := Listing(native, order);
      assert all[..|all|-1] == Listing(native, order[..|order|-1]);
    }
  }

  lemma {:induction false} NoneListed(order: seq<Path>)
    ensures Listing(map[], order) == []
  {
    if order != [] {
      NoneListed(order[..|order|-1]);
    }
  }

  /** The two part on this target: it is prestaged full of empty files and
      emptied before the barrier. */
  method FullThenEmptied() returns (direct: Option<Input>, staged: Packed)
    ensures direct.Some? && staged == PackFailed(Oversize)
  {
    hide ManyPaths, Listing;
    var order := ManyPaths();
    var before := FullOf(order);
    ManyPathsMany();
    AllListed(before.native, order);
    NoneListed(order);
    var one: Input -> nat := (input: Input) => 1;
    assert Gathered(UNPROMPTED.(allowEmpty := false), before, order).Some?;
    assert Direct(UNPROMPTED, [], EMPTIED, order, one).Some?;
    direct, staged := StalePrestageBlocks(before, EMPTIED, order, UNPROMPTED, [], (m: Manifest) => |m.native|, one);
  }

  lemma ManyPathsMany()
    ensures |ManyPaths()| == MAX_STAGE_MANIFEST + 1
  {
  }

  datatype Packed = Packed(input: Input) | PackFailed(why: Failure)

  ghost predicate Faulted(fault: nat -> bool, from: nat, until: nat) {
    exists t: nat :: from <= t <= until && fault(t)
  }

  lemma DirectIgnores(spec: Spec, canonical: Text, src: Source, order: seq<Path>, archiveSize: Input -> nat)
    ensures Direct(spec.(refresh := true), canonical, src, order, archiveSize) == Direct(spec, canonical, src, order, archiveSize)
    ensures Gathered(spec.(refresh := true), src, order) == Gathered(spec, src, order)
    ensures StageManifest(spec.(refresh := true), src, order) == StageManifest(spec, src, order)
    ensures Gathered(spec, src, order).None? ==> Direct(spec, canonical, src, order, archiveSize).None?
  {
    hide Collected, Repositories, ManifestOf;
  }

  predicate Matches(m: Manifest, spec: Spec, fingerprint: Text) {
    m.session == spec.session && m.target == spec.target && m.bundle == spec.bundle && m.fingerprint == Some(fingerprint)
  }

  /** A capture takes no more steps than this. */
  function CaptureSteps(spec: Spec, order: seq<Path>): nat {
    2 * |order| + 5 * spec.count + 4
  }

  datatype Refreshed = Reused | NotReusable | RefreshFailed(why: Failure)

  function WithoutRepositories(files: Files): Files {
    map p | p in files && (p == [] || p[0] != REPOSITORIES) :: files[p]
  }

  lemma BareKeepsNative(files: Files)
    ensures SameNative(files, WithoutRepositories(files))
  {
    hide Padded;
    assert |NATIVE| == 6 && |REPOSITORIES| == 12;
    forall i: nat | NativePath(i) in files
      ensures At(WithoutRepositories(files), NativePath(i), files[NativePath(i)])
    {
      assert NativePath(i)[0] == NATIVE;
    }
  }

  lemma SameThroughout(history: nat -> Source, start: nat, until: nat)
    requires FingerprintFaithful(history) && start <= until && history(start).fingerprint == history(until).fingerprint
    ensures NativeStill(history, start, until)
  {
  }

  lemma StillSooner(history: nat -> Source, start: nat, sooner: nat, until: nat)
    requires start <= sooner <= until
    ensures Still(history, start, until) ==> Still(history, start, sooner) && NativeStill(history, start, sooner)
    ensures Still(history, start, until) ==> history(start) == history(sooner)
  {
  }

  /** What was gathered while nothing changed is what was there. */
  lemma TornFacts(history: nat -> Source, spec: Spec, order: seq<Path>, from: nat, start: nat, end: nat,
                  native: seq<Artifact>, repos: seq<Repository>)
    requires FingerprintFaithful(history) && start <= from && from + |order| + spec.count <= end
    requires TornGathered(history, spec, order, from) == Some((native, repos))
    ensures history(start).fingerprint == history(end).fingerprint || Still(history, start, end) ==>
            Collected(history(start).native, order, true) == Some(native)
    ensures Still(history, start, end) ==> Repositories(history(start).repositories, spec.count) == Some(repos)
  {
    hide EachFits, TotalSize, Listing, TornListing, Repositories, TornRepositories, FingerprintFaithful;
    if history(start).fingerprint == history(end).fingerprint || Still(history, start, end) {
      if history(start).fingerprint == history(end).fingerprint {
        SameThroughout(history, start, end);
      }
      TornIsWhole(history, order, from, |order|, history(start).native);
      assert order[..|order|] == order;
    }
    if Still(history, start, end) {
      TornRepositoriesWhole(history, from + |order|, spec.count, history(start).repositories);
    }
  }

  lemma SameState(history: nat -> Source, origin: nat, now: nat)
    requires FingerprintFaithful(history) && origin <= now && history(origin).fingerprint == history(now).fingerprint
    ensures history(now).native == history(origin).native
  {
  }

  lemma ApartFrom(i: nat, p: Part)
    ensures forall j: nat, q :: PartPath(j, q) == PartPath(i, p) ==> j == i && q == p
    ensures forall j: nat :: NativePath(j) != PartPath(i, p)
  {
    hide PartPath, NativePath;
    forall j: nat, q
      ensures PartPath(j, q) == PartPath(i, p) ==> j == i && q == p
    {
      PathsDiffer(i, p, j, q);
    }
    forall j: nat
      ensures NativePath(j) != PartPath(i, p)
    {
      PathsDiffer(j, p, i, p);
    }
  }
}
