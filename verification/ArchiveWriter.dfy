// Writing an archive: the payloads and the manifest are prepared, large
// payloads are cut into parts, and every part becomes one entry
// (src/hel_archive.rs).

module ArchiveWriter {
  import opened Text
  import opened ArchiveFormat
  import opened ArchiveReader

  datatype Native = Native(relativePath: Text, mode: nat, data: Text)
  datatype Snapshotted = Snapshotted(metadata: Metadata, bundle: Text, staged: Text, unstaged: Text, untracked: Text)
  datatype Input = Input(header: Header, session: Snapshot, native: seq<Native>, repositories: seq<Snapshotted>)

  /** A payload before its digest and parts are known, and after. */
  datatype Draft = Draft(path: Text, data: Text, mode: nat, role: Role)
  datatype Pending = Pending(payload: Payload, data: Text)

  // ----- Parts -----

  function Chunks(data: Text, partBytes: nat): seq<Text>
    requires partBytes > 0
  {
    if |data| <= partBytes then [data] else [data[..partBytes]] + Chunks(data[partBytes..], partBytes)
  }

  function PartsFor(c: Codec, path: Text, chunks: seq<Text>): seq<Part> {
    seq(|chunks|, i requires 0 <= i < |chunks| => Part(PartPath(path, i), c.digest(chunks[i]), |chunks[i]|))
  }

  function PlanParts(c: Codec, path: Text, data: Text, role: Role, partBytes: nat): seq<Part>
    requires partBytes > 0
  {
    if role.GitBundle? || |data| <= partBytes then [] else PartsFor(c, path, Chunks(data, partBytes))
  }

  /** The chunks are not empty and are the data, cut up. */
  lemma {:induction false} ChunksCover(data: Text, partBytes: nat)
    requires partBytes > 0 && data != []
    ensures Concat(Chunks(data, partBytes)) == data
    ensures forall i :: 0 <= i < |Chunks(data, partBytes)| ==> 0 < |Chunks(data, partBytes)[i]| <= partBytes
    ensures |data| > partBytes ==> |Chunks(data, partBytes)| > 1
    decreases |data|
  {
    hide Concat;
    if |data| <= partBytes {
      ConcatOne(data);
    } else {
      ChunksCover(data[partBytes..], partBytes);
      ConcatAppend([data[..partBytes]], Chunks(data[partBytes..], partBytes));
      ConcatOne(data[..partBytes]);
      assert data == data[..partBytes] + data[partBytes..];
    }
  }

  /** The `k`-th part as it is cut out of the body by the recorded sizes. */
  function Slice(parts: seq<Part>, data: Text, k: nat): Text
    requires k < |parts|
  {
    var start, end := SumSizes(parts[..k]), SumSizes(parts[..k+1]);
    if start <= end <= |data| then data[start..end] else []
  }

  lemma {:induction false} SumIsPrefix(c: Codec, path: Text, chunks: seq<Text>, k: nat)
    requires k <= |chunks|
    ensures SumSizes(PartsFor(c, path, chunks)[..k]) == |Concat(chunks[..k])|
    ensures Concat(chunks[..k]) <= Concat(chunks)
  {
    hide PartPath;
    if k == 0 {
      assert chunks[..0] + chunks == chunks;
      ConcatAppend(chunks[..0], chunks);
    } else {
      var parts := PartsFor(c, path, chunks);
      assert parts[..k][..k-1] == parts[..k-1];
      SumIsPrefix(c, path, chunks, k - 1);
      assert chunks[..k] == chunks[..k-1] + [chunks[k-1]];
      ConcatSnoc(chunks[..k-1], chunks[k-1]);
      assert chunks == chunks[..k] + chunks[k..];
      ConcatAppend(chunks[..k], chunks[k..]);
    }
  }

  /** Cutting by the recorded sizes gives the chunks back. */
  lemma SliceIsChunk(c: Codec, path: Text, data: Text, partBytes: nat, k: nat)
    requires partBytes > 0 && data != [] && k < |Chunks(data, partBytes)|
    ensures Slice(PartsFor(c, path, Chunks(data, partBytes)), data, k) == Chunks(data, partBytes)[k]
  {
    hide Concat, SumSizes, PartPath, Chunks;
    var chunks := Chunks(data, partBytes);
    ChunksCover(data, partBytes);
    SumIsPrefix(c, path, chunks, k);
    SumIsPrefix(c, path, chunks, k + 1);
    assert chunks[..k+1] == chunks[..k] + [chunks[k]];
    ConcatSnoc(chunks[..k], chunks[k]);
    var before, after := Concat(chunks[..k]), Concat(chunks[..k+1]);
    assert after == data[..|after|];
    assert data[|before|..|after|] == after[|before|..];
  }

  lemma PlanCovers(c: Codec, path: Text, data: Text, role: Role, partBytes: nat)
    requires partBytes > 0
    ensures var parts := PlanParts(c, path, data, role, partBytes);
            parts == [] || (|parts| > 1 && SumSizes(parts) == |data|)
  {
    hide Concat, SumSizes, PartPath, Chunks;
    var parts := PlanParts(c, path, data, role, partBytes);
    if parts != [] {
      var chunks := Chunks(data, partBytes);
      ChunksCover(data, partBytes);
      SumIsPrefix(c, path, chunks, |chunks|);
      assert chunks[..|chunks|] == chunks && parts[..|chunks|] == parts;
    }
  }

  // ----- Entries -----

  /** Permission bits as a container stores them, marked a regular file. */
  const REGULAR_FILE: nat := 32768

  function FileEntry(name: Text, mode: nat, data: Text): Entry {
    Entry(name, false, |data|, Some(REGULAR_FILE + mode % 512), data)
  }

  function EntriesOf(pd: Pending): seq<Entry> {
    var p := pd.payload;
    if p.parts == [] then [FileEntry(p.path, p.mode, pd.data)]
    else seq(|p.parts|, k requires 0 <= k < |p.parts| => FileEntry(p.parts[k].path, p.mode, Slice(p.parts, pd.data, k)))
  }

  function AllEntries(pending: seq<Pending>): seq<Entry> {
    if pending == [] then [] else AllEntries(pending[..|pending|-1]) + EntriesOf(pending[|pending|-1])
  }

  function ZipOf(c: Codec, m: Manifest, pending: seq<Pending>): Zip {
    [FileEntry(ManifestPath(), 384, c.encodeManifest(m))] + AllEntries(pending)
  }

  predicate Covered(pd: Pending) {
    pd.payload.parts == [] || SumSizes(pd.payload.parts) == |pd.data|
  }

  /** One entry per part, each holding the next bytes of the body. */
  method LayParts(pd: Pending) returns (entries: Option<seq<Entry>>)
    requires pd.payload.parts != []
    ensures entries == if Covered(pd) then Some(EntriesOf(pd)) else None
  {
    hide FileEntry, SumSizes;
    var p := pd.payload;
    var offset, out := 0, [];
    SumSizesNone(p.parts);
    for j := 0 to |p.parts|
      invariant offset == SumSizes(p.parts[..j]) <= |pd.data|
      invariant out == EntriesOf(pd)[..j]
    {
      var end := offset + p.parts[j].size;
      SumSizesStep(p.parts, j);
      if end > |pd.data| {
        return None;
      }
      out := out + [FileEntry(p.parts[j].path, p.mode, pd.data[offset..end])];
      offset := end;
    }
    assert p.parts[..|p.parts|] == p.parts;
    assert EntriesOf(pd)[..|p.parts|] == EntriesOf(pd);
    entries := if offset == |pd.data| then Some(out) else None;
  }

  /** Lays out the entries. When every payload's parts cover its body exactly,
      only the size of the manifest can make it fail. */
  method WriteZip(c: Codec, m: Manifest, pending: seq<Pending>) returns (zip: Option<Zip>)
    ensures zip ==
      if |c.encodeManifest(m)| <= MAX_MANIFEST_BYTES && forall k :: 0 <= k < |pending| ==> Covered(pending[k])
      then Some(ZipOf(c, m, pending)) else None
  {
    hide FileEntry, ManifestPath, Covered, AllEntries;
    assert pending[..0] == [];
    EntriesNone();
    var body := c.encodeManifest(m);
    if |body| > MAX_MANIFEST_BYTES {
      return None;
    }
    var first := FileEntry(ManifestPath(), 384, body);
    var entries := [first];
    for k := 0 to |pending|
      invariant entries == [first] + AllEntries(pending[..k])
      invariant forall i :: 0 <= i < k ==> Covered(pending[i])
    {
      var pd := pending[k];
      EntriesStep(first, pending, k);
      if pd.payload.parts == [] {
        WholeCovered(pd);
        entries := entries + [FileEntry(pd.payload.path, pd.payload.mode, pd.data)];
      } else {
        var laid := LayParts(pd);
        if laid.None? {
          return None;
        }
        entries := entries + laid.value;
      }
    }
    assert pending[..|pending|] == pending;
    zip := Some(entries);
  }

  lemma EntriesNone()
    ensures AllEntries([]) == []
  {
  }

  lemma EntriesStep(first: Entry, pending: seq<Pending>, k: nat)
    requires k < |pending|
    ensures [first] + AllEntries(pending[..k+1]) == [first] + AllEntries(pending[..k]) + EntriesOf(pending[k])
  {
    hide EntriesOf;
    assert pending[..k+1][..k] == pending[..k];
  }

  lemma WholeCovered(pd: Pending)
    requires pd.payload.parts == []
    ensures Covered(pd)
  {
  }

  lemma SumSizesNone(parts: seq<Part>)
    ensures SumSizes(parts[..0]) == 0
  {
  }

  lemma SumSizesStep(parts: seq<Part>, j: nat)
    requires j < |parts|
    ensures SumSizes(parts[..j+1]) == SumSizes(parts[..j]) + parts[j].size <= SumSizes(parts)
  {
    assert parts[..j+1][..j] == parts[..j];
    SumSizesPrefix(parts, j + 1);
  }

  // ----- Preparing -----

  /** "repositories" */
  const REPOSITORIES: Text := [114, 101, 112, 111, 115, 105, 116, 111, 114, 105, 101, 115]
  /** "committed.bundle" */
  const BUNDLE: Text := [99, 111, 109, 109, 105, 116, 116, 101, 100, 46, 98, 117, 110, 100, 108, 101]
  /** "staged.patch" */
  const STAGED: Text := [115, 116, 97, 103, 101, 100, 46, 112, 97, 116, 99, 104]
  /** "unstaged.patch" */
  const UNSTAGED: Text := [117, 110, 115, 116, 97, 103, 101, 100, 46, 112, 97, 116, 99, 104]
  /** "untracked.tar" */
  const UNTRACKED: Text := [117, 110, 116, 114, 97, 99, 107, 101, 100, 46, 116, 97, 114]

  function RepositoryPath(id: Text, name: Text): Text {
    REPOSITORIES + [47] + id + [47] + name
  }

  function SessionDraft(c: Codec, input: Input): Draft {
    Draft(SessionPath(), c.encodeSession(input.session), 384, CanonicalSession)
  }

  function NativeDraft(c: Codec, n: Native): Draft {
    var relative := match c.clean(n.relativePath) case Some(p) => p case None => [];
    Draft(NativePath(relative), n.data, n.mode, NativeArtifact(n.relativePath))
  }

  function NativeDrafts(c: Codec, native: seq<Native>): seq<Draft> {
    if native == [] then [] else NativeDrafts(c, native[..|native|-1]) + [NativeDraft(c, native[|native|-1])]
  }

  function RepositoryDrafts(r: Snapshotted): seq<Draft> {
    var id := r.metadata.id;
    [ Draft(RepositoryPath(id, BUNDLE), r.bundle, 384, GitBundle(id)),
      Draft(RepositoryPath(id, STAGED), r.staged, 384, GitStagedPatch(id)),
      Draft(RepositoryPath(id, UNSTAGED), r.unstaged, 384, GitUnstagedPatch(id)),
      Draft(RepositoryPath(id, UNTRACKED), r.untracked, 384, GitUntrackedTar(id)) ]
  }

  function AllRepositoryDrafts(rs: seq<Snapshotted>): seq<Draft> {
    if rs == [] then [] else AllRepositoryDrafts(rs[..|rs|-1]) + RepositoryDrafts(rs[|rs|-1])
  }

  /** Every payload of an input, in archive order. */
  function Drafts(c: Codec, input: Input): seq<Draft> {
    [SessionDraft(c, input)] + NativeDrafts(c, input.native) + AllRepositoryDrafts(input.repositories)
  }

  function Completed(c: Codec, d: Draft, partBytes: nat): Pending
    requires partBytes > 0
  {
    Pending(Payload(d.path, c.digest(d.data), |d.data|, d.mode % 512, d.role, PlanParts(c, d.path, d.data, d.role, partBytes)), d.data)
  }

  function AllCompleted(c: Codec, drafts: seq<Draft>, partBytes: nat): seq<Pending>
    requires partBytes > 0
  {
    seq(|drafts|, i requires 0 <= i < |drafts| => Completed(c, drafts[i], partBytes))
  }

  function Payloads(pending: seq<Pending>): seq<Payload> {
    seq(|pending|, i requires 0 <= i < |pending| => pending[i].payload)
  }

  function RepositoryRecord(r: Snapshotted): Repository {
    var id := r.metadata.id;
    Repository(r.metadata, RepositoryPath(id, BUNDLE), RepositoryPath(id, STAGED), RepositoryPath(id, UNSTAGED), RepositoryPath(id, UNTRACKED))
  }

  function RepositoryRecords(rs: seq<Snapshotted>): seq<Repository> {
    seq(|rs|, i requires 0 <= i < |rs| => RepositoryRecord(rs[i]))
  }

  function ManifestFor(input: Input, payloads: seq<Payload>): Manifest {
    Manifest(ExpectedSchema(payloads), ArchiveFormatName(), input.header, RepositoryRecords(input.repositories), payloads)
  }

  predicate DraftOk(c: Codec, d: Draft) {
    c.clean(d.path).Some? && |d.data| <= MAX_PAYLOAD_BYTES && d.mode < 4096
  }

  predicate NativeOk(c: Codec, n: Native) {
    c.clean(n.relativePath).Some? && !c.secretPath(n.relativePath) && DraftOk(c, NativeDraft(c, n))
  }

  predicate SnapshottedOk(c: Codec, r: Snapshotted) {
    && ValidComponent(r.metadata.id) && c.clean(r.metadata.destination).Some? && !c.credentials(r.metadata.origin)
    && c.validTar(r.untracked)
    && forall i :: 0 <= i < 4 ==> DraftOk(c, RepositoryDrafts(r)[i])
  }

  function PlannedPending(c: Codec, input: Input, partBytes: nat): seq<Pending>
    requires partBytes > 0
  {
    AllCompleted(c, Drafts(c, input), partBytes)
  }

  function PlannedManifest(c: Codec, input: Input, partBytes: nat): Manifest
    requires partBytes > 0
  {
    ManifestFor(input, Payloads(PlannedPending(c, input, partBytes)))
  }

  predicate HeadOk(c: Codec, input: Input) {
    && !c.blank(input.header.sessionId) && !c.blank(input.header.bundleId)
    && (forall i :: 0 <= i < |input.header.details| ==> !c.secretKey(input.header.details[i]))
    && c.validSession(input.session) && DraftOk(c, SessionDraft(c, input))
  }

  /** The inputs the writer takes. */
  predicate Preparable(c: Codec, input: Input, partBytes: nat) {
    && partBytes > 0 && HeadOk(c, input)
    && (forall i :: 0 <= i < |input.native| ==> NativeOk(c, input.native[i]))
    && (forall i :: 0 <= i < |input.repositories| ==> SnapshottedOk(c, input.repositories[i]))
    && ManifestOk(c, PlannedManifest(c, input, partBytes))
  }

  method DraftNative(c: Codec, native: seq<Native>) returns (ok: bool, drafts: seq<Draft>)
    ensures ok == forall i :: 0 <= i < |native| ==> NativeOk(c, native[i])
    ensures ok ==> drafts == NativeDrafts(c, native)
  {
    hide NativeOk, NativeDraft;
    drafts := [];
    for k := 0 to |native|
      invariant forall i :: 0 <= i < k ==> NativeOk(c, native[i])
      invariant drafts == NativeDrafts(c, native[..k])
    {
      assert native[..k+1][..k] == native[..k];
      if !NativeOk(c, native[k]) {
        return false, drafts;
      }
      drafts := drafts + [NativeDraft(c, native[k])];
    }
    assert native[..|native|] == native;
    ok := true;
  }

  function RecordIds(rs: seq<Snapshotted>): seq<Text> {
    seq(|rs|, i requires 0 <= i < |rs| => rs[i].metadata.id)
  }

  lemma {:induction false} RecordIdsAre(rs: seq<Snapshotted>)
    ensures Ids(RepositoryRecords(rs)) == RecordIds(rs)
  {
    hide RepositoryRecord;
    if rs != [] {
      var front := rs[..|rs|-1];
      RecordIdsAre(front);
      assert RepositoryRecords(rs)[..|rs|-1] == RepositoryRecords(front);
      assert RecordIds(rs) == RecordIds(front) + [rs[|rs|-1].metadata.id];
      assert RepositoryRecord(rs[|rs|-1]).metadata == rs[|rs|-1].metadata by { RecordMetadata(rs[|rs|-1]); }
    }
  }

  lemma RecordMetadata(r: Snapshotted)
    ensures RepositoryRecord(r).metadata == r.metadata
  {
  }

  method DraftRepositories(c: Codec, rs: seq<Snapshotted>) returns (ok: bool, drafts: seq<Draft>, records: seq<Repository>)
    ensures ok == (Distinct(RecordIds(rs)) && forall i :: 0 <= i < |rs| ==> SnapshottedOk(c, rs[i]))
    ensures ok ==> drafts == AllRepositoryDrafts(rs) && records == RepositoryRecords(rs)
  {
    hide SnapshottedOk, RepositoryDrafts, RepositoryRecord, Distinct, SetOf;
    drafts, records := [], [];
    var ids: set<Text> := {};
    assert RecordIds(rs[..0]) == [];
    NoneDistinct();
    for k := 0 to |rs|
      invariant forall i :: 0 <= i < k ==> SnapshottedOk(c, rs[i])
      invariant Distinct(RecordIds(rs)[..k]) && ids == SetOf(RecordIds(rs)[..k])
      invariant drafts == AllRepositoryDrafts(rs[..k]) && records == RepositoryRecords(rs)[..k]
    {
      var id := rs[k].metadata.id;
      ghost var all := RecordIds(rs);
      assert rs[..k+1][..k] == rs[..k];
      assert all[..k+1] == all[..k] + [id];
      DistinctSnoc(all[..k], id);
      SetOfMember(all[..k], id);
      if Distinct(all) {
        DistinctPrefix(all[..k+1], all);
      }
      if id in ids || !SnapshottedOk(c, rs[k]) {
        return false, drafts, records;
      }
      ids := ids + {id};
      drafts := drafts + RepositoryDrafts(rs[k]);
      records := records + [RepositoryRecord(rs[k])];
    }
    assert rs[..|rs|] == rs && RecordIds(rs)[..|rs|] == RecordIds(rs) && RepositoryRecords(rs)[..|rs|] == RepositoryRecords(rs);
    ok := true;
  }

  lemma NoneDistinct()
    ensures Distinct([]) && SetOf([]) == {}
  {
  }

  method CompleteAll(c: Codec, drafts: seq<Draft>, partBytes: nat) returns (pending: seq<Pending>)
    requires partBytes > 0
    ensures pending == AllCompleted(c, drafts, partBytes)
  {
    hide Completed;
    pending := [];
    for k := 0 to |drafts|
      invariant pending == AllCompleted(c, drafts, partBytes)[..k]
    {
      pending := pending + [Completed(c, drafts[k], partBytes)];
    }
  }

  function Paths(payloads: seq<Payload>): seq<Text> {
    seq(|payloads|, i requires 0 <= i < |payloads| => payloads[i].path)
  }

  lemma {:induction false} PathsAmongNames(payloads: seq<Payload>)
    requires Distinct(Names(payloads))
    ensures Distinct(Paths(payloads)) && forall x :: x in Paths(payloads) ==> x in Names(payloads)
  {
    hide Distinct, PartNames;
    if payloads == [] {
      NoneDistinct();
      assert Paths(payloads) == [];
    } else {
      var front, last := payloads[..|payloads|-1], payloads[|payloads|-1];
      NamesPrefix(payloads, |payloads| - 1);
      DistinctPrefix(Names(front), Names(payloads));
      PathsAmongNames(front);
      LastNamesApart(Names(front), last.path, PartNames(last.parts));
      assert Paths(payloads) == Paths(front) + [last.path];
      DistinctConcat(Paths(front), [last.path]);
    }
  }

  method PathsDiffer(payloads: seq<Payload>) returns (ok: bool)
    ensures ok == Distinct(Paths(payloads))
  {
    hide Distinct, SetOf;
    var seen: set<Text> := {};
    NoneDistinct();
    ghost var all := Paths(payloads);
    assert all[..0] == [];
    for k := 0 to |payloads|
      invariant Distinct(all[..k]) && seen == SetOf(all[..k])
    {
      var path := payloads[k].path;
      assert all[..k+1] == all[..k] + [path];
      DistinctSnoc(all[..k], path);
      SetOfMember(all[..k], path);
      if Distinct(all) {
        DistinctPrefix(all[..k+1], all);
      }
      if path in seen {
        return false;
      }
      seen := seen + {path};
    }
    assert all[..|payloads|] == all;
    ok := true;
  }

  // ----- What is prepared, on the input itself -----

  /** Where a native artifact is archived. */
  function ArchivedAt(c: Codec, n: Native): Text {
    Ascii("native/") + match c.clean(n.relativePath) case Some(p) => p case None => []
  }

  function PathIn(r: Snapshotted, name: string): Text {
    Ascii("repositories/") + r.metadata.id + Ascii("/") + Ascii(name)
  }

  predicate RecordOf(record: Repository, r: Snapshotted) {
    && record.metadata == r.metadata
    && record.bundle == PathIn(r, "committed.bundle") && record.staged == PathIn(r, "staged.patch")
    && record.unstaged == PathIn(r, "unstaged.patch") && record.untracked == PathIn(r, "untracked.tar")
  }

  /** The payload record of a native artifact: its path, its permission bits,
      what it is, and its size. */
  predicate Recorded(c: Codec, m: Manifest, n: Native) {
    exists k :: 0 <= k < |m.payloads| &&
      m.payloads[k].path == ArchivedAt(c, n) && m.payloads[k].mode == n.mode % 512 &&
      m.payloads[k].role == NativeArtifact(n.relativePath) && m.payloads[k].size == |n.data|
  }

  /** Header, repositories and native artifacts are recorded as they are in the
      input. */
  predicate Describes(c: Codec, m: Manifest, input: Input) {
    && m.header == input.header
    && (if forall k :: 0 <= k < |m.payloads| ==> m.payloads[k].parts == [] then m.schema == SCHEMA else m.schema == SCHEMA_SHARDED)
    && |m.repositories| == |input.repositories|
    && (forall i :: 0 <= i < |input.repositories| ==> RecordOf(m.repositories[i], input.repositories[i]))
    && forall i :: 0 <= i < |input.native| ==> Recorded(c, m, input.native[i])
  }

  lemma DirectoryWording()
    ensures Ascii("native/") == NATIVE + [47] && Ascii("repositories/") == REPOSITORIES + [47] && Ascii("/") == [47]
  {
  }

  lemma BundleWording()
    ensures Ascii("committed.bundle") == BUNDLE && Ascii("untracked.tar") == UNTRACKED
  {
  }

  lemma PatchWording()
    ensures Ascii("staged.patch") == STAGED && Ascii("unstaged.patch") == UNSTAGED
  {
  }

  lemma NativeDraftPath(c: Codec, n: Native)
    ensures NativeDraft(c, n).path == ArchivedAt(c, n)
  {
    hide Ascii;
    DirectoryWording();
  }

  lemma RecordIs(r: Snapshotted)
    ensures RecordOf(RepositoryRecord(r), r)
  {
    hide Ascii;
    DirectoryWording();
    BundleWording();
    PatchWording();
  }

  lemma {:induction false} NativeDraftsAt(c: Codec, native: seq<Native>)
    ensures |NativeDrafts(c, native)| == |native|
    ensures forall i :: 0 <= i < |native| ==> NativeDrafts(c, native)[i] == NativeDraft(c, native[i])
  {
    hide NativeDraft;
    if native != [] {
      NativeDraftsAt(c, native[..|native|-1]);
    }
  }

  lemma FourDrafts(r: Snapshotted)
    ensures |RepositoryDrafts(r)| == 4
  {
  }

  lemma {:induction false} RepositoryDraftsAt(rs: seq<Snapshotted>)
    ensures |AllRepositoryDrafts(rs)| == 4 * |rs|
    ensures forall i, q :: 0 <= i < |rs| && 0 <= q < 4 ==> AllRepositoryDrafts(rs)[4 * i + q] == DraftOf(rs[i], q)
  {
    if rs != [] {
      var n := |rs| - 1;
      RepositoryDraftsAt(rs[..n]);
      FourDrafts(rs[n]);
      forall i, q | 0 <= i < |rs| && 0 <= q < 4
        ensures AllRepositoryDrafts(rs)[4 * i + q] == DraftOf(rs[i], q)
      {
        if i < n {
          assert AllRepositoryDrafts(rs[..n])[4 * i + q] == DraftOf(rs[..n][i], q);
        }
      }
    }
  }

  function DraftOf(r: Snapshotted, q: nat): Draft
    requires q < 4
  {
    RepositoryDrafts(r)[q]
  }

  /** The payload drafted for the `q`-th body of a repository. */
  lemma DraftsOfOne(r: Snapshotted)
    ensures DraftOf(r, 0).data == r.bundle && DraftOf(r, 1).data == r.staged
    ensures DraftOf(r, 2).data == r.unstaged && DraftOf(r, 3).data == r.untracked
    ensures DraftOf(r, 0).path == RepositoryRecord(r).bundle && DraftOf(r, 1).path == RepositoryRecord(r).staged
    ensures DraftOf(r, 2).path == RepositoryRecord(r).unstaged && DraftOf(r, 3).path == RepositoryRecord(r).untracked
    ensures forall q :: 0 <= q < 4 ==> (DraftOf(r, q).role.GitBundle? <==> q == 0)
  {
  }

  /** Where the drafts of the native artifacts and of the repositories stand. */
  lemma DraftsAt(c: Codec, input: Input)
    ensures |Drafts(c, input)| == 1 + |input.native| + 4 * |input.repositories|
    ensures Drafts(c, input)[0] == SessionDraft(c, input)
    ensures forall i :: 0 <= i < |input.native| ==> Drafts(c, input)[1 + i] == NativeDraft(c, input.native[i])
    ensures forall i, q :: 0 <= i < |input.repositories| && 0 <= q < 4 ==>
              Drafts(c, input)[1 + |input.native| + (4 * i + q)] == DraftOf(input.repositories[i], q)
  {
    hide SessionDraft, NativeDraft, DraftOf, NativeDrafts, AllRepositoryDrafts;
    NativeDraftsAt(c, input.native);
    RepositoryDraftsAt(input.repositories);
  }

  lemma PlannedDescribes(c: Codec, input: Input, partBytes: nat)
    requires partBytes > 0
    ensures Describes(c, PlannedManifest(c, input, partBytes), input)
  {
    hide Drafts, SessionDraft, PlanParts, RepositoryRecord, RecordOf, ArchivedAt, ArchiveFormatName;
    var m := PlannedManifest(c, input, partBytes);
    DraftsAt(c, input);
    forall i | 0 <= i < |input.native|
      ensures Recorded(c, m, input.native[i])
    {
      NativeDraftPath(c, input.native[i]);
      assert m.payloads[1 + i] == Completed(c, NativeDraft(c, input.native[i]), partBytes).payload;
    }
    forall i | 0 <= i < |input.repositories|
      ensures RecordOf(m.repositories[i], input.repositories[i])
    {
      RecordIs(input.repositories[i]);
      assert m.repositories[i] == RepositoryRecord(input.repositories[i]);
    }
  }

  predicate Carries(pd: Pending, path: Text, data: Text) {
    pd.payload.path == path && pd.data == data
  }

  predicate CarriesRepository(pending: seq<Pending>, at: nat, r: Snapshotted)
    requires at + 4 <= |pending|
  {
    && Carries(pending[at], PathIn(r, "committed.bundle"), r.bundle)
    && Carries(pending[at + 1], PathIn(r, "staged.patch"), r.staged)
    && Carries(pending[at + 2], PathIn(r, "unstaged.patch"), r.unstaged)
    && Carries(pending[at + 3], PathIn(r, "untracked.tar"), r.untracked)
  }

  lemma RepositoryCarried(c: Codec, pending: seq<Pending>, at: nat, r: Snapshotted, partBytes: nat)
    requires at + 4 <= |pending| && partBytes > 0
    requires forall q :: 0 <= q < 4 ==> pending[at + q] == Completed(c, DraftOf(r, q), partBytes)
    ensures CarriesRepository(pending, at, r)
  {
    hide PathIn, DraftOf, RepositoryRecord, PlanParts;
    RecordIs(r);
    DraftsOfOne(r);
    assert pending[at + 0] == Completed(c, DraftOf(r, 0), partBytes);
  }

  /** The payloads carry the session, then every native artifact, then the four
      bodies of every repository, each under its own path. */
  predicate CarriesInput(c: Codec, input: Input, pending: seq<Pending>) {
    var base := 1 + |input.native|;
    && |pending| == base + 4 * |input.repositories|
    && Carries(pending[0], SessionPath(), c.encodeSession(input.session))
    && (forall i :: 0 <= i < |input.native| ==> Carries(pending[1 + i], ArchivedAt(c, input.native[i]), input.native[i].data))
    && forall i :: 0 <= i < |input.repositories| ==>
         CarriesRepository(pending, base + 4 * i, input.repositories[i])
  }

  /** What the writer never lets into an archive. */
  predicate SafeInput(c: Codec, input: Input) {
    && !c.blank(input.header.sessionId) && !c.blank(input.header.bundleId) && c.validSession(input.session)
    && (forall i :: 0 <= i < |input.header.details| ==> !c.secretKey(input.header.details[i]))
    && (forall i :: 0 <= i < |input.native| ==>
          var n := input.native[i];
          c.clean(n.relativePath).Some? && !c.secretPath(n.relativePath) && |n.data| <= MAX_PAYLOAD_BYTES && n.mode < 4096)
    && (forall i :: 0 <= i < |input.repositories| ==>
          var r := input.repositories[i];
          c.clean(r.metadata.destination).Some? && !c.credentials(r.metadata.origin) && c.validTar(r.untracked))
  }

  /** Only bodies over the part size are cut, and bundles never. */
  predicate CutWhereNeeded(payloads: seq<Payload>, partBytes: nat) {
    forall k :: 0 <= k < |payloads| ==>
      (payloads[k].parts == [] <==> payloads[k].role.GitBundle? || payloads[k].size <= partBytes)
  }

  lemma PlannedIsSafe(c: Codec, input: Input, partBytes: nat)
    requires Preparable(c, input, partBytes)
    ensures SafeInput(c, input) && CutWhereNeeded(PlannedManifest(c, input, partBytes).payloads, partBytes)
  {
    hide ManifestOk, Drafts, RepositoryDrafts, SessionDraft, RepositoryRecords, ExpectedSchema, ArchiveFormatName;
    var payloads := PlannedManifest(c, input, partBytes).payloads;
    forall i | 0 <= i < |input.native|
      ensures |input.native[i].data| <= MAX_PAYLOAD_BYTES && input.native[i].mode < 4096
      ensures c.clean(input.native[i].relativePath).Some? && !c.secretPath(input.native[i].relativePath)
    {
      assert NativeOk(c, input.native[i]);
    }
    forall k | 0 <= k < |payloads|
      ensures payloads[k].parts == [] <==> payloads[k].role.GitBundle? || payloads[k].size <= partBytes
    {
      var d := Drafts(c, input)[k];
      if !d.role.GitBundle? && |d.data| > partBytes {
        ChunksCover(d.data, partBytes);
      }
    }
  }

  lemma PlannedCarries(c: Codec, input: Input, partBytes: nat)
    requires partBytes > 0
    ensures CarriesInput(c, input, PlannedPending(c, input, partBytes))
  {
    hide Drafts, PlanParts, SessionPath, ArchivedAt, DraftOf, CarriesRepository;
    var pending, base := PlannedPending(c, input, partBytes), 1 + |input.native|;
    DraftsAt(c, input);
    forall i | 0 <= i < |input.native|
      ensures Carries(pending[1 + i], ArchivedAt(c, input.native[i]), input.native[i].data)
    {
      NativeDraftPath(c, input.native[i]);
      assert Drafts(c, input)[1 + i] == NativeDraft(c, input.native[i]);
    }
    forall i | 0 <= i < |input.repositories|
      ensures CarriesRepository(pending, base + 4 * i, input.repositories[i])
    {
      forall q | 0 <= q < 4
        ensures pending[base + 4 * i + q] == Completed(c, DraftOf(input.repositories[i], q), partBytes)
      {
        assert Drafts(c, input)[base + (4 * i + q)] == DraftOf(input.repositories[i], q);
      }
      RepositoryCarried(c, pending, base + 4 * i, input.repositories[i], partBytes);
    }
  }

  /** Prepares the manifest and the payloads, or refuses the input. */
  method Prepare(c: Codec, input: Input, partBytes: nat) returns (manifest: Option<Manifest>, pending: seq<Pending>)
    ensures manifest.Some? <==> Preparable(c, input, partBytes)
    ensures manifest.Some? ==>
      pending == PlannedPending(c, input, partBytes) && manifest.value == PlannedManifest(c, input, partBytes)
    ensures manifest.Some? ==> Describes(c, manifest.value, input) && CarriesInput(c, input, pending)
    ensures manifest.Some? ==> SafeInput(c, input) && CutWhereNeeded(manifest.value.payloads, partBytes)
  {
    hide HeadOk, NativeOk, SnapshottedOk, ManifestOk, Distinct, NativeDrafts, AllRepositoryDrafts, AllCompleted, Payloads,
      RepositoryRecords, RecordIds, Paths, ExpectedSchema, ArchiveFormatName, SessionDraft, Describes, CarriesInput, SafeInput,
      CutWhereNeeded;
    manifest, pending := None, [];
    if partBytes == 0 || !HeadOk(c, input) {
      return;
    }
    var drafts := [SessionDraft(c, input)];
    var ok, natives := DraftNative(c, input.native);
    if !ok {
      return;
    }
    drafts := drafts + natives;
    var fromRepositories, records;
    ok, fromRepositories, records := DraftRepositories(c, input.repositories);
    OkImpliesDistinct(c, PlannedManifest(c, input, partBytes));
    RecordIdsAre(input.repositories);
    if !ok {
      return;
    }
    drafts := drafts + fromRepositories;
    pending := CompleteAll(c, drafts, partBytes);
    ok := PathsDiffer(Payloads(pending));
    if !ok {
      return;
    }
    var m := Manifest(ExpectedSchema(Payloads(pending)), ArchiveFormatName(), input.header, records, Payloads(pending));
    ok := ValidateManifest(c, m);
    if ok {
      PlannedDescribes(c, input, partBytes);
      PlannedCarries(c, input, partBytes);
      PlannedIsSafe(c, input, partBytes);
      manifest := Some(m);
    }
  }

  lemma OkImpliesDistinct(c: Codec, m: Manifest)
    ensures ManifestOk(c, m) ==> Distinct(Ids(m.repositories)) && Distinct(Paths(m.payloads))
  {
    hide Distinct, Ids, Names, Paths;
    if ManifestOk(c, m) {
      PathsAmongNames(m.payloads);
    }
  }
}
