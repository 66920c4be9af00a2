// What writing and reading an archive promise together, and what the three
// ways of reading have in common (src/hel_archive.rs).

module ArchiveLaws {
  import opened Text
  import opened ArchiveFormat
  import opened ArchiveReader
  import opened ArchiveWriter

  // ----- Every prepared payload is in order -----

  predicate GoodDraft(c: Codec, d: Draft, session: Snapshot) {
    && IsClean(c, d.path) && |d.data| <= MAX_PAYLOAD_BYTES
    && (d.role.GitUntrackedTar? ==> c.validTar(d.data))
    && (d.role == CanonicalSession ==> d.data == c.encodeSession(session))
  }

  lemma SessionPathClean(c: Codec)
    requires Lawful(c)
    ensures IsClean(c, SessionPath())
  {
    hide ValidComponent, SessionPath, IsClean;
    SessionPathParts();
    assert IsClean(c, CANONICAL + [47] + SESSION_FILE);
  }

  /** "canonical" */
  const CANONICAL: Text := [99, 97, 110, 111, 110, 105, 99, 97, 108]
  /** "session.json" */
  const SESSION_FILE: Text := [115, 101, 115, 115, 105, 111, 110, 46, 106, 115, 111, 110]

  lemma SessionPathParts()
    ensures ValidComponent(CANONICAL) && ValidComponent(SESSION_FILE)
    ensures SessionPath() == CANONICAL + [47] + SESSION_FILE
  {
  }

  lemma RepositoryPathClean(c: Codec, id: Text, name: Text)
    requires Lawful(c) && ValidComponent(id) && ValidComponent(name)
    ensures IsClean(c, RepositoryPath(id, name))
  {
    hide ValidComponent, IsClean;
    assert ValidComponent(REPOSITORIES) by { RepositoriesComponent(); }
    assert IsClean(c, REPOSITORIES + [47] + id);
  }

  lemma RepositoriesComponent()
    ensures ValidComponent(REPOSITORIES) && ValidComponent(NATIVE)
    ensures ValidComponent(BUNDLE) && ValidComponent(STAGED) && ValidComponent(UNSTAGED) && ValidComponent(UNTRACKED)
  {
  }

  lemma {:induction false} NativeDraftsGood(c: Codec, native: seq<Native>, session: Snapshot)
    requires Lawful(c) && forall i :: 0 <= i < |native| ==> NativeOk(c, native[i])
    ensures forall i :: 0 <= i < |NativeDrafts(c, native)| ==> GoodDraft(c, NativeDrafts(c, native)[i], session)
  {
    if native != [] {
      NativeDraftsGood(c, native[..|native|-1], session);
      var n := native[|native|-1];
      assert NativeOk(c, n);
      RepositoriesComponent();
      assert IsClean(c, c.clean(n.relativePath).value);
      assert IsClean(c, NativePath(c.clean(n.relativePath).value));
    }
  }

  lemma RepositoryDraftsGood(c: Codec, r: Snapshotted, session: Snapshot)
    requires Lawful(c) && SnapshottedOk(c, r)
    ensures forall i :: 0 <= i < 4 ==> GoodDraft(c, RepositoryDrafts(r)[i], session)
  {
    hide ValidComponent, Lawful, RepositoryPath;
    RepositoriesComponent();
    RepositoryPathClean(c, r.metadata.id, BUNDLE);
    RepositoryPathClean(c, r.metadata.id, STAGED);
    RepositoryPathClean(c, r.metadata.id, UNSTAGED);
    RepositoryPathClean(c, r.metadata.id, UNTRACKED);
    var d := RepositoryDrafts(r);
    assert DraftOk(c, d[0]) && DraftOk(c, d[1]) && DraftOk(c, d[2]) && DraftOk(c, d[3]);
  }

  lemma {:induction false} AllRepositoryDraftsGood(c: Codec, rs: seq<Snapshotted>, session: Snapshot)
    requires Lawful(c) && forall i :: 0 <= i < |rs| ==> SnapshottedOk(c, rs[i])
    ensures forall i :: 0 <= i < |AllRepositoryDrafts(rs)| ==> GoodDraft(c, AllRepositoryDrafts(rs)[i], session)
  {
    hide Lawful, SnapshottedOk, GoodDraft;
    if rs != [] {
      AllRepositoryDraftsGood(c, rs[..|rs|-1], session);
      RepositoryDraftsGood(c, rs[|rs|-1], session);
      FourDrafts(rs[|rs|-1]);
    }
  }

  lemma DraftsGood(c: Codec, input: Input, partBytes: nat)
    requires Lawful(c) && Preparable(c, input, partBytes)
    ensures forall i :: 0 <= i < |Drafts(c, input)| ==> GoodDraft(c, Drafts(c, input)[i], input.session)
  {
    hide Lawful, ManifestOk, NativeOk, SnapshottedOk, NativeDrafts, AllRepositoryDrafts, SessionPath;
    SessionPathClean(c);
    NativeDraftsGood(c, input.native, input.session);
    AllRepositoryDraftsGood(c, input.repositories, input.session);
  }

  /** A payload whose record says what its bytes are. If it is cut into parts,
      that holds of every part, and the digest of the whole is left open. */
  predicate GoodPending(c: Codec, pd: Pending, session: Snapshot, partBytes: nat) {
    && partBytes > 0
    && GoodDraft(c, Draft(pd.payload.path, pd.data, pd.payload.mode, pd.payload.role), session)
    && pd.payload.mode < 512
    && pd.payload ==
       Completed(c, Draft(pd.payload.path, pd.data, pd.payload.mode, pd.payload.role), partBytes).payload.(sha256 := pd.payload.sha256)
    && (pd.payload.parts == [] ==> pd.payload.sha256 == c.digest(pd.data))
  }

  /** The digest of the whole is right where a reader looks at it. */
  predicate DigestOk(c: Codec, pd: Pending, retention: Retention) {
    pd.payload.parts != [] && RetainsParts(retention, pd.payload.role) ==> pd.payload.sha256 == c.digest(pd.data)
  }

  lemma PlannedGood(c: Codec, input: Input, partBytes: nat)
    requires Lawful(c) && Preparable(c, input, partBytes)
    ensures forall k :: 0 <= k < |PlannedPending(c, input, partBytes)| ==>
            GoodPending(c, PlannedPending(c, input, partBytes)[k], input.session, partBytes)
  {
    hide Lawful, PlanParts, IsClean, Drafts, HeadOk, NativeOk, SnapshottedOk, ManifestOk;
    DraftsGood(c, input, partBytes);
    forall k | 0 <= k < |Drafts(c, input)|
      ensures GoodPending(c, PlannedPending(c, input, partBytes)[k], input.session, partBytes)
    {
      assert GoodDraft(c, Drafts(c, input)[k], input.session);
    }
  }

  /** The writer never fails because parts do not fit or cover a body. */
  lemma PlannedCovered(c: Codec, input: Input, partBytes: nat)
    requires partBytes > 0
    ensures forall k :: 0 <= k < |PlannedPending(c, input, partBytes)| ==> Covered(PlannedPending(c, input, partBytes)[k])
  {
    hide Drafts, PlanParts, SumSizes;
    forall k | 0 <= k < |Drafts(c, input)|
      ensures Covered(PlannedPending(c, input, partBytes)[k])
    {
      var d := Drafts(c, input)[k];
      PlanCovers(c, d.path, d.data, d.role, partBytes);
    }
  }

  /** Writes an archive. Once the input is prepared, only a manifest over the
      size limit stops it. */
  method WriteArchive(c: Codec, input: Input, partBytes: nat) returns (zip: Option<Zip>)
    ensures zip.Some? <==>
      Preparable(c, input, partBytes) && |c.encodeManifest(PlannedManifest(c, input, partBytes))| <= MAX_MANIFEST_BYTES
    ensures zip.Some? ==>
      zip.value == ZipOf(c, PlannedManifest(c, input, partBytes), PlannedPending(c, input, partBytes))
  {
    hide ManifestOk, HeadOk, NativeOk, SnapshottedOk, PlannedManifest, PlannedPending, ZipOf, Covered;
    var manifest, pending := Prepare(c, input, partBytes);
    if manifest.None? {
      return None;
    }
    PlannedCovered(c, input, partBytes);
    zip := WriteZip(c, manifest.value, pending);
  }

  // ----- Entries match what the manifest promises -----

  predicate Aligned(c: Codec, entries: seq<Entry>, leaves: seq<Leaf>) {
    |entries| == |leaves| &&
    forall i :: 0 <= i < |entries| ==>
      NameOf(c, entries[i]) == leaves[i].name && EntryOk(c, entries[i]) && EntryMatches(c, entries[i], leaves[i])
  }

  lemma AlignedConcat(c: Codec, e: seq<Entry>, l: seq<Leaf>, e': seq<Entry>, l': seq<Leaf>)
    requires Aligned(c, e, l) && Aligned(c, e', l')
    ensures Aligned(c, e + e', l + l')
  {
    hide NameOf, EntryOk, EntryMatches;
  }

  lemma FileMatches(c: Codec, name: Text, data: Text, leaf: Leaf)
    requires IsClean(c, name) && leaf.name == name && |data| <= MAX_PAYLOAD_BYTES && leaf.payload.mode < 512
    requires leaf.size == |data| && leaf.sha256 == c.digest(data)
    ensures var e := FileEntry(name, leaf.payload.mode, data);
            NameOf(c, e) == leaf.name && EntryOk(c, e) && EntryMatches(c, e, leaf)
  {
    assert (REGULAR_FILE + leaf.payload.mode) % 4096 == leaf.payload.mode;
  }

  lemma PartPathClean(c: Codec, path: Text, k: nat)
    requires Lawful(c) && IsClean(c, path)
    ensures IsClean(c, PartPath(path, k))
  {
    hide Padded;
    var tail := PartSuffix() + Padded(k, 5);
    assert Plain(tail);
    assert IsClean(c, path + tail);
    assert PartPath(path, k) == path + tail;
  }

  lemma PendingAligned(c: Codec, pd: Pending, session: Snapshot, partBytes: nat)
    requires Lawful(c) && GoodPending(c, pd, session, partBytes)
    ensures Aligned(c, EntriesOf(pd), LeavesOf(pd.payload))
  {
    hide Lawful, IsClean, Chunks, PartPath, FileEntry, NameOf, EntryOk, EntryMatches, Slice;
    var p := pd.payload;
    if p.parts == [] {
      FileMatches(c, p.path, pd.data, LeavesOf(p)[0]);
    } else {
      ChunksCover(pd.data, partBytes);
      forall k | 0 <= k < |p.parts|
        ensures var e, leaf := EntriesOf(pd)[k], LeavesOf(p)[k];
                NameOf(c, e) == leaf.name && EntryOk(c, e) && EntryMatches(c, e, leaf)
      {
        PartPathClean(c, p.path, k);
        SliceIsChunk(c, p.path, pd.data, partBytes, k);
        ChunkFits(pd.data, partBytes, k);
        FileMatches(c, p.parts[k].path, Slice(p.parts, pd.data, k), LeavesOf(p)[k]);
      }
    }
  }

  lemma ChunkFits(data: Text, partBytes: nat, k: nat)
    requires partBytes > 0 && data != [] && k < |Chunks(data, partBytes)|
    ensures |Chunks(data, partBytes)[k]| <= |data|
    decreases |data|
  {
    if |data| > partBytes && k > 0 {
      ChunkFits(data[partBytes..], partBytes, k - 1);
    }
  }

  lemma {:induction false} AllAligned(c: Codec, pending: seq<Pending>, session: Snapshot, partBytes: nat)
    requires Lawful(c) && forall k :: 0 <= k < |pending| ==> GoodPending(c, pending[k], session, partBytes)
    ensures Aligned(c, AllEntries(pending), Leaves(Payloads(pending)))
  {
    hide Lawful, GoodPending, EntriesOf, LeavesOf, NameOf, EntryOk, EntryMatches;
    if pending != [] {
      var front, last := pending[..|pending|-1], pending[|pending|-1];
      AllAligned(c, front, session, partBytes);
      PendingAligned(c, last, session, partBytes);
      assert Payloads(pending)[..|pending|-1] == Payloads(front);
      AlignedConcat(c, AllEntries(front), Leaves(Payloads(front)), EntriesOf(last), LeavesOf(last.payload));
    }
  }

  /** Where the entry of a payload or part stands in the archive. */
  lemma {:induction false} Locate(pending: seq<Pending>, k: nat, j: nat) returns (i: nat)
    requires k < |pending| && j < |EntriesOf(pending[k])|
    ensures i < |AllEntries(pending)| && AllEntries(pending)[i] == EntriesOf(pending[k])[j]
    decreases |pending|
  {
    hide EntriesOf;
    var front := pending[..|pending|-1];
    if k < |front| {
      i := Locate(front, k, j);
    } else {
      i := |AllEntries(front)| + j;
    }
  }

  // ----- Planned parts pass the manifest check -----

  lemma PartPathInjective(path: Text, i: nat, j: nat)
    ensures PartPath(path, i) == PartPath(path, j) <==> i == j
    ensures PartPath(path, i) != path
  {
    hide Padded, PartSuffix;
    var stem := path + PartSuffix();
    assert PartPath(path, i)[|stem|..] == Padded(i, 5) && PartPath(path, j)[|stem|..] == Padded(j, 5);
    if PartPath(path, i) == PartPath(path, j) {
      PaddedInjective(i, j, 5);
    }
    assert |PartPath(path, i)| > |path|;
  }

  /** However a payload is cut, its parts can be reassembled exactly and their
      names clash neither with each other nor with the payload's. */
  lemma PlannedPartsOk(c: Codec, d: Draft, partBytes: nat)
    requires Lawful(c) && IsClean(c, d.path) && partBytes > 0
    ensures var p := Completed(c, d, partBytes).payload;
            PartsOk(c, p) && Distinct([p.path] + PartNames(p.parts))
  {
    hide PartPath, Chunks, IsHash, SumSizes, IsClean, PartNames;
    var p := Completed(c, d, partBytes).payload;
    PlanCovers(c, d.path, d.data, d.role, partBytes);
    PartNamesAt(p.parts);
    if p.parts != [] {
      ChunksCover(d.data, partBytes);
      forall i | 0 <= i < |p.parts|
        ensures PartOk(c, p, i)
      {
        PartPathClean(c, p.path, i);
        CleanIsSome(c, PartPath(p.path, i));
      }
      var names := [p.path] + PartNames(p.parts);
      forall i, j | 0 <= i < j < |names|
        ensures names[i] != names[j]
      {
        PartPathInjective(p.path, j - 1, if i == 0 then 0 else i - 1);
      }
    }
  }

  lemma CleanIsSome(c: Codec, p: Text)
    requires IsClean(c, p)
    ensures c.clean(p).Some?
  {
  }

  /** A session with nothing but its transcript can always be archived. */
  lemma BareSessionPreparable(c: Codec, header: Header, session: Snapshot, partBytes: nat)
    requires Lawful(c) && partBytes > 0 && HeadOk(c, Input(header, session, [], []))
    ensures Preparable(c, Input(header, session, [], []), partBytes)
  {
    hide Lawful, PartsOk, PartNames, Distinct, SessionPath, ArchiveFormatName, ManifestPath, IsHash, PlanParts;
    var input := Input(header, session, [], []);
    var d := SessionDraft(c, input);
    SessionPathClean(c);
    PlannedPartsOk(c, d, partBytes);
    DigestIsHash(c, d.data);
    SessionNotManifest();
    assert Drafts(c, input) == [d];
    var m := PlannedManifest(c, input, partBytes);
    var p := Completed(c, d, partBytes).payload;
    assert m.payloads == [p];
    OneName(p);
    OnePayload(p);
    assert m.payloads[0].path == SessionPath();
    assert m.repositories == [];
    NoneDistinct();
  }

  lemma DigestIsHash(c: Codec, data: Text)
    requires Lawful(c)
    ensures IsHash(c.digest(data))
  {
  }

  lemma SessionNotManifest()
    ensures SessionPath() != ManifestPath()
  {
    assert |SessionPath()| != |ManifestPath()|;
  }

  lemma OneName(p: Payload)
    ensures Names([p]) == [p.path] + PartNames(p.parts)
  {
    hide PartNames;
    assert [p][..|[p]|-1] == [];
  }

  lemma OnePayload(p: Payload)
    ensures CanonicalCount([p]) == if p.role == CanonicalSession then 1 else 0
  {
    assert [p][..|[p]|-1] == [];
  }

  // ----- The archive that is written -----

  /** All that the reading side needs to know about what was written. */
  ghost predicate Written(c: Codec, m: Manifest, pending: seq<Pending>, session: Snapshot, partBytes: nat) {
    && Lawful(c) && ManifestOk(c, m) && m.payloads == Payloads(pending)
    && |c.encodeManifest(m)| <= MAX_MANIFEST_BYTES
    && forall k :: 0 <= k < |pending| ==> GoodPending(c, pending[k], session, partBytes)
  }

  lemma AlignedNames(c: Codec, first: Entry, entries: seq<Entry>, leaves: seq<Leaf>)
    requires Aligned(c, entries, leaves)
    ensures EntryNames(c, [first] + entries) == [NameOf(c, first)] + LeafNames(leaves)
  {
    hide NameOf, EntryOk, EntryMatches;
  }

  lemma ZipNames(c: Codec, m: Manifest, pending: seq<Pending>, session: Snapshot, partBytes: nat)
    requires Written(c, m, pending, session, partBytes)
    ensures EntryNames(c, ZipOf(c, m, pending)) == [ManifestPath()] + LeafNames(Leaves(m.payloads))
    ensures Distinct(EntryNames(c, ZipOf(c, m, pending)))
  {
    hide Lawful, ManifestOk, GoodPending, ManifestPath, Leaves, LeafNames, AllEntries, Aligned, Distinct, SetOf, EntryNames;
    ManifestIsClean(c);
    AllAligned(c, pending, session, partBytes);
    ManifestFacts(c, m);
    AlignedNames(c, ZipOf(c, m, pending)[0], AllEntries(pending), Leaves(m.payloads));
    var names := LeafNames(Leaves(m.payloads));
    SetOfMember(names, ManifestPath());
    OneDistinct(ManifestPath());
    DistinctConcat([ManifestPath()], names);
  }

  lemma OneDistinct(x: Text)
    ensures Distinct([x])
  {
  }

  lemma ZipLookup(c: Codec, m: Manifest, pending: seq<Pending>, session: Snapshot, partBytes: nat, i: nat)
    requires Written(c, m, pending, session, partBytes) && i < |AllEntries(pending)|
    ensures i < |Leaves(m.payloads)|
    ensures Lookup(c, ZipOf(c, m, pending), Leaves(m.payloads)[i].name) == Some(AllEntries(pending)[i])
  {
    hide Lawful, ManifestOk, GoodPending, ManifestPath, Leaves, AllEntries, EntryOk, EntryMatches, Distinct, NameOf;
    AllAligned(c, pending, session, partBytes);
    ZipNames(c, m, pending, session, partBytes);
    LookupAt(c, ZipOf(c, m, pending), 1 + i);
  }

  lemma EntryData(c: Codec, m: Manifest, pending: seq<Pending>, session: Snapshot, partBytes: nat, k: nat, j: nat)
    requires Written(c, m, pending, session, partBytes) && k < |pending| && j < |EntriesOf(pending[k])|
    ensures var e := EntriesOf(pending[k])[j];
            IsClean(c, e.name) ==> DataOf(c, ZipOf(c, m, pending), e.name) == e.data
  {
    hide Lawful, ManifestOk, GoodPending, ManifestPath, Leaves, AllEntries, EntriesOf, EntryOk, EntryMatches, Distinct;
    var i := Locate(pending, k, j);
    AllAligned(c, pending, session, partBytes);
    ZipLookup(c, m, pending, session, partBytes, i);
  }

  lemma {:induction false} JoinedIs(c: Codec, zip: Zip, parts: seq<Part>, data: Text, j: nat)
    requires j <= |parts| && SumSizes(parts) == |data|
    requires forall k :: 0 <= k < |parts| ==> DataOf(c, zip, parts[k].path) == Slice(parts, data, k)
    ensures SumSizes(parts[..j]) <= |data| && Joined(c, zip, parts[..j]) == data[..SumSizes(parts[..j])]
    decreases j
  {
    hide DataOf, SumSizes;
    SumSizesNone(parts);
    if j > 0 {
      assert parts[..j][..j-1] == parts[..j-1];
      JoinedIs(c, zip, parts, data, j - 1);
      SumSizesStep(parts, j - 1);
      NextBytes(data, SumSizes(parts[..j-1]), SumSizes(parts[..j]));
    }
  }

  lemma NextBytes(data: Text, start: nat, end: nat)
    requires start <= end <= |data|
    ensures data[..start] + data[start..end] == data[..end]
  {
  }

  /** Reading gives every payload its bytes back, whole or from its parts. */
  lemma BodyIs(c: Codec, m: Manifest, pending: seq<Pending>, session: Snapshot, partBytes: nat, k: nat)
    requires Written(c, m, pending, session, partBytes) && k < |pending|
    ensures BodyOf(c, ZipOf(c, m, pending), pending[k].payload) == pending[k].data
  {
    hide Lawful, ManifestOk, ManifestPath, DataOf, Slice, SumSizes, Chunks, PartPath, ZipOf, IsClean;
    var pd, zip := pending[k], ZipOf(c, m, pending);
    var p := pd.payload;
    assert GoodPending(c, pd, session, partBytes);
    if p.parts == [] {
      EntryData(c, m, pending, session, partBytes, k, 0);
    } else {
      forall j | 0 <= j < |p.parts|
        ensures DataOf(c, zip, p.parts[j].path) == Slice(p.parts, pd.data, j)
      {
        PartPathClean(c, p.path, j);
        EntryData(c, m, pending, session, partBytes, k, j);
      }
      PlanCovers(c, p.path, pd.data, p.role, partBytes);
      JoinedIs(c, zip, p.parts, pd.data, |p.parts|);
      assert p.parts[..|p.parts|] == p.parts;
    }
  }

  lemma WrittenScans(c: Codec, m: Manifest, pending: seq<Pending>, session: Snapshot, partBytes: nat)
    requires Written(c, m, pending, session, partBytes) && TotalSize(ZipOf(c, m, pending)) <= MAX_ARCHIVE_BYTES
    ensures ScanOk(c, ZipOf(c, m, pending)) && ManifestOf(c, ZipOf(c, m, pending)) == Some(m)
    ensures EntriesOk(c, ZipOf(c, m, pending), m)
  {
    hide ManifestOk, GoodPending, ManifestPath, Leaves, AllEntries, EntryMatches, Distinct, LeafNames, TotalSize, Lookup;
    var zip, leaves := ZipOf(c, m, pending), Leaves(m.payloads);
    ManifestIsClean(c);
    AllAligned(c, pending, session, partBytes);
    ZipNames(c, m, pending, session, partBytes);
    LookupAt(c, zip, 0);
    assert EntryNames(c, zip)[0] == ManifestPath();
    forall i | 0 <= i < |zip|
      ensures EntryOk(c, zip[i])
    {
      if i > 0 {
        assert zip[i] == AllEntries(pending)[i - 1];
      }
    }
    forall i | 0 <= i < |leaves|
      ensures Verified(c, zip, leaves[i])
    {
      ZipLookup(c, m, pending, session, partBytes, i);
    }
  }

  lemma WrittenBodies(c: Codec, m: Manifest, pending: seq<Pending>, session: Snapshot, partBytes: nat, retention: Retention)
    requires Written(c, m, pending, session, partBytes) && c.validSession(session)
    ensures BodiesOk(c, ZipOf(c, m, pending), m.payloads, retention) <==>
            forall k :: 0 <= k < |pending| ==> DigestOk(c, pending[k], retention)
  {
    hide ManifestOk, ManifestPath, BodyOf, PlanParts, ZipOf, IsClean;
    forall k | 0 <= k < |m.payloads|
      ensures BodyOk(c, ZipOf(c, m, pending), m.payloads[k], retention) <==> DigestOk(c, pending[k], retention)
    {
      BodyIs(c, m, pending, session, partBytes, k);
      assert GoodPending(c, pending[k], session, partBytes);
    }
  }

  /** A written archive is accepted exactly when the digests of the payloads that
      are put together are right. */
  lemma WrittenAcceptableIff(c: Codec, m: Manifest, pending: seq<Pending>, session: Snapshot, partBytes: nat, retention: Retention)
    requires Written(c, m, pending, session, partBytes) && c.validSession(session)
    requires TotalSize(ZipOf(c, m, pending)) <= MAX_ARCHIVE_BYTES
    ensures Acceptable(c, ZipOf(c, m, pending), retention) <==>
            forall k :: 0 <= k < |pending| ==> DigestOk(c, pending[k], retention)
  {
    hide Written, ScanOk, ManifestOf, EntriesOk, BodiesOk, ZipOf, TotalSize, DigestOk;
    WrittenScans(c, m, pending, session, partBytes);
    WrittenBodies(c, m, pending, session, partBytes, retention);
    WrittenPayloads(c, m, pending, session, partBytes);
  }

  lemma WrittenPayloads(c: Codec, m: Manifest, pending: seq<Pending>, session: Snapshot, partBytes: nat)
    requires Written(c, m, pending, session, partBytes)
    ensures m.payloads == Payloads(pending)
  {
    hide Lawful, ManifestOk, GoodPending;
  }

  lemma {:induction false} WrittenSession(c: Codec, m: Manifest, pending: seq<Pending>, session: Snapshot, partBytes: nat, n: nat)
    requires Written(c, m, pending, session, partBytes) && n <= |pending|
    ensures var found := SessionIn(c, ZipOf(c, m, pending), m.payloads[..n]);
            if CanonicalCount(m.payloads[..n]) > 0 then found == Some(session) else found.None?
    decreases n
  {
    hide ManifestOk, ManifestPath, BodyOf, PlanParts, ZipOf, IsClean;
    if n > 0 {
      assert m.payloads[..n][..n-1] == m.payloads[..n-1];
      WrittenSession(c, m, pending, session, partBytes, n - 1);
      BodyIs(c, m, pending, session, partBytes, n - 1);
      assert GoodPending(c, pending[n-1], session, partBytes);
    }
  }

  lemma {:induction false} KeptAt(c: Codec, zip: Zip, payloads: seq<Payload>, retention: Retention)
    requires Distinct(Paths(payloads))
    ensures forall k :: 0 <= k < |payloads| ==>
      var kept := KeptBodies(c, zip, payloads, retention);
      var p := payloads[k];
      if Keeps(retention, p.role) then p.path in kept && kept[p.path] == BodyOf(c, zip, p) else p.path !in kept
    ensures forall x :: x in KeptBodies(c, zip, payloads, retention) ==> x in Paths(payloads)
  {
    hide BodyOf, Keeps;
    if payloads != [] {
      var front, last := payloads[..|payloads|-1], payloads[|payloads|-1];
      assert Paths(payloads) == Paths(front) + [last.path];
      DistinctSnoc(Paths(front), last.path);
      KeptAt(c, zip, front, retention);
      forall k | 0 <= k < |front|
        ensures payloads[k].path != last.path
      {
        assert Paths(front)[k] == payloads[k].path;
      }
    }
  }

  /** What the reader hands out of the drafts, by position. */
  ghost predicate Read(c: Codec, input: Input, retention: Retention, kept: map<Text, Text>) {
    var drafts := Drafts(c, input);
    && (forall k :: 0 <= k < |drafts| ==>
          if Keeps(retention, drafts[k].role)
          then drafts[k].path in kept && kept[drafts[k].path] == drafts[k].data
          else drafts[k].path !in kept)
    && (forall x :: x in kept ==> exists k :: 0 <= k < |drafts| && drafts[k].path == x)
  }

  /** Every planned payload is read back as its own bytes where it is kept. */
  lemma PayloadsReadBack(c: Codec, input: Input, partBytes: nat, retention: Retention)
    requires Lawful(c) && Preparable(c, input, partBytes)
    requires |c.encodeManifest(PlannedManifest(c, input, partBytes))| <= MAX_MANIFEST_BYTES
    requires TotalSize(ZipOf(c, PlannedManifest(c, input, partBytes), PlannedPending(c, input, partBytes))) <= MAX_ARCHIVE_BYTES
    ensures var m := PlannedManifest(c, input, partBytes);
            var zip := ZipOf(c, m, PlannedPending(c, input, partBytes));
            var kept := KeptBodies(c, zip, m.payloads, retention);
            && Acceptable(c, zip, retention) && ManifestOf(c, zip) == Some(m)
            && SessionIn(c, zip, m.payloads) == Some(input.session)
            && Read(c, input, retention, kept)
  {
    hide Lawful, ManifestOk, HeadOk, NativeOk, SnapshottedOk, GoodPending, ZipOf, ScanOk, ManifestOf, EntriesOk, BodiesOk,
      KeptBodies, BodyOf, SessionIn, CanonicalCount, Distinct, Drafts, PlanParts, TotalSize, ManifestFor, Keeps;
    var m, pending := PlannedManifest(c, input, partBytes), PlannedPending(c, input, partBytes);
    var zip, drafts := ZipOf(c, m, pending), Drafts(c, input);
    PlannedGood(c, input, partBytes);
    PlannedDigests(c, input, partBytes, retention);
    ManifestPayloads(input, Payloads(pending));
    WrittenScans(c, m, pending, input.session, partBytes);
    SessionValid(c, input);
    WrittenBodies(c, m, pending, input.session, partBytes, retention);
    WrittenSession(c, m, pending, input.session, partBytes, |pending|);
    assert m.payloads[..|pending|] == m.payloads;
    ManifestFacts(c, m);
    OkImpliesDistinct(c, m);
    KeptAt(c, zip, m.payloads, retention);
    var kept := KeptBodies(c, zip, m.payloads, retention);
    forall k | 0 <= k < |drafts|
      ensures if Keeps(retention, drafts[k].role)
              then drafts[k].path in kept && kept[drafts[k].path] == drafts[k].data
              else drafts[k].path !in kept
    {
      BodyIs(c, m, pending, input.session, partBytes, k);
      assert m.payloads[k] == pending[k].payload;
    }
    forall x | x in kept
      ensures exists k :: 0 <= k < |drafts| && drafts[k].path == x
    {
      var k :| 0 <= k < |m.payloads| && Paths(m.payloads)[k] == x;
      assert drafts[k].path == x;
    }
  }

  // ----- What is read back, on the input itself -----

  predicate Holds(kept: map<Text, Text>, path: Text, data: Text) {
    path in kept && kept[path] == data
  }

  predicate HoldsRest(kept: map<Text, Text>, record: Repository, r: Snapshotted) {
    Holds(kept, record.staged, r.staged) && Holds(kept, record.unstaged, r.unstaged) && Holds(kept, record.untracked, r.untracked)
  }

  /** Something of the input that `retention` keeps is archived at `x`. */
  predicate Wanted(c: Codec, input: Input, retention: Retention, x: Text) {
    || (retention == All && x == Ascii("canonical/session.json"))
    || (retention == All && exists i :: 0 <= i < |input.native| && x == ArchivedAt(c, input.native[i]))
    || (retention != CanonicalOnly && exists i :: 0 <= i < |input.repositories| && x == PathIn(input.repositories[i], "committed.bundle"))
    || (retention == All && exists i :: 0 <= i < |input.repositories| && PathOfRest(input.repositories[i], x))
  }

  predicate PathOfRest(r: Snapshotted, x: Text) {
    x == PathIn(r, "staged.patch") || x == PathIn(r, "unstaged.patch") || x == PathIn(r, "untracked.tar")
  }

  /** The bodies handed out are those of the input, each under its own path, and
      no others: all of them, the bundles only, or none. */
  ghost predicate HandsOut(c: Codec, m: Manifest, input: Input, retention: Retention, kept: map<Text, Text>)
    requires |m.repositories| == |input.repositories|
  {
    && (retention == All ==> Holds(kept, Ascii("canonical/session.json"), c.encodeSession(input.session)))
    && (retention == All ==> forall i :: 0 <= i < |input.native| ==> Holds(kept, ArchivedAt(c, input.native[i]), input.native[i].data))
    && (retention == All ==> forall i :: 0 <= i < |input.repositories| ==> HoldsRest(kept, m.repositories[i], input.repositories[i]))
    && (retention != CanonicalOnly ==>
          forall i :: 0 <= i < |input.repositories| ==> Holds(kept, m.repositories[i].bundle, input.repositories[i].bundle))
    && forall x :: x in kept ==> Wanted(c, input, retention, x)
  }

  lemma ReadRepository(c: Codec, input: Input, retention: Retention, kept: map<Text, Text>, i: nat)
    requires Read(c, input, retention, kept) && i < |input.repositories|
    ensures var r := input.repositories[i];
            && (retention == All ==> HoldsRest(kept, RepositoryRecord(r), r))
            && (retention != CanonicalOnly ==> Holds(kept, RepositoryRecord(r).bundle, r.bundle))
  {
    hide Drafts, DraftOf, RepositoryRecord;
    DraftsAt(c, input);
    DraftsOfOne(input.repositories[i]);
    var drafts, base := Drafts(c, input), 1 + |input.native|;
    assert drafts[base + (4 * i + 0)] == DraftOf(input.repositories[i], 0);
    assert drafts[base + (4 * i + 1)] == DraftOf(input.repositories[i], 1);
    assert drafts[base + (4 * i + 2)] == DraftOf(input.repositories[i], 2);
    assert drafts[base + (4 * i + 3)] == DraftOf(input.repositories[i], 3);
  }

  lemma ReadNative(c: Codec, input: Input, retention: Retention, kept: map<Text, Text>, i: nat)
    requires Read(c, input, retention, kept) && i < |input.native| && retention == All
    ensures Holds(kept, ArchivedAt(c, input.native[i]), input.native[i].data)
  {
    hide Drafts, ArchivedAt;
    DraftsAt(c, input);
    NativeDraftPath(c, input.native[i]);
    assert Drafts(c, input)[1 + i] == NativeDraft(c, input.native[i]);
  }

  lemma ReadSession(c: Codec, input: Input, retention: Retention, kept: map<Text, Text>)
    requires Read(c, input, retention, kept) && retention == All
    ensures Holds(kept, SessionPath(), c.encodeSession(input.session))
  {
    hide Drafts, SessionPath;
    DraftsAt(c, input);
  }

  lemma ReadWanted(c: Codec, input: Input, retention: Retention, kept: map<Text, Text>, x: Text)
    requires Read(c, input, retention, kept) && x in kept
    ensures Wanted(c, input, retention, x)
  {
    hide Drafts, SessionPath, ArchivedAt, PathIn, DraftOf, RepositoryRecord, Ascii;
    var drafts := Drafts(c, input);
    DraftsAt(c, input);
    var k :| 0 <= k < |drafts| && drafts[k].path == x;
    assert Keeps(retention, drafts[k].role);
    if k == 0 {
      SessionWording();
    } else if k <= |input.native| {
      var i := k - 1;
      assert drafts[1 + i] == NativeDraft(c, input.native[i]);
      NativeDraftPath(c, input.native[i]);
    } else {
      var at := k - 1 - |input.native|;
      var i, q := at / 4, at % 4;
      assert drafts[1 + |input.native| + (4 * i + q)] == DraftOf(input.repositories[i], q);
      DraftIsAt(input.repositories[i], q);
    }
  }

  lemma DraftIsAt(r: Snapshotted, q: nat)
    requires q < 4
    ensures if q == 0 then DraftOf(r, q).path == PathIn(r, "committed.bundle") else PathOfRest(r, DraftOf(r, q).path)
    ensures DraftOf(r, q).role.GitBundle? <==> q == 0
  {
    hide PathIn, DraftOf, RepositoryRecord;
    DraftsOfOne(r);
    RecordIs(r);
  }

  lemma SessionWording()
    ensures SessionPath() == Ascii("canonical/session.json")
  {
  }

  lemma ReadHandsOut(c: Codec, m: Manifest, input: Input, retention: Retention, kept: map<Text, Text>)
    requires Read(c, input, retention, kept) && m.repositories == RepositoryRecords(input.repositories)
    ensures HandsOut(c, m, input, retention, kept)
  {
    hide Read, ArchivedAt, RepositoryRecord, Wanted, SessionPath, Ascii;
    SessionWording();
    if retention == All {
      ReadSession(c, input, retention, kept);
      forall i | 0 <= i < |input.native|
        ensures Holds(kept, ArchivedAt(c, input.native[i]), input.native[i].data)
      {
        ReadNative(c, input, retention, kept, i);
      }
    }
    forall i | 0 <= i < |input.repositories|
      ensures retention == All ==> HoldsRest(kept, m.repositories[i], input.repositories[i])
      ensures retention != CanonicalOnly ==> Holds(kept, m.repositories[i].bundle, input.repositories[i].bundle)
    {
      ReadRepository(c, input, retention, kept, i);
    }
    forall x | x in kept
      ensures Wanted(c, input, retention, x)
    {
      ReadWanted(c, input, retention, kept, x);
    }
  }

  /** Writing an input and reading it back gives the input: its header, its
      session, its repositories' records and, as far as they are asked for, its
      native artifacts and the four bodies of every repository under their own
      paths. For every size of parts and every way of reading, as long as the
      archive is within the reader's limit. */
  method RoundTrip(c: Codec, input: Input, partBytes: nat, retention: Retention) returns (zip: Option<Zip>, contents: Option<Contents>)
    requires Lawful(c)
    ensures zip.Some? <==>
      Preparable(c, input, partBytes) && |c.encodeManifest(PlannedManifest(c, input, partBytes))| <= MAX_MANIFEST_BYTES
    ensures zip.Some? && TotalSize(zip.value) <= MAX_ARCHIVE_BYTES ==>
      && contents.Some? && contents.value.session == input.session
      && Describes(c, contents.value.manifest, input)
      && HandsOut(c, contents.value.manifest, input, retention, contents.value.payloads)
  {
    hide Lawful, Preparable, PlannedManifest, PlannedPending, ZipOf, Acceptable, ManifestOf, SessionIn, KeptBodies, Describes,
      HandsOut, Read, TotalSize;
    zip := WriteArchive(c, input, partBytes);
    contents := None;
    if zip.Some? {
      contents := ReadVerifiedZip(c, zip.value, retention);
      if TotalSize(zip.value) <= MAX_ARCHIVE_BYTES {
        PartsCount(c, input, partBytes);
        PayloadsReadBack(c, input, partBytes, retention);
        PlannedDescribes(c, input, partBytes);
        ReadHandsOut(c, PlannedManifest(c, input, partBytes), input, retention, contents.value.payloads);
      }
    }
  }

  lemma PartsCount(c: Codec, input: Input, partBytes: nat)
    requires Preparable(c, input, partBytes)
    ensures partBytes > 0 && PlannedManifest(c, input, partBytes).repositories == RepositoryRecords(input.repositories)
  {
    hide HeadOk, NativeOk, SnapshottedOk, ManifestOk, PlannedPending, RepositoryRecords, ExpectedSchema;
  }

  lemma PlannedDigests(c: Codec, input: Input, partBytes: nat, retention: Retention)
    requires partBytes > 0
    ensures forall k :: 0 <= k < |PlannedPending(c, input, partBytes)| ==>
            DigestOk(c, PlannedPending(c, input, partBytes)[k], retention)
  {
    hide Drafts, PlanParts;
  }

  lemma ManifestPayloads(input: Input, payloads: seq<Payload>)
    ensures ManifestFor(input, payloads).payloads == payloads
  {
  }

  lemma SessionValid(c: Codec, input: Input)
    requires HeadOk(c, input)
    ensures c.validSession(input.session)
  {
  }

  // ----- What accepting an archive means -----

  predicate LowerHex(t: Text) {
    |t| == 64 && forall i :: 0 <= i < |t| ==> 48 <= t[i] <= 57 || 97 <= t[i] <= 102
  }

  predicate SafeParts(p: Payload) {
    p.parts == [] ||
    (|p.parts| > 1 &&
     forall i :: 0 <= i < |p.parts| ==>
       p.parts[i].path == p.path + Ascii(".helpart.") + Padded(i, 5) && p.parts[i].size > 0 && LowerHex(p.parts[i].sha256))
  }

  predicate OwnedBy(m: Manifest, id: Text) {
    exists i :: 0 <= i < |m.repositories| && m.repositories[i].metadata.id == id
  }

  /** A recorded payload has a safe path, size, mode and digests, hides no secret
      file, and belongs to a recorded repository if it is Git's. */
  predicate SafePayload(c: Codec, m: Manifest, p: Payload) {
    && c.clean(p.path).Some? && p.path != Ascii("manifest.json") && p.size <= MAX_PAYLOAD_BYTES && p.mode < 4096
    && LowerHex(p.sha256) && SafeParts(p)
    && match p.role
       case CanonicalSession => true
       case NativeArtifact(relative) =>
         !c.secretPath(relative) && c.clean(relative).Some? && p.path == Ascii("native/") + c.clean(relative).value
       case GitBundle(id) => OwnedBy(m, id)
       case GitStagedPatch(id) => OwnedBy(m, id)
       case GitUnstagedPatch(id) => OwnedBy(m, id)
       case GitUntrackedTar(id) => OwnedBy(m, id)
  }

  /** A repository's id is one plain path component; its origin holds no
      credentials. */
  predicate SafeRepository(c: Codec, r: Repository) {
    var id := r.metadata.id;
    && id != [] && id != Ascii(".") && id != Ascii("..") && 47 !in id
    && c.clean(r.metadata.destination).Some? && !c.credentials(r.metadata.origin)
  }

  lemma RepositoryIsSafe(c: Codec, m: Manifest, k: nat)
    requires ManifestOk(c, m) && k < |m.repositories|
    ensures SafeRepository(c, m.repositories[k])
  {
    hide HasPayload, Names, Distinct, SetOf, Ids, PayloadOk;
    assert RepositoryOk(c, m.repositories[k], m.payloads);
    assert Ascii(".") == [46] && Ascii("..") == [46, 46];
  }

  /** The entry is a regular file with a safe name. */
  predicate SafeEntry(c: Codec, e: Entry) {
    !e.directory && c.clean(e.name).Some? && e.size <= MAX_PAYLOAD_BYTES
  }

  /** The body is a valid archive or session where it has to be one. */
  predicate SafeBody(c: Codec, zip: Zip, p: Payload) {
    && (p.role.GitUntrackedTar? ==> c.validTar(BodyOf(c, zip, p)))
    && (p.role == CanonicalSession ==>
          var session := c.decodeSession(BodyOf(c, zip, p));
          session.Some? && c.validSession(session.value))
  }

  /** The entry has the recorded mode; none recorded in the container means 0600. */
  predicate HasMode(e: Entry, mode: nat) {
    match e.mode
    case Some(bits) => bits % 4096 == mode
    case None => mode == 384
  }

  lemma OwnerListed(m: Manifest, id: Text)
    requires id in SetOf(Ids(m.repositories))
    ensures OwnedBy(m, id)
  {
    IdListed(m.repositories, id);
  }

  lemma {:induction false} IdListed(repositories: seq<Repository>, id: Text)
    requires id in Ids(repositories)
    ensures exists i :: 0 <= i < |repositories| && repositories[i].metadata.id == id
  {
    var n := |repositories| - 1;
    if repositories[n].metadata.id != id {
      IdListed(repositories[..n], id);
      var i :| 0 <= i < n && repositories[..n][i].metadata.id == id;
      assert repositories[i].metadata.id == id;
    }
  }

  lemma PartWording()
    ensures Ascii(".helpart.") == PartSuffix() && Ascii("manifest.json") == ManifestPath()
  {
  }

  lemma PayloadIsSafe(c: Codec, m: Manifest, k: nat)
    requires ManifestOk(c, m) && k < |m.payloads|
    ensures SafePayload(c, m, m.payloads[k])
  {
    hide Ascii, PartSuffix, ManifestPath, Names, Distinct, CanonicalCount, HasPayload, SetOf, Ids, ExpectedSchema,
      ArchiveFormatName, RepositoryOk, OwnedBy, Padded, SumSizes, IsHash;
    var p := m.payloads[k];
    PartWording();
    DirectoryWording();
    assert PayloadOk(c, p) && OwnerKnown(p, SetOf(Ids(m.repositories)));
    forall t
      ensures IsHash(t) <==> LowerHex(t)
    {
      HashIsHex(t);
    }
    if OwnerOf(p.role).Some? {
      OwnerListed(m, OwnerOf(p.role).value);
    }
    forall i | 0 <= i < |p.parts|
      ensures p.parts[i].path == p.path + Ascii(".helpart.") + Padded(i, 5) && p.parts[i].size > 0 && LowerHex(p.parts[i].sha256)
    {
      assert PartOk(c, p, i);
    }
  }

  lemma HashIsHex(t: Text)
    ensures IsHash(t) <==> LowerHex(t)
  {
  }

  lemma EntryHasMode(c: Codec, zip: Zip, m: Manifest, i: nat, j: nat)
    requires Distinct(EntryNames(c, zip)) && EntriesOk(c, zip, m) && i < |zip| && j < |Leaves(m.payloads)|
    requires NameOf(c, zip[i]) == Leaves(m.payloads)[j].name
    ensures HasMode(zip[i], Leaves(m.payloads)[j].payload.mode)
  {
    hide Distinct, Leaves, ManifestPath, Lookup, NameOf;
    LookupAt(c, zip, i);
    assert Verified(c, zip, Leaves(m.payloads)[j]);
  }

  /** What a caller can rely on in an accepted container. */
  lemma AcceptedIsSafe(c: Codec, zip: Zip, retention: Retention)
    requires Acceptable(c, zip, retention)
    ensures var m := ManifestOf(c, zip).value;
            && (forall i :: 0 <= i < |zip| ==> SafeEntry(c, zip[i]))
            && (forall k :: 0 <= k < |m.repositories| ==> SafeRepository(c, m.repositories[k]))
            && (forall k :: 0 <= k < |m.payloads| ==> SafePayload(c, m, m.payloads[k]) && SafeBody(c, zip, m.payloads[k]))
            && (forall i, j :: 0 <= i < |zip| && 0 <= j < |Leaves(m.payloads)| && NameOf(c, zip[i]) == Leaves(m.payloads)[j].name ==>
                  HasMode(zip[i], Leaves(m.payloads)[j].payload.mode))
  {
    hide Leaves, ManifestPath, ManifestOk, Distinct, BodyOf, EntryNames, ManifestOf, EntriesOk, SafePayload, NameOf, HasMode, TotalSize,
      SafeRepository;
    var m := ManifestOf(c, zip).value;
    ManifestOfOk(c, zip);
    forall i | 0 <= i < |zip|
      ensures SafeEntry(c, zip[i])
    {
      assert EntryOk(c, zip[i]);
    }
    forall k | 0 <= k < |m.repositories|
      ensures SafeRepository(c, m.repositories[k])
    {
      RepositoryIsSafe(c, m, k);
    }
    forall k | 0 <= k < |m.payloads|
      ensures SafePayload(c, m, m.payloads[k]) && SafeBody(c, zip, m.payloads[k])
    {
      PayloadIsSafe(c, m, k);
      assert BodyOk(c, zip, m.payloads[k], retention);
    }
    forall i, j | 0 <= i < |zip| && 0 <= j < |Leaves(m.payloads)| && NameOf(c, zip[i]) == Leaves(m.payloads)[j].name
      ensures HasMode(zip[i], Leaves(m.payloads)[j].payload.mode)
    {
      EntryHasMode(c, zip, m, i, j);
    }
  }

  /** The entries are exactly the manifest and what it promises, once each, and
      every payload the caller keeps has its recorded size and digest. */
  lemma ReaderSound(c: Codec, zip: Zip, retention: Retention)
    requires Acceptable(c, zip, retention)
    ensures var m := ManifestOf(c, zip).value;
            var promised := [ManifestPath()] + LeafNames(Leaves(m.payloads));
            && Distinct(EntryNames(c, zip)) && Distinct(promised)
            && SetOf(EntryNames(c, zip)) == SetOf(promised) && |zip| == |promised|
    ensures var m := ManifestOf(c, zip).value;
            forall k :: 0 <= k < |m.payloads| && RetainsPayload(retention, m.payloads[k].role) ==>
              |BodyOf(c, zip, m.payloads[k])| == m.payloads[k].size &&
              c.digest(BodyOf(c, zip, m.payloads[k])) == m.payloads[k].sha256
  {
    hide Leaves, ManifestPath, ManifestOk, Distinct, BodyOf, Verified, EntryNames, ManifestOf, LeafNames;
    var m := ManifestOf(c, zip).value;
    ManifestOfOk(c, zip);
    ManifestFacts(c, m);
    PromisedSet(c, zip, m);
    forall k | 0 <= k < |m.payloads| && RetainsPayload(retention, m.payloads[k].role)
      ensures |BodyOf(c, zip, m.payloads[k])| == m.payloads[k].size
      ensures c.digest(BodyOf(c, zip, m.payloads[k])) == m.payloads[k].sha256
    {
      assert BodyOk(c, zip, m.payloads[k], retention);
      BodySound(c, zip, m, k, retention);
    }
  }

  lemma PromisedSet(c: Codec, zip: Zip, m: Manifest)
    requires ScanOk(c, zip) && EntriesOk(c, zip, m)
    requires Distinct(LeafNames(Leaves(m.payloads))) && ManifestPath() !in SetOf(LeafNames(Leaves(m.payloads)))
    ensures var promised := [ManifestPath()] + LeafNames(Leaves(m.payloads));
            && Distinct(promised) && SetOf(EntryNames(c, zip)) == SetOf(promised) && |zip| == |promised|
  {
    hide Leaves, ManifestPath, Distinct, Verified, NameOf, EntryOk, TotalSize;
    var names := LeafNames(Leaves(m.payloads));
    SetOfMember(names, ManifestPath());
    OneDistinct(ManifestPath());
    DistinctConcat([ManifestPath()], names);
    assert SetOf([ManifestPath()] + names) == {ManifestPath()} + SetOf(names);
    DistinctSize(EntryNames(c, zip));
    DistinctSize([ManifestPath()] + names);
  }

  lemma BodySound(c: Codec, zip: Zip, m: Manifest, k: nat, retention: Retention)
    requires ManifestOk(c, m) && EntriesOk(c, zip, m) && k < |m.payloads|
    requires BodyOk(c, zip, m.payloads[k], retention) && RetainsPayload(retention, m.payloads[k].role)
    ensures |BodyOf(c, zip, m.payloads[k])| == m.payloads[k].size
    ensures c.digest(BodyOf(c, zip, m.payloads[k])) == m.payloads[k].sha256
  {
    hide Leaves, ManifestPath, ManifestOk, SetOf, EntryNames, LeafNames, Lookup, SumSizes;
    var p := m.payloads[k];
    if p.parts == [] {
      var leaf := LeavesOf(p)[0];
      LeavesHave(m.payloads, k, leaf);
      assert Verified(c, zip, leaf);
    } else {
      forall j | 0 <= j < |p.parts|
        ensures |DataOf(c, zip, p.parts[j].path)| == p.parts[j].size
      {
        assert PartLeaf(p, j) == LeavesOf(p)[j];
        LeavesHave(m.payloads, k, PartLeaf(p, j));
        assert Verified(c, zip, PartLeaf(p, j));
      }
      JoinedSize(c, zip, p.parts);
      ManifestFacts(c, m);
    }
  }

  /** Retaining less asks less: an archive accepted in full is accepted in the
      other ways, with the same manifest, session and bundles. */
  lemma RetainingLess(c: Codec, zip: Zip, retention: Retention)
    requires Acceptable(c, zip, All)
    ensures Acceptable(c, zip, retention)
    ensures var m := ManifestOf(c, zip).value;
            var full, less := KeptBodies(c, zip, m.payloads, All), KeptBodies(c, zip, m.payloads, retention);
            && (forall x :: x in less ==> x in full && less[x] == full[x])
            && (forall k :: 0 <= k < |m.payloads| && retention == CanonicalAndGitBundles && m.payloads[k].role.GitBundle? ==>
                  m.payloads[k].path in less)
  {
    hide ScanOk, ManifestOf, EntriesOk, BodyOf, KeptBodies, ManifestOk, Distinct;
    var m := ManifestOf(c, zip).value;
    forall k | 0 <= k < |m.payloads|
      ensures BodyOk(c, zip, m.payloads[k], retention)
    {
      assert BodyOk(c, zip, m.payloads[k], All);
    }
    ManifestOfOk(c, zip);
    OkImpliesDistinct(c, m);
    KeptAt(c, zip, m.payloads, All);
    KeptAt(c, zip, m.payloads, retention);
    var full, less := KeptBodies(c, zip, m.payloads, All), KeptBodies(c, zip, m.payloads, retention);
    forall x | x in less
      ensures x in full && less[x] == full[x]
    {
      var k :| 0 <= k < |m.payloads| && Paths(m.payloads)[k] == x;
      assert m.payloads[k].path == x;
    }
  }

  /** And it asks less by exactly one thing: the digest over all parts of the
      payloads that are not put together. */
  lemma RetainingLessExactly(c: Codec, zip: Zip, retention: Retention)
    ensures Acceptable(c, zip, All) <==>
            Acceptable(c, zip, retention) &&
            forall k :: 0 <= k < |ManifestOf(c, zip).value.payloads| ==>
              var p := ManifestOf(c, zip).value.payloads[k];
              p.parts != [] && !RetainsParts(retention, p.role) ==> c.digest(BodyOf(c, zip, p)) == p.sha256
  {
    hide ScanOk, ManifestOf, EntriesOk, BodyOf;
    if ManifestOf(c, zip).Some? {
      var payloads := ManifestOf(c, zip).value.payloads;
      forall k | 0 <= k < |payloads|
        ensures BodyOk(c, zip, payloads[k], All) <==>
                BodyOk(c, zip, payloads[k], retention) &&
                (payloads[k].parts != [] && !RetainsParts(retention, payloads[k].role) ==>
                  c.digest(BodyOf(c, zip, payloads[k])) == payloads[k].sha256)
      {
      }
    }
  }

  // ----- An archive the smaller modes take -----

  function WithDigest(payloads: seq<Payload>, k: nat, digest: Text): seq<Payload>
    requires k < |payloads|
  {
    payloads[k := payloads[k].(sha256 := digest)]
  }

  lemma {:induction false} SameNames(payloads: seq<Payload>, k: nat, digest: Text)
    requires k < |payloads|
    ensures Names(WithDigest(payloads, k, digest)) == Names(payloads)
    ensures CanonicalCount(WithDigest(payloads, k, digest)) == CanonicalCount(payloads)
    decreases |payloads|
  {
    hide PartNames;
    var n := |payloads| - 1;
    var changed := WithDigest(payloads, k, digest);
    if k == n {
      assert changed[..n] == payloads[..n];
    } else {
      SameNames(payloads[..n], k, digest);
      assert changed[..n] == WithDigest(payloads[..n], k, digest);
    }
  }

  lemma SamePayloadFacts(c: Codec, payloads: seq<Payload>, k: nat, digest: Text)
    requires k < |payloads| && IsHash(digest) && (forall i :: 0 <= i < |payloads| ==> PayloadOk(c, payloads[i]))
    ensures forall i :: 0 <= i < |payloads| ==> PayloadOk(c, WithDigest(payloads, k, digest)[i])
  {
    hide ManifestPath, SumSizes, PartPath, IsHash;
    var p := payloads[k];
    var q := p.(sha256 := digest);
    assert PayloadOk(c, p);
    assert forall i :: 0 <= i < |p.parts| && PartOk(c, p, i) ==> PartOk(c, q, i);
    assert PayloadOk(c, q);
  }

  lemma SameHas(payloads: seq<Payload>, k: nat, digest: Text, path: Text, role: Role)
    requires k < |payloads| && HasPayload(payloads, path, role)
    ensures HasPayload(WithDigest(payloads, k, digest), path, role)
  {
    var i :| 0 <= i < |payloads| && payloads[i].path == path && payloads[i].role == role;
    var q := WithDigest(payloads, k, digest);
    assert q[i].path == path && q[i].role == role;
  }

  lemma SameSchema(payloads: seq<Payload>, k: nat, digest: Text)
    requires k < |payloads|
    ensures ExpectedSchema(WithDigest(payloads, k, digest)) == ExpectedSchema(payloads)
  {
    var q := WithDigest(payloads, k, digest);
    assert forall i :: 0 <= i < |payloads| ==> q[i].parts == payloads[i].parts;
  }

  /** The manifest check does not look at what a payload's digest is. */
  lemma AnyDigestOk(c: Codec, m: Manifest, k: nat, digest: Text)
    requires ManifestOk(c, m) && k < |m.payloads| && IsHash(digest)
    ensures ManifestOk(c, m.(payloads := WithDigest(m.payloads, k, digest)))
  {
    hide PayloadOk, HasPayload, ExpectedSchema, Names, CanonicalCount, Distinct, SessionPath, ArchiveFormatName, IsHash;
    var changed := WithDigest(m.payloads, k, digest);
    SameNames(m.payloads, k, digest);
    SamePayloadFacts(c, m.payloads, k, digest);
    SameHas(m.payloads, k, digest, SessionPath(), CanonicalSession);
    SameSchema(m.payloads, k, digest);
    forall i | 0 <= i < |m.repositories|
      ensures RepositoryOk(c, m.repositories[i], changed)
    {
      var r := m.repositories[i];
      assert RepositoryOk(c, r, m.payloads);
      SameHas(m.payloads, k, digest, r.bundle, GitBundle(r.metadata.id));
      SameHas(m.payloads, k, digest, r.staged, GitStagedPatch(r.metadata.id));
      SameHas(m.payloads, k, digest, r.unstaged, GitUnstagedPatch(r.metadata.id));
      SameHas(m.payloads, k, digest, r.untracked, GitUntrackedTar(r.metadata.id));
    }
    forall i | 0 <= i < |changed|
      ensures OwnerKnown(changed[i], SetOf(Ids(m.repositories)))
    {
      assert OwnerKnown(m.payloads[i], SetOf(Ids(m.repositories)));
    }
  }

  /** The difference is real: record a wrong digest for a payload in parts that a
      smaller mode does not put together, and that mode takes the archive while a
      full reading refuses it. */
  lemma WrongDigestSlips(c: Codec, input: Input, partBytes: nat, k: nat, digest: Text, retention: Retention)
      returns (m: Manifest, pending: seq<Pending>)
    requires Lawful(c) && Preparable(c, input, partBytes) && k < |PlannedPending(c, input, partBytes)| && IsHash(digest)
    requires var pd := PlannedPending(c, input, partBytes)[k];
             pd.payload.parts != [] && !RetainsParts(retention, pd.payload.role) && digest != c.digest(pd.data)
    ensures m == PlannedManifest(c, input, partBytes).(payloads := WithDigest(PlannedManifest(c, input, partBytes).payloads, k, digest))
    ensures |c.encodeManifest(m)| <= MAX_MANIFEST_BYTES && TotalSize(ZipOf(c, m, pending)) <= MAX_ARCHIVE_BYTES ==>
            Acceptable(c, ZipOf(c, m, pending), retention) && !Acceptable(c, ZipOf(c, m, pending), All)
  {
    hide Lawful, ManifestOk, HeadOk, NativeOk, SnapshottedOk, ZipOf, Acceptable, Drafts, PlanParts, TotalSize, ManifestFor, IsHash;
    var planned := PlannedPending(c, input, partBytes);
    var base := PlannedManifest(c, input, partBytes);
    ManifestPayloads(input, Payloads(planned));
    PlannedGood(c, input, partBytes);
    PlannedDigests(c, input, partBytes, All);
    SessionValid(c, input);
    pending := planned[k := planned[k].(payload := planned[k].payload.(sha256 := digest))];
    m := base.(payloads := WithDigest(base.payloads, k, digest));
    AnyDigestOk(c, base, k, digest);
    assert m.payloads == Payloads(pending);
    if |c.encodeManifest(m)| <= MAX_MANIFEST_BYTES && TotalSize(ZipOf(c, m, pending)) <= MAX_ARCHIVE_BYTES {
      assert forall i :: 0 <= i < |pending| ==> GoodPending(c, pending[i], input.session, partBytes);
      assert Written(c, m, pending, input.session, partBytes);
      WrittenAcceptableIff(c, m, pending, input.session, partBytes, retention);
      WrittenAcceptableIff(c, m, pending, input.session, partBytes, All);
      assert !DigestOk(c, pending[k], All);
      assert forall i :: 0 <= i < |planned| ==> DigestOk(c, planned[i], All);
    }
  }
}
