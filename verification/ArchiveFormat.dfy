// The checkpoint archive: its manifest, the entries the manifest promises, and
// the check every manifest passes before it is written or read
// (src/hel_archive.rs).

module ArchiveFormat {
  import opened Text

  const MAX_MANIFEST_BYTES: nat := 8 * 1024 * 1024
  const MAX_PAYLOAD_BYTES: nat := 8 * 1024 * 1024 * 1024
  const MAX_ARCHIVE_BYTES: nat := 32 * 1024 * 1024 * 1024
  const U64_MAX: nat := 0xFFFF_FFFF_FFFF_FFFF

  const SCHEMA: nat := 2
  const SCHEMA_SHARDED: nat := 3

  /** "hel-session" */
  function ArchiveFormatName(): Text {
    [104, 101, 108, 45, 115, 101, 115, 115, 105, 111, 110]
  }

  /** "manifest.json" */
  function ManifestPath(): Text {
    [109, 97, 110, 105, 102, 101, 115, 116, 46, 106, 115, 111, 110]
  }

  /** "canonical/session.json" */
  function SessionPath(): Text {
    [99, 97, 110, 111, 110, 105, 99, 97, 108, 47, 115, 101, 115, 115, 105, 111, 110, 46, 106, 115, 111, 110]
  }

  /** ".helpart." */
  function PartSuffix(): Text {
    [46, 104, 101, 108, 112, 97, 114, 116, 46]
  }

  // ----- Data -----

  datatype Role =
    | CanonicalSession
    | NativeArtifact(relativePath: Text)
    | GitBundle(repository: Text)
    | GitStagedPatch(repository: Text)
    | GitUnstagedPatch(repository: Text)
    | GitUntrackedTar(repository: Text)

  datatype Part = Part(path: Text, sha256: Text, size: nat)
  datatype Payload = Payload(path: Text, sha256: Text, size: nat, mode: nat, role: Role, parts: seq<Part>)

  datatype Metadata = Metadata(id: Text, destination: Text, origin: Text, provenance: Text)
  datatype Repository = Repository(metadata: Metadata, bundle: Text, staged: Text, unstaged: Text, untracked: Text)

  /** The session, target and bundle records; `details` are the keys of the
      target's provenance. */
  datatype Header = Header(sessionId: Text, session: Text, target: Text, details: seq<Text>, bundleId: Text, bundle: Text)

  datatype Manifest = Manifest(schema: nat, format: Text, header: Header, repositories: seq<Repository>, payloads: seq<Payload>)

  /** The canonical session snapshot. */
  datatype Snapshot = Snapshot(json: Text)

  /** Digests, encodings and checks that come from elsewhere. `clean` is the
      slash form of a path made of normal components only, if it is one. */
  datatype Codec = Codec(
    digest: Text -> Text,
    encodeManifest: Manifest -> Text,
    decodeManifest: Text -> Option<Manifest>,
    encodeSession: Snapshot -> Text,
    decodeSession: Text -> Option<Snapshot>,
    validSession: Snapshot -> bool,
    validTar: Text -> bool,
    clean: Text -> Option<Text>,
    secretPath: Text -> bool,
    secretKey: Text -> bool,
    credentials: Text -> bool,
    blank: Text -> bool)

  predicate IsHash(t: Text) {
    |t| == 64 && forall i :: 0 <= i < |t| ==> 48 <= t[i] <= 57 || 97 <= t[i] <= 102
  }

  predicate PlainByte(b: byte) {
    65 <= b <= 90 || 97 <= b <= 122 || 48 <= b <= 57 || b == 45 || b == 95 || b == 46
  }

  predicate Plain(t: Text) {
    forall i :: 0 <= i < |t| ==> PlainByte(t[i])
  }

  predicate ValidComponent(t: Text) {
    t != [] && t != [46] && t != [46, 46] && Plain(t)
  }

  /** What is relied on: encodings decode to what they encode, digests are
      hexadecimal, and paths keep their form when they are extended. */
  ghost predicate Lawful(c: Codec) {
    && (forall m :: c.decodeManifest(c.encodeManifest(m)) == Some(m))
    && (forall s :: c.decodeSession(c.encodeSession(s)) == Some(s))
    && (forall t :: IsHash(c.digest(t)))
    && (forall p :: c.clean(p).Some? ==> IsClean(c, c.clean(p).value))
    && (forall t :: ValidComponent(t) ==> IsClean(c, t))
    && (forall p, t {:trigger IsClean(c, p + t)} :: IsClean(c, p) && Plain(t) ==> IsClean(c, p + t))
    && (forall p, q {:trigger IsClean(c, p + [47] + q)} :: IsClean(c, p) && IsClean(c, q) ==> IsClean(c, p + [47] + q))
  }

  predicate IsClean(c: Codec, p: Text) {
    c.clean(p) == Some(p)
  }

  // ----- Names -----

  predicate Distinct(s: seq<Text>) {
    forall i, j :: 0 <= i < j < |s| ==> s[i] != s[j]
  }

  function SetOf(s: seq<Text>): set<Text> {
    set x | x in s
  }

  lemma DistinctSnoc(s: seq<Text>, x: Text)
    ensures Distinct(s + [x]) <==> Distinct(s) && x !in s
    ensures SetOf(s + [x]) == SetOf(s) + {x}
  {
    var t := s + [x];
    assert forall i :: 0 <= i < |s| ==> t[i] == s[i];
    if Distinct(t) {
      assert forall i :: 0 <= i < |s| ==> t[i] != t[|s|];
    }
  }

  lemma DistinctPrefix(s: seq<Text>, t: seq<Text>)
    requires s <= t && Distinct(t)
    ensures Distinct(s)
  {
    assert forall i :: 0 <= i < |s| ==> s[i] == t[i];
  }

  function PartNames(parts: seq<Part>): seq<Text> {
    if parts == [] then [] else PartNames(parts[..|parts|-1]) + [parts[|parts|-1].path]
  }

  /** Every name a manifest claims, in order: payloads and their parts. */
  function Names(payloads: seq<Payload>): seq<Text> {
    if payloads == [] then []
    else
      var last := payloads[|payloads|-1];
      Names(payloads[..|payloads|-1]) + [last.path] + PartNames(last.parts)
  }

  lemma {:induction false} PartNamesPrefix(parts: seq<Part>, k: nat)
    requires k <= |parts|
    ensures PartNames(parts[..k]) <= PartNames(parts)
    decreases |parts|
  {
    if k < |parts| {
      assert parts[..|parts|-1][..k] == parts[..k];
      PartNamesPrefix(parts[..|parts|-1], k);
    } else {
      assert parts[..k] == parts;
    }
  }

  lemma {:induction false} NamesPrefix(payloads: seq<Payload>, k: nat)
    requires k <= |payloads|
    ensures Names(payloads[..k]) <= Names(payloads)
    decreases |payloads|
  {
    if k < |payloads| {
      assert payloads[..|payloads|-1][..k] == payloads[..k];
      NamesPrefix(payloads[..|payloads|-1], k);
    } else {
      assert payloads[..k] == payloads;
    }
  }

  /** The next names: the payload's path, then some of its parts. */
  lemma NamesStep(payloads: seq<Payload>, k: nat, j: nat)
    requires k < |payloads| && j <= |payloads[k].parts|
    ensures Names(payloads[..k]) + [payloads[k].path] + PartNames(payloads[k].parts[..j]) <= Names(payloads)
    ensures Names(payloads[..k+1]) == Names(payloads[..k]) + [payloads[k].path] + PartNames(payloads[k].parts)
  {
    hide PartNames;
    assert payloads[..k+1][..k] == payloads[..k];
    NamesPrefix(payloads, k + 1);
    PartNamesPrefix(payloads[k].parts, j);
  }

  function PartPath(path: Text, index: nat): Text {
    path + PartSuffix() + Padded(index, 5)
  }

  function SumSizes(parts: seq<Part>): nat {
    if parts == [] then 0 else SumSizes(parts[..|parts|-1]) + parts[|parts|-1].size
  }

  lemma {:induction false} SumSizesPrefix(parts: seq<Part>, k: nat)
    requires k <= |parts|
    ensures SumSizes(parts[..k]) <= SumSizes(parts)
    decreases |parts|
  {
    if k < |parts| {
      assert parts[..|parts|-1][..k] == parts[..k];
      SumSizesPrefix(parts[..|parts|-1], k);
    } else {
      assert parts[..k] == parts;
    }
  }

  // ----- What a manifest must be -----

  predicate PartOk(c: Codec, p: Payload, i: nat)
    requires i < |p.parts|
  {
    var part := p.parts[i];
    c.clean(part.path).Some? && part.path == PartPath(p.path, i) && part.size > 0 && IsHash(part.sha256)
  }

  /** The parts can be put together again, exactly. */
  predicate PartsOk(c: Codec, p: Payload) {
    p.parts == [] ||
    (|p.parts| > 1 && (forall i :: 0 <= i < |p.parts| ==> PartOk(c, p, i)) && SumSizes(p.parts) == p.size)
  }

  /** "native" */
  const NATIVE: Text := [110, 97, 116, 105, 118, 101]

  function NativePath(relative: Text): Text {
    NATIVE + [47] + relative
  }

  predicate RoleOk(c: Codec, p: Payload) {
    match p.role
    case NativeArtifact(relative) =>
      c.clean(relative).Some? && !c.secretPath(relative) && p.path == NativePath(c.clean(relative).value)
    case _ => true
  }

  predicate FactsOk(c: Codec, p: Payload) {
    c.clean(p.path).Some? && p.path != ManifestPath() && p.size <= MAX_PAYLOAD_BYTES && p.mode < 4096 && IsHash(p.sha256)
  }

  predicate PayloadOk(c: Codec, p: Payload) {
    FactsOk(c, p) && PartsOk(c, p) && RoleOk(c, p)
  }

  function ExpectedSchema(payloads: seq<Payload>): nat {
    if exists i | 0 <= i < |payloads| :: payloads[i].parts != [] then SCHEMA_SHARDED else SCHEMA
  }

  function CanonicalCount(payloads: seq<Payload>): nat {
    if payloads == [] then 0
    else CanonicalCount(payloads[..|payloads|-1]) + if payloads[|payloads|-1].role == CanonicalSession then 1 else 0
  }

  predicate HasPayload(payloads: seq<Payload>, path: Text, role: Role) {
    exists k | 0 <= k < |payloads| :: payloads[k].path == path && payloads[k].role == role
  }

  predicate RepositoryOk(c: Codec, r: Repository, payloads: seq<Payload>) {
    var id := r.metadata.id;
    && ValidComponent(id) && c.clean(r.metadata.destination).Some? && !c.credentials(r.metadata.origin)
    && HasPayload(payloads, r.bundle, GitBundle(id)) && HasPayload(payloads, r.staged, GitStagedPatch(id))
    && HasPayload(payloads, r.unstaged, GitUnstagedPatch(id)) && HasPayload(payloads, r.untracked, GitUntrackedTar(id))
  }

  function Ids(repositories: seq<Repository>): seq<Text> {
    if repositories == [] then [] else Ids(repositories[..|repositories|-1]) + [repositories[|repositories|-1].metadata.id]
  }

  function OwnerOf(role: Role): Option<Text> {
    match role
    case CanonicalSession => None
    case NativeArtifact(_) => None
    case GitBundle(r) => Some(r)
    case GitStagedPatch(r) => Some(r)
    case GitUnstagedPatch(r) => Some(r)
    case GitUntrackedTar(r) => Some(r)
  }

  predicate OwnerKnown(p: Payload, ids: set<Text>) {
    OwnerOf(p.role).Some? ==> OwnerOf(p.role).value in ids
  }

  predicate HeaderOk(c: Codec, m: Manifest) {
    && m.schema == ExpectedSchema(m.payloads) && m.format == ArchiveFormatName() && !c.blank(m.header.sessionId)
    && forall i :: 0 <= i < |m.header.details| ==> !c.secretKey(m.header.details[i])
  }

  predicate PayloadsOk(c: Codec, payloads: seq<Payload>) {
    && (forall i :: 0 <= i < |payloads| ==> PayloadOk(c, payloads[i]))
    && Distinct(Names(payloads))
    && CanonicalCount(payloads) == 1 && HasPayload(payloads, SessionPath(), CanonicalSession)
  }

  predicate RepositoriesOk(c: Codec, m: Manifest) {
    && (forall i :: 0 <= i < |m.repositories| ==> RepositoryOk(c, m.repositories[i], m.payloads))
    && Distinct(Ids(m.repositories))
    && forall i :: 0 <= i < |m.payloads| ==> OwnerKnown(m.payloads[i], SetOf(Ids(m.repositories)))
  }

  predicate ManifestOk(c: Codec, m: Manifest) {
    HeaderOk(c, m) && PayloadsOk(c, m.payloads) && RepositoriesOk(c, m)
  }

  // ----- The check itself -----

  method ValidateParts(c: Codec, p: Payload, paths: set<Text>, ghost names: seq<Text>) returns (ok: bool, seen: set<Text>)
    requires p.size <= MAX_PAYLOAD_BYTES && Distinct(names) && paths == SetOf(names)
    ensures ok == (PartsOk(c, p) && Distinct(names + PartNames(p.parts)))
    ensures ok ==> seen == SetOf(names + PartNames(p.parts))
  {
    hide PartOk, Distinct, SetOf;
    seen := paths;
    if p.parts == [] {
      assert names + PartNames(p.parts) == names;
      return true, seen;
    }
    if |p.parts| <= 1 {
      return false, seen;
    }
    var covered := 0;
    assert names + PartNames(p.parts[..0]) == names;
    for i := 0 to |p.parts|
      invariant forall k :: 0 <= k < i ==> PartOk(c, p, k)
      invariant covered == SumSizes(p.parts[..i])
      invariant Distinct(names + PartNames(p.parts[..i])) && seen == SetOf(names + PartNames(p.parts[..i]))
    {
      var part := p.parts[i];
      assert p.parts[..i+1][..i] == p.parts[..i];
      SumSizesPrefix(p.parts, i + 1);
      PartNamesPrefix(p.parts, i + 1);
      ghost var claimed := names + PartNames(p.parts[..i]);
      assert names + PartNames(p.parts[..i+1]) == claimed + [part.path];
      DistinctSnoc(claimed, part.path);
      SetOfMember(claimed, part.path);
      if !PartOk(c, p, i) {
        return false, seen;
      }
      if part.path in seen {
        ghost var all := names + PartNames(p.parts);
        assert claimed + [part.path] <= all;
        if Distinct(all) {
          DistinctPrefix(claimed + [part.path], all);
        }
        return false, seen;
      }
      seen := seen + {part.path};
      if covered + part.size > U64_MAX {
        return false, seen;
      }
      covered := covered + part.size;
    }
    assert p.parts[..|p.parts|] == p.parts;
    ok := covered == p.size;
  }

  lemma SetOfMember(s: seq<Text>, x: Text)
    ensures x in SetOf(s) <==> x in s
  {
  }

  method ValidatePayloads(c: Codec, payloads: seq<Payload>) returns (ok: bool)
    ensures ok == PayloadsOk(c, payloads)
  {
    hide PartsOk, FactsOk, RoleOk, Distinct, SetOf, HasPayload, Names, CanonicalCount, PartNames;
    var paths: set<Text> := {};
    var canonical := 0;
    EmptyNames();
    assert payloads[..0] == [];
    for k := 0 to |payloads|
      invariant forall i :: 0 <= i < k ==> PayloadOk(c, payloads[i])
      invariant Distinct(Names(payloads[..k])) && paths == SetOf(Names(payloads[..k]))
      invariant canonical == CanonicalCount(payloads[..k])
    {
      var p := payloads[k];
      ghost var claimed := Names(payloads[..k]);
      PayloadStep(payloads, k);
      CountStep(payloads, k);
      DistinctSnoc(claimed, p.path);
      SetOfMember(claimed, p.path);
      if !FactsOk(c, p) || p.path in paths {
        return false;
      }
      SizeOk(c, p);
      paths := paths + {p.path};
      ok, paths := ValidateParts(c, p, paths, claimed + [p.path]);
      if !ok || !RoleOk(c, p) {
        return false;
      }
      canonical := canonical + if p.role == CanonicalSession then 1 else 0;
    }
    assert payloads[..|payloads|] == payloads;
    ok := canonical == 1 && HasPayload(payloads, SessionPath(), CanonicalSession);
  }

  /** One more payload: the names so far, and that a clash among them is a
      clash in the whole manifest. */
  lemma PayloadStep(payloads: seq<Payload>, k: nat)
    requires k < |payloads|
    ensures var p := payloads[k];
            var claimed := Names(payloads[..k]);
            && Names(payloads[..k+1]) == claimed + [p.path] + PartNames(p.parts)
            && (Distinct(Names(payloads)) ==> Distinct(claimed + [p.path]) && Distinct(Names(payloads[..k+1])))
  {
    hide Names, Distinct, PartNames;
    var p := payloads[k];
    var claimed, upto := Names(payloads[..k]), Names(payloads[..k+1]);
    NamesStep(payloads, k, |p.parts|);
    NamesPrefix(payloads, k + 1);
    if Distinct(Names(payloads)) {
      DistinctPrefix(upto, Names(payloads));
      FrontDistinct(claimed + [p.path], PartNames(p.parts));
    }
  }

  lemma FrontDistinct(a: seq<Text>, b: seq<Text>)
    requires Distinct(a + b)
    ensures Distinct(a)
  {
    DistinctPrefix(a, a + b);
  }

  lemma CountStep(payloads: seq<Payload>, k: nat)
    requires k < |payloads|
    ensures CanonicalCount(payloads[..k+1]) ==
            CanonicalCount(payloads[..k]) + if payloads[k].role == CanonicalSession then 1 else 0
  {
    assert payloads[..k+1][..k] == payloads[..k];
  }

  lemma SizeOk(c: Codec, p: Payload)
    requires FactsOk(c, p)
    ensures p.size <= MAX_PAYLOAD_BYTES
  {
    hide ManifestPath;
  }

  lemma EmptyNames()
    ensures Distinct(Names([])) && SetOf(Names([])) == {} && Distinct(Ids([])) && SetOf(Ids([])) == {}
    ensures CanonicalCount([]) == 0
  {
  }

  lemma {:induction false} IdsPrefix(rs: seq<Repository>, k: nat)
    requires k <= |rs|
    ensures Ids(rs[..k]) <= Ids(rs)
    decreases |rs|
  {
    if k < |rs| {
      assert rs[..|rs|-1][..k] == rs[..k];
      IdsPrefix(rs[..|rs|-1], k);
    } else {
      assert rs[..k] == rs;
    }
  }

  method ValidateRepositories(c: Codec, m: Manifest) returns (ok: bool)
    ensures ok == RepositoriesOk(c, m)
  {
    hide RepositoryOk, Distinct, SetOf, OwnerKnown;
    var ids: set<Text> := {};
    var rs := m.repositories;
    EmptyNames();
    for k := 0 to |rs|
      invariant forall i :: 0 <= i < k ==> RepositoryOk(c, rs[i], m.payloads)
      invariant Distinct(Ids(rs[..k])) && ids == SetOf(Ids(rs[..k]))
    {
      var id := rs[k].metadata.id;
      assert rs[..k+1][..k] == rs[..k];
      DistinctSnoc(Ids(rs[..k]), id);
      SetOfMember(Ids(rs[..k]), id);
      IdsPrefix(rs, k + 1);
      if Distinct(Ids(rs)) {
        DistinctPrefix(Ids(rs[..k+1]), Ids(rs));
      }
      if id in ids || !RepositoryOk(c, rs[k], m.payloads) {
        return false;
      }
      ids := ids + {id};
    }
    assert rs[..|rs|] == rs;
    for k := 0 to |m.payloads|
      invariant forall i :: 0 <= i < k ==> OwnerKnown(m.payloads[i], ids)
    {
      if !OwnerKnown(m.payloads[k], ids) {
        return false;
      }
    }
    ok := true;
  }

  method ValidateManifest(c: Codec, m: Manifest) returns (ok: bool)
    ensures ok == ManifestOk(c, m)
  {
    hide HeaderOk, PayloadsOk, RepositoriesOk;
    if !HeaderOk(c, m) {
      return false;
    }
    ok := ValidatePayloads(c, m.payloads);
    if ok {
      ok := ValidateRepositories(c, m);
    }
  }
}
