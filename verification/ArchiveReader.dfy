// Reading an archive back: every entry is checked against the manifest, and
// payloads written in parts are put together again (src/hel_archive.rs).

module ArchiveReader {
  import opened Text
  import opened ArchiveFormat

  /** A ZIP entry as the container describes it, and what unpacking it gives. */
  datatype Entry = Entry(name: Text, directory: bool, size: nat, mode: Option<nat>, data: Text)
  type Zip = seq<Entry>

  datatype Retention = All | CanonicalOnly | CanonicalAndGitBundles

  datatype Contents = Contents(manifest: Manifest, session: Snapshot, payloads: map<Text, Text>)

  predicate RetainsPayload(retention: Retention, role: Role) {
    retention == All || role == CanonicalSession || (retention == CanonicalAndGitBundles && role.GitBundle?)
  }

  predicate RetainsParts(retention: Retention, role: Role) {
    RetainsPayload(retention, role) || role.GitUntrackedTar?
  }

  /** The payloads handed to the caller, besides the session. */
  predicate Keeps(retention: Retention, role: Role) {
    retention == All || (retention == CanonicalAndGitBundles && role.GitBundle?)
  }

  // ----- The entries a manifest promises -----

  /** One promised entry: a whole payload or one part of it. */
  datatype Leaf = Leaf(name: Text, size: nat, sha256: Text, whole: bool, payload: Payload)

  function PartLeaf(p: Payload, k: nat): Leaf
    requires k < |p.parts|
  {
    Leaf(p.parts[k].path, p.parts[k].size, p.parts[k].sha256, false, p)
  }

  function LeavesOf(p: Payload): seq<Leaf> {
    if p.parts == [] then [Leaf(p.path, p.size, p.sha256, true, p)]
    else seq(|p.parts|, k requires 0 <= k < |p.parts| => PartLeaf(p, k))
  }

  function Leaves(payloads: seq<Payload>): seq<Leaf> {
    if payloads == [] then [] else Leaves(payloads[..|payloads|-1]) + LeavesOf(payloads[|payloads|-1])
  }

  function LeafNames(leaves: seq<Leaf>): seq<Text> {
    seq(|leaves|, i requires 0 <= i < |leaves| => leaves[i].name)
  }

  lemma DistinctConcat(a: seq<Text>, b: seq<Text>)
    requires Distinct(a) && Distinct(b) && forall x :: x in a ==> x !in b
    ensures Distinct(a + b)
  {
    forall i, j | 0 <= i < j < |a + b|
      ensures (a + b)[i] != (a + b)[j]
    {
      if i < |a| <= j {
        assert a[i] in a && b[j - |a|] in b;
      }
    }
  }

  lemma {:induction false} PartNamesAt(parts: seq<Part>)
    ensures |PartNames(parts)| == |parts|
    ensures forall k :: 0 <= k < |parts| ==> PartNames(parts)[k] == parts[k].path
  {
    if parts != [] {
      PartNamesAt(parts[..|parts|-1]);
    }
  }

  lemma LeafNamesOf(p: Payload)
    ensures LeafNames(LeavesOf(p)) == if p.parts == [] then [p.path] else PartNames(p.parts)
  {
    PartNamesAt(p.parts);
  }

  /** No two promised entries share a name. */
  lemma {:induction false} LeavesDistinct(payloads: seq<Payload>)
    requires Distinct(Names(payloads))
    ensures Distinct(LeafNames(Leaves(payloads)))
    ensures forall x :: x in LeafNames(Leaves(payloads)) ==> x in Names(payloads)
  {
    hide Distinct, LeafNames, LeavesOf, PartNames;
    if payloads == [] {
      NoLeafNames();
    } else {
      var front, last := payloads[..|payloads|-1], payloads[|payloads|-1];
      NamesPrefix(payloads, |payloads| - 1);
      DistinctPrefix(Names(front), Names(payloads));
      LeavesDistinct(front);
      LeafNamesOf(last);
      LeafNamesConcat(Leaves(front), LeavesOf(last));
      LastNamesApart(Names(front), last.path, PartNames(last.parts));
      if last.parts == [] {
        DistinctConcat(LeafNames(Leaves(front)), [last.path]);
      } else {
        DistinctConcat(LeafNames(Leaves(front)), PartNames(last.parts));
      }
    }
  }

  lemma NoLeafNames()
    ensures LeafNames([]) == [] && Distinct(LeafNames([]))
  {
  }

  lemma LeafNamesConcat(a: seq<Leaf>, b: seq<Leaf>)
    ensures LeafNames(a + b) == LeafNames(a) + LeafNames(b)
  {
  }

  lemma LastNamesApart(claimed: seq<Text>, path: Text, parts: seq<Text>)
    requires Distinct(claimed + [path] + parts)
    ensures Distinct([path]) && Distinct(parts)
    ensures forall x :: x in claimed ==> x != path && x !in parts
  {
    var all := claimed + [path] + parts;
    assert forall i :: 0 <= i < |claimed| ==> all[i] == claimed[i];
    assert all[|claimed|] == path;
    assert forall i :: 0 <= i < |parts| ==> all[|claimed| + 1 + i] == parts[i];
  }

  /** None of them is the manifest itself: part names end in a digit. */
  lemma {:induction false} LeavesNotManifest(c: Codec, payloads: seq<Payload>)
    requires forall i :: 0 <= i < |payloads| ==> PayloadOk(c, payloads[i])
    ensures forall i :: 0 <= i < |Leaves(payloads)| ==> Leaves(payloads)[i].name != ManifestPath()
  {
    hide PartPath, ManifestPath, RoleOk;
    if payloads != [] {
      LeavesNotManifest(c, payloads[..|payloads|-1]);
      var last := payloads[|payloads|-1];
      assert PayloadOk(c, last);
      forall k | 0 <= k < |last.parts|
        ensures last.parts[k].path != ManifestPath()
      {
        assert PartOk(c, last, k);
        PartNotManifest(last.path, k);
      }
    }
  }

  lemma PartNotManifest(path: Text, k: nat)
    ensures PartPath(path, k) != ManifestPath()
  {
    hide Padded, PartSuffix;
    var part := PartPath(path, k);
    assert part[|part|-1] == Padded(k, 5)[|Padded(k, 5)|-1];
    assert ManifestPath()[|ManifestPath()|-1] == 110;
  }

  // ----- What an archive must be -----

  function NameOf(c: Codec, e: Entry): Text {
    match c.clean(e.name) case Some(n) => n case None => []
  }

  function EntryNames(c: Codec, zip: Zip): seq<Text> {
    seq(|zip|, i requires 0 <= i < |zip| => NameOf(c, zip[i]))
  }

  predicate EntryOk(c: Codec, e: Entry) {
    !e.directory && c.clean(e.name).Some? && e.size <= MAX_PAYLOAD_BYTES
  }

  function TotalSize(zip: Zip): nat {
    if zip == [] then 0 else TotalSize(zip[..|zip|-1]) + zip[|zip|-1].size
  }

  predicate ScanOk(c: Codec, zip: Zip) {
    && (forall i :: 0 <= i < |zip| ==> EntryOk(c, zip[i]))
    && TotalSize(zip) <= MAX_ARCHIVE_BYTES
    && Distinct(EntryNames(c, zip))
    && ManifestPath() in EntryNames(c, zip)
  }

  /** The entry of that name. */
  function Lookup(c: Codec, zip: Zip, name: Text): Option<Entry> {
    if zip == [] then None
    else if NameOf(c, zip[|zip|-1]) == name then Some(zip[|zip|-1])
    else Lookup(c, zip[..|zip|-1], name)
  }

  function DataOf(c: Codec, zip: Zip, name: Text): Text {
    match Lookup(c, zip, name) case Some(e) => e.data case None => []
  }

  function ModeOf(e: Entry): nat {
    (match e.mode case Some(mode) => mode case None => 384) % 4096
  }

  predicate EntryMatches(c: Codec, e: Entry, leaf: Leaf) {
    && e.size == leaf.size && ModeOf(e) == leaf.payload.mode
    && |e.data| == leaf.size && c.digest(e.data) == leaf.sha256
  }

  predicate Verified(c: Codec, zip: Zip, leaf: Leaf) {
    Lookup(c, zip, leaf.name).Some? && EntryMatches(c, Lookup(c, zip, leaf.name).value, leaf)
  }

  function Joined(c: Codec, zip: Zip, parts: seq<Part>): Text {
    if parts == [] then [] else Joined(c, zip, parts[..|parts|-1]) + DataOf(c, zip, parts[|parts|-1].path)
  }

  /** The bytes of a payload, whole or in parts. */
  function BodyOf(c: Codec, zip: Zip, p: Payload): Text {
    if p.parts == [] then DataOf(c, zip, p.path) else Joined(c, zip, p.parts)
  }

  /** What is asked of the bytes of one payload. Only the digest of a payload
      in parts depends on what the caller wants to keep. */
  predicate BodyOk(c: Codec, zip: Zip, p: Payload, retention: Retention) {
    && (p.parts != [] && RetainsParts(retention, p.role) ==> c.digest(BodyOf(c, zip, p)) == p.sha256)
    && (p.role.GitUntrackedTar? ==> c.validTar(BodyOf(c, zip, p)))
    && (p.role == CanonicalSession ==> SessionOk(c, BodyOf(c, zip, p)))
  }

  predicate SessionOk(c: Codec, body: Text) {
    c.decodeSession(body).Some? && c.validSession(c.decodeSession(body).value)
  }

  /** The manifest of an archive: stored under its exact name, of the declared
      size, decodable and valid. */
  function ManifestOf(c: Codec, zip: Zip): Option<Manifest> {
    match Lookup(c, zip, ManifestPath())
    case None => None
    case Some(e) =>
      if e.name != ManifestPath() || e.size > MAX_MANIFEST_BYTES || |e.data| != e.size then None
      else match c.decodeManifest(e.data)
        case None => None
        case Some(m) => if ManifestOk(c, m) then Some(m) else None
  }

  predicate EntriesOk(c: Codec, zip: Zip, m: Manifest) {
    && SetOf(EntryNames(c, zip)) == {ManifestPath()} + SetOf(LeafNames(Leaves(m.payloads)))
    && forall i :: 0 <= i < |Leaves(m.payloads)| ==> Verified(c, zip, Leaves(m.payloads)[i])
  }

  predicate BodiesOk(c: Codec, zip: Zip, payloads: seq<Payload>, retention: Retention) {
    forall i :: 0 <= i < |payloads| ==> BodyOk(c, zip, payloads[i], retention)
  }

  /** The archives the reader takes. */
  predicate Acceptable(c: Codec, zip: Zip, retention: Retention) {
    && ScanOk(c, zip) && ManifestOf(c, zip).Some?
    && var m := ManifestOf(c, zip).value;
    EntriesOk(c, zip, m) && BodiesOk(c, zip, m.payloads, retention)
  }

  /** The bytes handed out, by payload. */
  function KeptBodies(c: Codec, zip: Zip, payloads: seq<Payload>, retention: Retention): map<Text, Text> {
    if payloads == [] then map[]
    else
      var front, last := payloads[..|payloads|-1], payloads[|payloads|-1];
      var kept := KeptBodies(c, zip, front, retention);
      if Keeps(retention, last.role) then kept[last.path := BodyOf(c, zip, last)] else kept
  }

  function SessionIn(c: Codec, zip: Zip, payloads: seq<Payload>): Option<Snapshot> {
    if payloads == [] then None
    else if payloads[|payloads|-1].role == CanonicalSession
    then c.decodeSession(BodyOf(c, zip, payloads[|payloads|-1]))
    else SessionIn(c, zip, payloads[..|payloads|-1])
  }

  // ----- Finding entries -----

  lemma {:induction false} LookupAt(c: Codec, zip: Zip, i: nat)
    requires i < |zip| && Distinct(EntryNames(c, zip))
    ensures Lookup(c, zip, EntryNames(c, zip)[i]) == Some(zip[i])
  {
    hide NameOf;
    var front := zip[..|zip|-1];
    if i < |zip| - 1 {
      assert EntryNames(c, zip)[i] != EntryNames(c, zip)[|zip|-1];
      assert EntryNames(c, front) <= EntryNames(c, zip);
      DistinctPrefix(EntryNames(c, front), EntryNames(c, zip));
      LookupAt(c, front, i);
    }
  }

  lemma {:induction false} LookupFinds(c: Codec, zip: Zip, name: Text)
    ensures Lookup(c, zip, name).Some? <==> name in EntryNames(c, zip)
    ensures Lookup(c, zip, name).Some? ==> Lookup(c, zip, name).value in zip && NameOf(c, Lookup(c, zip, name).value) == name
  {
    hide NameOf;
    if zip != [] {
      var front := zip[..|zip|-1];
      LookupFinds(c, front, name);
      assert EntryNames(c, zip) == EntryNames(c, front) + [NameOf(c, zip[|zip|-1])];
    }
  }

  lemma {:induction false} DistinctSize(s: seq<Text>)
    requires Distinct(s)
    ensures |SetOf(s)| == |s|
  {
    if s == [] {
      assert SetOf(s) == {};
    } else {
      var front, last := s[..|s|-1], s[|s|-1];
      assert s == front + [last];
      DistinctSnoc(front, last);
      DistinctSize(front);
    }
  }

  lemma {:induction false} SameSize(small: set<Text>, big: set<Text>)
    requires small <= big && |small| == |big|
    ensures small == big
  {
    if small != {} {
      var x :| x in small;
      SameSize(small - {x}, big - {x});
      assert small == {x} + (small - {x}) && big == {x} + (big - {x});
    }
  }

  // ----- Reading -----

  method Scan(c: Codec, zip: Zip) returns (ok: bool)
    ensures ok == ScanOk(c, zip)
  {
    hide EntryOk, Distinct, SetOf, NameOf, ManifestPath;
    var total, manifests := 0, 0;
    var seen: set<Text> := {};
    NoEntryNames(c);
    assert zip[..0] == [];
    for i := 0 to |zip|
      invariant forall k :: 0 <= k < i ==> EntryOk(c, zip[k])
      invariant total == TotalSize(zip[..i]) <= MAX_ARCHIVE_BYTES
      invariant Distinct(EntryNames(c, zip[..i])) && seen == SetOf(EntryNames(c, zip[..i]))
      invariant manifests == if ManifestPath() in EntryNames(c, zip[..i]) then 1 else 0
    {
      var e := zip[i];
      ScanStep(c, zip, i);
      SizeStep(zip, i);
      if !EntryOk(c, e) {
        return false;
      }
      total := total + e.size;
      if total > MAX_ARCHIVE_BYTES {
        return false;
      }
      var name := NameOf(c, e);
      DistinctSnoc(EntryNames(c, zip[..i]), name);
      SetOfMember(EntryNames(c, zip[..i]), name);
      if name in seen {
        return false;
      }
      seen := seen + {name};
      manifests := manifests + if name == ManifestPath() then 1 else 0;
    }
    assert zip[..|zip|] == zip;
    ok := manifests == 1;
  }

  lemma NoEntryNames(c: Codec)
    ensures EntryNames(c, []) == [] && Distinct(EntryNames(c, [])) && SetOf(EntryNames(c, [])) == {}
  {
  }

  lemma EntryNamesPrefix(c: Codec, zip: Zip, k: nat)
    requires k <= |zip|
    ensures |EntryNames(c, zip)| == |zip|
    ensures EntryNames(c, zip[..k]) == EntryNames(c, zip)[..k]
    ensures forall i :: 0 <= i < |zip| ==> EntryNames(c, zip)[i] == NameOf(c, zip[i])
  {
    hide NameOf;
  }

  lemma ScanStep(c: Codec, zip: Zip, i: nat)
    requires i < |zip|
    ensures EntryNames(c, zip[..i+1]) == EntryNames(c, zip[..i]) + [NameOf(c, zip[i])]
    ensures Distinct(EntryNames(c, zip)) ==> Distinct(EntryNames(c, zip[..i+1]))
  {
    hide EntryNames, Distinct, NameOf;
    var all := EntryNames(c, zip);
    EntryNamesPrefix(c, zip, i + 1);
    EntryNamesPrefix(c, zip, i);
    assert all[..i+1] == all[..i] + [all[i]];
    if Distinct(all) {
      DistinctPrefix(all[..i+1], all);
    }
  }

  lemma SizeStep(zip: Zip, i: nat)
    requires i < |zip|
    ensures TotalSize(zip[..i+1]) == TotalSize(zip[..i]) + zip[i].size <= TotalSize(zip)
  {
    assert zip[..i+1][..i] == zip[..i];
    TotalSizePrefix(zip, i + 1);
  }

  lemma {:induction false} TotalSizePrefix(zip: Zip, k: nat)
    requires k <= |zip|
    ensures TotalSize(zip[..k]) <= TotalSize(zip)
    decreases |zip|
  {
    if k < |zip| {
      assert zip[..|zip|-1][..k] == zip[..k];
      TotalSizePrefix(zip[..|zip|-1], k);
    } else {
      assert zip[..k] == zip;
    }
  }

  /** Finds an entry by the name the container gives it. */
  method FindByName(zip: Zip, name: Text) returns (found: Option<Entry>)
    ensures found.Some? ==> found.value in zip && found.value.name == name
    ensures found.None? ==> forall e :: e in zip ==> e.name != name
  {
    for i := 0 to |zip|
      invariant forall e :: e in zip[..i] ==> e.name != name
    {
      if zip[i].name == name {
        return Some(zip[i]);
      }
      assert zip[..i+1] == zip[..i] + [zip[i]];
    }
    assert zip[..|zip|] == zip;
    return None;
  }

  lemma ManifestIsClean(c: Codec)
    requires Lawful(c)
    ensures IsClean(c, ManifestPath())
  {
    assert ValidComponent(ManifestPath());
  }

  method ReadManifest(c: Codec, zip: Zip) returns (m: Option<Manifest>)
    requires Lawful(c) && ScanOk(c, zip)
    ensures m == ManifestOf(c, zip)
  {
    hide Lawful, ManifestOk, ManifestPath, Distinct, EntryOk;
    var found := FindByName(zip, ManifestPath());
    ManifestIsClean(c);
    if found.None? {
      LookupFinds(c, zip, ManifestPath());
      return None;
    }
    var e := found.value;
    var i :| 0 <= i < |zip| && zip[i] == e;
    LookupAt(c, zip, i);
    if e.size > MAX_MANIFEST_BYTES || |e.data| != e.size {
      return None;
    }
    m := c.decodeManifest(e.data);
    if m.Some? {
      var ok := ValidateManifest(c, m.value);
      if !ok {
        m := None;
      }
    }
  }

  /** The map lists exactly the promised entries. */
  predicate Lists(expected: map<Text, Leaf>, leaves: seq<Leaf>) {
    && expected.Keys == SetOf(LeafNames(leaves))
    && forall i :: 0 <= i < |leaves| ==> leaves[i].name in expected && expected[leaves[i].name] == leaves[i]
  }

  lemma ListsSnoc(expected: map<Text, Leaf>, leaves: seq<Leaf>, leaf: Leaf)
    requires Lists(expected, leaves) && Distinct(LeafNames(leaves + [leaf]))
    ensures Lists(expected[leaf.name := leaf], leaves + [leaf])
  {
    LeafNamesConcat(leaves, [leaf]);
    assert LeafNames([leaf]) == [leaf.name];
    DistinctSnoc(LeafNames(leaves), leaf.name);
    forall i | 0 <= i < |leaves|
      ensures leaves[i].name != leaf.name
    {
      assert LeafNames(leaves)[i] == leaves[i].name;
    }
  }

  lemma {:induction false} LeavesPrefix(payloads: seq<Payload>, k: nat)
    requires k <= |payloads|
    ensures Leaves(payloads[..k]) <= Leaves(payloads)
    decreases |payloads|
  {
    hide LeavesOf;
    if k < |payloads| {
      assert payloads[..|payloads|-1][..k] == payloads[..k];
      LeavesPrefix(payloads[..|payloads|-1], k);
    } else {
      assert payloads[..k] == payloads;
    }
  }

  lemma SomeLeavesDistinct(payloads: seq<Payload>, k: nat, j: nat)
    requires k < |payloads| && j <= |LeavesOf(payloads[k])| && Distinct(LeafNames(Leaves(payloads)))
    ensures Leaves(payloads[..k+1]) == Leaves(payloads[..k]) + LeavesOf(payloads[k])
    ensures Distinct(LeafNames(Leaves(payloads[..k]) + LeavesOf(payloads[k])[..j]))
  {
    hide LeavesOf, Distinct;
    assert payloads[..k+1][..k] == payloads[..k];
    LeavesPrefix(payloads, k + 1);
    var some := Leaves(payloads[..k]) + LeavesOf(payloads[k])[..j];
    assert some <= Leaves(payloads);
    assert LeafNames(some) <= LeafNames(Leaves(payloads));
    DistinctPrefix(LeafNames(some), LeafNames(Leaves(payloads)));
  }

  method Expectations(payloads: seq<Payload>) returns (expected: map<Text, Leaf>)
    requires Distinct(LeafNames(Leaves(payloads)))
    ensures Lists(expected, Leaves(payloads))
  {
    hide Distinct, Lists, Leaves;
    expected := map[];
    NothingListed();
    assert payloads[..0] == [];
    for k := 0 to |payloads|
      invariant Lists(expected, Leaves(payloads[..k]))
    {
      var p := payloads[k];
      ghost var before := Leaves(payloads[..k]);
      SomeLeavesDistinct(payloads, k, |LeavesOf(p)|);
      if p.parts == [] {
        assert LeavesOf(p)[..1] == LeavesOf(p);
        ListsSnoc(expected, before, LeavesOf(p)[0]);
        expected := expected[p.path := Leaf(p.path, p.size, p.sha256, true, p)];
      } else {
        assert before + LeavesOf(p)[..0] == before;
        for j := 0 to |p.parts|
          invariant Lists(expected, before + LeavesOf(p)[..j])
        {
          SomeLeavesDistinct(payloads, k, j + 1);
          assert before + LeavesOf(p)[..j+1] == before + LeavesOf(p)[..j] + [PartLeaf(p, j)];
          ListsSnoc(expected, before + LeavesOf(p)[..j], PartLeaf(p, j));
          expected := expected[p.parts[j].path := PartLeaf(p, j)];
        }
        assert LeavesOf(p)[..|p.parts|] == LeavesOf(p);
      }
    }
    assert payloads[..|payloads|] == payloads;
  }

  lemma NothingListed()
    ensures Lists(map[], Leaves([]))
  {
  }

  /** Every entry but the manifest is listed and the numbers agree; as names
      are distinct, that makes the container and the list the same. */
  method MatchEntries(c: Codec, zip: Zip, expected: map<Text, Leaf>) returns (ok: bool)
    requires Distinct(EntryNames(c, zip)) && ManifestPath() in EntryNames(c, zip) && ManifestPath() !in expected
    ensures ok == (SetOf(EntryNames(c, zip)) == {ManifestPath()} + expected.Keys)
  {
    hide ManifestPath, Distinct, NameOf, SetOf, EntryNames, Listed, Counted;
    var count := 0;
    EntryNamesPrefix(c, zip, 0);
    ghost var names := EntryNames(c, zip);
    NothingMatched(names, expected);
    for i := 0 to |zip|
      invariant Listed(names, i, expected) && Counted(names, i, count)
    {
      var name := NameOf(c, zip[i]);
      if name != ManifestPath() && name !in expected {
        UnlistedFails(names, i, expected);
        return false;
      }
      MatchStep(names, i, expected, count);
      if name != ManifestPath() {
        count := count + 1;
      }
    }
    ok := count == |expected|;
    CountsDecide(names, expected, count);
  }

  /** The first `i` names are the manifest's or listed. */
  predicate Listed(names: seq<Text>, i: nat, expected: map<Text, Leaf>)
    requires i <= |names|
  {
    forall k :: 0 <= k < i ==> names[k] == ManifestPath() || names[k] in expected
  }

  predicate Counted(names: seq<Text>, i: nat, count: nat)
    requires i <= |names|
  {
    count == i - if ManifestPath() in names[..i] then 1 else 0
  }

  lemma NothingMatched(names: seq<Text>, expected: map<Text, Leaf>)
    ensures Listed(names, 0, expected) && Counted(names, 0, 0)
  {
    hide ManifestPath;
  }

  lemma MatchStep(names: seq<Text>, i: nat, expected: map<Text, Leaf>, count: nat)
    requires Distinct(names) && i < |names| && Listed(names, i, expected) && Counted(names, i, count)
    requires names[i] == ManifestPath() || names[i] in expected
    ensures Listed(names, i + 1, expected)
    ensures Counted(names, i + 1, if names[i] == ManifestPath() then count else count + 1)
  {
    hide ManifestPath;
    assert names[..i+1] == names[..i] + [names[i]];
    FirstTime(names, i);
  }

  lemma UnlistedFails(names: seq<Text>, i: nat, expected: map<Text, Leaf>)
    requires i < |names| && names[i] != ManifestPath() && names[i] !in expected
    ensures SetOf(names) != {ManifestPath()} + expected.Keys
  {
    hide ManifestPath;
    assert names[i] in SetOf(names);
  }

  lemma CountsDecide(names: seq<Text>, expected: map<Text, Leaf>, count: nat)
    requires Distinct(names) && ManifestPath() in names && ManifestPath() !in expected
    requires Listed(names, |names|, expected) && Counted(names, |names|, count)
    ensures count == |expected| <==> SetOf(names) == {ManifestPath()} + expected.Keys
  {
    hide ManifestPath, Distinct;
    assert names[..|names|] == names;
    DistinctSize(names);
    KeysSize(expected);
    if count == |expected| {
      SameSize(SetOf(names), {ManifestPath()} + expected.Keys);
    }
  }

  lemma FirstTime(names: seq<Text>, i: nat)
    requires Distinct(names) && i < |names|
    ensures names[i] !in names[..i]
  {
  }

  lemma KeysSize(expected: map<Text, Leaf>)
    requires ManifestPath() !in expected
    ensures |{ManifestPath()} + expected.Keys| == 1 + |expected|
  {
    hide ManifestPath;
  }

  // ----- Checking the bytes -----

  predicate Retains(retention: Retention, leaf: Leaf) {
    if leaf.whole then RetainsPayload(retention, leaf.payload.role) else RetainsParts(retention, leaf.payload.role)
  }

  /** A whole tar the caller does not want is checked while it streams past. */
  predicate Streams(retention: Retention, p: Payload) {
    p.parts == [] && p.role.GitUntrackedTar? && !RetainsPayload(retention, p.role)
  }

  predicate EntryGood(c: Codec, e: Entry, leaf: Leaf, retention: Retention) {
    EntryMatches(c, e, leaf) && (leaf.whole && Streams(retention, leaf.payload) ==> c.validTar(e.data))
  }

  predicate LeafGood(c: Codec, zip: Zip, leaf: Leaf, retention: Retention) {
    Lookup(c, zip, leaf.name).Some? && EntryGood(c, Lookup(c, zip, leaf.name).value, leaf, retention)
  }

  method VerifyEntry(c: Codec, e: Entry, leaf: Leaf, retention: Retention) returns (ok: bool, body: Option<Text>)
    requires leaf.whole <==> leaf.payload.parts == []
    ensures ok == EntryGood(c, e, leaf, retention)
    ensures body == if Retains(retention, leaf) then Some(e.data) else None
  {
    var retain := Retains(retention, leaf);
    body := if retain then Some(e.data) else None;
    if e.size != leaf.size || ModeOf(e) != leaf.payload.mode {
      return false, body;
    }
    if !retain && leaf.whole && leaf.payload.role.GitUntrackedTar? && !c.validTar(e.data) {
      return false, body;
    }
    ok := |e.data| == leaf.size && c.digest(e.data) == leaf.sha256;
  }

  /** Exactly the bodies to be kept are held, each with its entry's bytes. */
  predicate HoldsLeaf(bodies: map<Text, Text>, data: Text, leaf: Leaf, retention: Retention) {
    if Retains(retention, leaf) then leaf.name in bodies && bodies[leaf.name] == data else leaf.name !in bodies
  }

  predicate WellMarked(expected: map<Text, Leaf>) {
    forall n :: n in expected ==> expected[n].name == n && (expected[n].whole <==> expected[n].payload.parts == [])
  }

  /** The first `k` entries are good and their bodies are held. */
  ghost predicate Read(c: Codec, zip: Zip, k: nat, expected: map<Text, Leaf>, retention: Retention, bodies: map<Text, Text>)
    requires k <= |zip|
  {
    var names := EntryNames(c, zip);
    && (forall j :: 0 <= j < k && names[j] in expected ==>
          EntryGood(c, zip[j], expected[names[j]], retention) &&
          HoldsLeaf(bodies, zip[j].data, expected[names[j]], retention))
    && (forall n :: n in bodies ==> n in names[..k])
  }

  lemma ReadStep(c: Codec, zip: Zip, k: nat, expected: map<Text, Leaf>, retention: Retention, bodies: map<Text, Text>, body: Option<Text>)
    requires k < |zip| && Distinct(EntryNames(c, zip)) && WellMarked(expected)
    requires Read(c, zip, k, expected, retention, bodies) && EntryNames(c, zip)[k] in expected
    requires EntryGood(c, zip[k], expected[EntryNames(c, zip)[k]], retention)
    requires body == if Retains(retention, expected[EntryNames(c, zip)[k]]) then Some(zip[k].data) else None
    ensures var name := EntryNames(c, zip)[k];
            Read(c, zip, k + 1, expected, retention, if body.Some? then bodies[name := body.value] else bodies)
  {
    hide EntryNames, EntryGood, Retains;
    EntryNamesPrefix(c, zip, k);
    var names := EntryNames(c, zip);
    assert names[..k+1] == names[..k] + [names[k]];
    FirstTime(names, k);
    var after := if body.Some? then bodies[names[k] := body.value] else bodies;
    forall j | 0 <= j < k + 1 && names[j] in expected
      ensures EntryGood(c, zip[j], expected[names[j]], retention) && HoldsLeaf(after, zip[j].data, expected[names[j]], retention)
    {
      assert j < k ==> names[j] != names[k];
    }
  }

  lemma ReadSkip(c: Codec, zip: Zip, k: nat, expected: map<Text, Leaf>, retention: Retention, bodies: map<Text, Text>)
    requires k < |zip| && Read(c, zip, k, expected, retention, bodies) && EntryNames(c, zip)[k] !in expected
    ensures Read(c, zip, k + 1, expected, retention, bodies)
  {
    hide EntryNames, EntryGood, HoldsLeaf;
    EntryNamesPrefix(c, zip, k);
    var names := EntryNames(c, zip);
    assert names[..k+1] == names[..k] + [names[k]];
  }

  method VerifyEntries(c: Codec, zip: Zip, expected: map<Text, Leaf>, retention: Retention, ghost leaves: seq<Leaf>)
      returns (ok: bool, bodies: map<Text, Text>)
    requires Distinct(EntryNames(c, zip)) && Lists(expected, leaves) && WellMarked(expected)
    requires ManifestPath() !in expected && SetOf(EntryNames(c, zip)) == {ManifestPath()} + expected.Keys
    ensures ok == forall i :: 0 <= i < |leaves| ==> LeafGood(c, zip, leaves[i], retention)
    ensures ok ==> forall i :: 0 <= i < |leaves| ==> HoldsLeaf(bodies, DataOf(c, zip, leaves[i].name), leaves[i], retention)
  {
    hide Distinct, SetOf, EntryNames, NameOf, ManifestPath, EntryGood, HoldsLeaf, Retains, Read, Lists, LeafGood;
    bodies := map[];
    NothingRead(c, zip, expected, retention);
    EntryNamesPrefix(c, zip, 0);
    ghost var names := EntryNames(c, zip);
    for k := 0 to |zip|
      invariant Read(c, zip, k, expected, retention, bodies)
    {
      var name := NameOf(c, zip[k]);
      SetOfMember(names, name);
      if name == ManifestPath() {
        ReadSkip(c, zip, k, expected, retention, bodies);
      } else {
        var leaf := expected[name];
        var good, body := VerifyEntry(c, zip[k], leaf, retention);
        if !good {
          BadEntry(c, zip, k, expected, retention, leaves);
          return false, bodies;
        }
        ReadStep(c, zip, k, expected, retention, bodies, body);
        if body.Some? {
          bodies := bodies[name := body.value];
        }
      }
    }
    AllRead(c, zip, expected, retention, bodies, leaves);
    ok := true;
  }

  lemma NothingRead(c: Codec, zip: Zip, expected: map<Text, Leaf>, retention: Retention)
    ensures Read(c, zip, 0, expected, retention, map[])
  {
  }

  lemma BadEntry(c: Codec, zip: Zip, k: nat, expected: map<Text, Leaf>, retention: Retention, leaves: seq<Leaf>)
    requires k < |zip| && Distinct(EntryNames(c, zip)) && Lists(expected, leaves) && EntryNames(c, zip)[k] in expected
    requires !EntryGood(c, zip[k], expected[EntryNames(c, zip)[k]], retention)
    ensures exists i :: 0 <= i < |leaves| && !LeafGood(c, zip, leaves[i], retention)
  {
    hide Distinct, EntryGood, NameOf;
    var name := EntryNames(c, zip)[k];
    LookupAt(c, zip, k);
    assert name in SetOf(LeafNames(leaves));
    var i :| 0 <= i < |leaves| && LeafNames(leaves)[i] == name;
    assert leaves[i].name == name && expected[name] == leaves[i];
    assert !LeafGood(c, zip, leaves[i], retention);
  }

  lemma AllRead(c: Codec, zip: Zip, expected: map<Text, Leaf>, retention: Retention, bodies: map<Text, Text>, leaves: seq<Leaf>)
    requires Distinct(EntryNames(c, zip)) && Lists(expected, leaves)
    requires SetOf(EntryNames(c, zip)) == {ManifestPath()} + expected.Keys
    requires Read(c, zip, |zip|, expected, retention, bodies)
    ensures forall i :: 0 <= i < |leaves| ==>
      LeafGood(c, zip, leaves[i], retention) && HoldsLeaf(bodies, DataOf(c, zip, leaves[i].name), leaves[i], retention)
  {
    hide Distinct, EntryGood, NameOf, HoldsLeaf, ManifestPath, SetOf, LeafNames;
    forall i | 0 <= i < |leaves|
      ensures LeafGood(c, zip, leaves[i], retention) && HoldsLeaf(bodies, DataOf(c, zip, leaves[i].name), leaves[i], retention)
    {
      var name := leaves[i].name;
      SetOfMember(EntryNames(c, zip), name);
      var j :| 0 <= j < |zip| && EntryNames(c, zip)[j] == name;
      LookupAt(c, zip, j);
    }
  }

  // ----- Putting payloads together -----

  /** Where the leaves of a manifest come from. */
  lemma {:induction false} LeavesFrom(payloads: seq<Payload>, i: nat)
    requires i < |Leaves(payloads)|
    ensures var leaf := Leaves(payloads)[i];
            leaf.payload in payloads && leaf in LeavesOf(leaf.payload) && (leaf.whole <==> leaf.payload.parts == [])
  {
    var front, last := payloads[..|payloads|-1], payloads[|payloads|-1];
    if i < |Leaves(front)| {
      LeavesFrom(front, i);
    } else {
      assert Leaves(payloads)[i] == LeavesOf(last)[i - |Leaves(front)|];
    }
  }

  lemma {:induction false} LeavesHave(payloads: seq<Payload>, k: nat, leaf: Leaf)
    requires k < |payloads| && leaf in LeavesOf(payloads[k])
    ensures leaf in Leaves(payloads)
    decreases |payloads|
  {
    hide LeavesOf;
    if k < |payloads| - 1 {
      LeavesHave(payloads[..|payloads|-1], k, leaf);
    }
  }

  lemma ListsMarked(expected: map<Text, Leaf>, payloads: seq<Payload>)
    requires Lists(expected, Leaves(payloads))
    ensures WellMarked(expected)
  {
    hide Leaves, LeavesOf;
    forall n | n in expected
      ensures expected[n].name == n && (expected[n].whole <==> expected[n].payload.parts == [])
    {
      var leaves := Leaves(payloads);
      assert n in SetOf(LeafNames(leaves));
      var i :| 0 <= i < |leaves| && LeafNames(leaves)[i] == n;
      assert leaves[i].name == n;
      LeavesFrom(payloads, i);
    }
  }

  /** All bodies of one payload are held. */
  predicate HoldsPayload(c: Codec, zip: Zip, bodies: map<Text, Text>, p: Payload, retention: Retention) {
    forall leaf :: leaf in LeavesOf(p) ==> HoldsLeaf(bodies, DataOf(c, zip, leaf.name), leaf, retention)
  }

  predicate PartsSized(c: Codec, zip: Zip, parts: seq<Part>) {
    forall k :: 0 <= k < |parts| ==> |DataOf(c, zip, parts[k].path)| == parts[k].size
  }

  lemma {:induction false} JoinedSize(c: Codec, zip: Zip, parts: seq<Part>)
    requires PartsSized(c, zip, parts)
    ensures |Joined(c, zip, parts)| == SumSizes(parts)
  {
    hide DataOf;
    if parts != [] {
      JoinedSize(c, zip, parts[..|parts|-1]);
    }
  }

  /** The body of a payload, if it is held. */
  function Reassembled(c: Codec, zip: Zip, p: Payload, retention: Retention): Option<Text> {
    if (if p.parts == [] then RetainsPayload(retention, p.role) else RetainsParts(retention, p.role))
    then Some(BodyOf(c, zip, p)) else None
  }

  method Reassemble(c: Codec, p: Payload, bodies: map<Text, Text>, retention: Retention, ghost zip: Zip)
      returns (ok: bool, bytes: Option<Text>)
    requires HoldsPayload(c, zip, bodies, p, retention)
    requires p.parts != [] ==> PartsSized(c, zip, p.parts) && SumSizes(p.parts) == p.size
    ensures ok == (p.parts != [] && RetainsParts(retention, p.role) ==> c.digest(BodyOf(c, zip, p)) == p.sha256)
    ensures ok ==> bytes == Reassembled(c, zip, p, retention)
  {
    hide DataOf, RetainsPayload, RetainsParts, SumSizes;
    if p.parts == [] {
      assert LeavesOf(p)[0] in LeavesOf(p);
      return true, if p.path in bodies then Some(bodies[p.path]) else None;
    }
    if !RetainsParts(retention, p.role) {
      return true, None;
    }
    var assembled := [];
    for k := 0 to |p.parts|
      invariant assembled == Joined(c, zip, p.parts[..k])
    {
      assert PartLeaf(p, k) == LeavesOf(p)[k];
      assert p.parts[..k+1][..k] == p.parts[..k];
      assembled := assembled + bodies[p.parts[k].path];
    }
    assert p.parts[..|p.parts|] == p.parts;
    JoinedSize(c, zip, p.parts);
    ok := |assembled| == p.size && c.digest(assembled) == p.sha256;
    bytes := Some(assembled);
  }

  /** What the last pass asks of a payload; tars that streamed past have been
      checked before. */
  predicate PayloadGood(c: Codec, zip: Zip, p: Payload, retention: Retention) {
    && (p.parts != [] && RetainsParts(retention, p.role) ==> c.digest(BodyOf(c, zip, p)) == p.sha256)
    && (p.role.GitUntrackedTar? && !Streams(retention, p) ==> c.validTar(BodyOf(c, zip, p)))
    && (p.role == CanonicalSession ==> SessionOk(c, BodyOf(c, zip, p)))
  }

  /** The leaves and payloads being good is what the archive has to be. */
  lemma GoodIsOk(c: Codec, zip: Zip, payloads: seq<Payload>, retention: Retention)
    ensures (forall i :: 0 <= i < |Leaves(payloads)| ==> LeafGood(c, zip, Leaves(payloads)[i], retention)) &&
            (forall i :: 0 <= i < |payloads| ==> PayloadGood(c, zip, payloads[i], retention))
            <==>
            (forall i :: 0 <= i < |Leaves(payloads)| ==> Verified(c, zip, Leaves(payloads)[i])) &&
            BodiesOk(c, zip, payloads, retention)
  {
    hide Leaves, SessionOk, EntryMatches, RetainsPayload, Lookup;
    var leaves := Leaves(payloads);
    if (forall i :: 0 <= i < |leaves| ==> LeafGood(c, zip, leaves[i], retention)) &&
       (forall i :: 0 <= i < |payloads| ==> PayloadGood(c, zip, payloads[i], retention)) {
      forall k | 0 <= k < |payloads|
        ensures BodyOk(c, zip, payloads[k], retention)
      {
        assert PayloadGood(c, zip, payloads[k], retention);
        if Streams(retention, payloads[k]) {
          var leaf := LeavesOf(payloads[k])[0];
          LeavesHave(payloads, k, leaf);
          assert LeafGood(c, zip, leaf, retention);
        }
      }
    }
    if (forall i :: 0 <= i < |leaves| ==> Verified(c, zip, leaves[i])) && BodiesOk(c, zip, payloads, retention) {
      forall k | 0 <= k < |payloads|
        ensures PayloadGood(c, zip, payloads[k], retention)
      {
        assert BodyOk(c, zip, payloads[k], retention);
      }
      forall i | 0 <= i < |leaves|
        ensures LeafGood(c, zip, leaves[i], retention)
      {
        LeavesFrom(payloads, i);
        assert Verified(c, zip, leaves[i]);
        var k :| 0 <= k < |payloads| && payloads[k] == leaves[i].payload;
        assert BodyOk(c, zip, payloads[k], retention);
      }
    }
  }

  lemma VerifiedSizes(c: Codec, zip: Zip, payloads: seq<Payload>, k: nat, retention: Retention)
    requires k < |payloads|
    requires forall i :: 0 <= i < |Leaves(payloads)| ==> LeafGood(c, zip, Leaves(payloads)[i], retention)
    ensures PartsSized(c, zip, payloads[k].parts)
  {
    hide Leaves, Lookup;
    var p := payloads[k];
    forall j | 0 <= j < |p.parts|
      ensures |DataOf(c, zip, p.parts[j].path)| == p.parts[j].size
    {
      assert PartLeaf(p, j) == LeavesOf(p)[j];
      LeavesHave(payloads, k, PartLeaf(p, j));
      assert LeafGood(c, zip, PartLeaf(p, j), retention);
    }
  }

  lemma PayloadHeld(c: Codec, zip: Zip, payloads: seq<Payload>, k: nat, bodies: map<Text, Text>, retention: Retention)
    requires k < |payloads|
    requires forall i :: 0 <= i < |Leaves(payloads)| ==>
      HoldsLeaf(bodies, DataOf(c, zip, Leaves(payloads)[i].name), Leaves(payloads)[i], retention)
    ensures HoldsPayload(c, zip, bodies, payloads[k], retention)
  {
    hide Leaves, LeavesOf, HoldsLeaf, DataOf;
    forall leaf | leaf in LeavesOf(payloads[k])
      ensures HoldsLeaf(bodies, DataOf(c, zip, leaf.name), leaf, retention)
    {
      LeavesHave(payloads, k, leaf);
    }
  }

  /** The last pass: reassembles every payload and takes out what is wanted. */
  method TakePayloads(c: Codec, payloads: seq<Payload>, bodies: map<Text, Text>, retention: Retention, ghost zip: Zip)
      returns (ok: bool, session: Option<Snapshot>, kept: map<Text, Text>)
    requires forall k :: 0 <= k < |payloads| ==> HoldsPayload(c, zip, bodies, payloads[k], retention)
    requires forall k :: 0 <= k < |payloads| ==>
      PartsSized(c, zip, payloads[k].parts) && (payloads[k].parts != [] ==> SumSizes(payloads[k].parts) == payloads[k].size)
    ensures ok == forall k :: 0 <= k < |payloads| ==> PayloadGood(c, zip, payloads[k], retention)
    ensures ok ==> session == SessionIn(c, zip, payloads) && kept == KeptBodies(c, zip, payloads, retention)
  {
    hide BodyOf, HoldsPayload, PartsSized, SumSizes;
    session, kept := None, map[];
    for k := 0 to |payloads|
      invariant forall i :: 0 <= i < k ==> PayloadGood(c, zip, payloads[i], retention)
      invariant session == SessionIn(c, zip, payloads[..k])
      invariant kept == KeptBodies(c, zip, payloads[..k], retention)
    {
      var p := payloads[k];
      assert payloads[..k+1][..k] == payloads[..k];
      var good, bytes := Reassemble(c, p, bodies, retention, zip);
      if !good {
        assert !PayloadGood(c, zip, p, retention);
        return false, None, map[];
      }
      if p.role.GitUntrackedTar? && bytes.Some? && !c.validTar(bytes.value) {
        assert !PayloadGood(c, zip, p, retention);
        return false, None, map[];
      }
      if p.role == CanonicalSession {
        var snapshot := c.decodeSession(bytes.value);
        if snapshot.None? || !c.validSession(snapshot.value) {
          assert !PayloadGood(c, zip, p, retention);
          return false, None, map[];
        }
        session := snapshot;
      }
      if Keeps(retention, p.role) {
        kept := kept[p.path := bytes.value];
      }
    }
    assert payloads[..|payloads|] == payloads;
    ok := true;
  }

  lemma {:induction false} SessionFound(c: Codec, zip: Zip, payloads: seq<Payload>, retention: Retention)
    requires CanonicalCount(payloads) == 1 && forall k :: 0 <= k < |payloads| ==> PayloadGood(c, zip, payloads[k], retention)
    ensures SessionIn(c, zip, payloads).Some?
  {
    hide BodyOf, RetainsParts;
    var front, last := payloads[..|payloads|-1], payloads[|payloads|-1];
    if last.role == CanonicalSession {
      assert PayloadGood(c, zip, last, retention);
    } else {
      SessionFound(c, zip, front, retention);
    }
  }

  lemma ManifestFacts(c: Codec, m: Manifest)
    requires ManifestOk(c, m)
    ensures Distinct(LeafNames(Leaves(m.payloads))) && CanonicalCount(m.payloads) == 1
    ensures ManifestPath() !in SetOf(LeafNames(Leaves(m.payloads)))
    ensures forall k :: 0 <= k < |m.payloads| && m.payloads[k].parts != [] ==>
            SumSizes(m.payloads[k].parts) == m.payloads[k].size
  {
    hide Leaves, ManifestPath, Names, Distinct, HasPayload, SessionPath, RoleOk;
    LeavesDistinct(m.payloads);
    LeavesNotManifest(c, m.payloads);
    forall k | 0 <= k < |m.payloads| && m.payloads[k].parts != []
      ensures SumSizes(m.payloads[k].parts) == m.payloads[k].size
    {
      assert PayloadOk(c, m.payloads[k]);
    }
  }

  /** Reads an archive. What is accepted, and what is returned, is said by
      `Acceptable`, `KeptBodies` and `SessionIn`. */
  method ReadVerifiedZip(c: Codec, zip: Zip, retention: Retention) returns (r: Option<Contents>)
    requires Lawful(c)
    ensures r.Some? <==> Acceptable(c, zip, retention)
    ensures r.Some? ==>
      && r.value.manifest == ManifestOf(c, zip).value
      && Some(r.value.session) == SessionIn(c, zip, r.value.manifest.payloads)
      && r.value.payloads == KeptBodies(c, zip, r.value.manifest.payloads, retention)
  {
    hide Lawful, ScanOk, ManifestOf, SetOf, LeafNames, Leaves, EntryNames, Distinct, Lists, Verified, LeafGood, HoldsLeaf,
      HoldsPayload, PartsSized, PayloadGood, BodiesOk, ManifestPath, KeptBodies, SessionIn, CanonicalCount, SumSizes, ManifestOk;
    var ok := Scan(c, zip);
    if !ok {
      return None;
    }
    var m := ReadManifest(c, zip);
    if m.None? {
      return None;
    }
    var payloads := m.value.payloads;
    ScanFacts(c, zip);
    ManifestOfOk(c, zip);
    ManifestFacts(c, m.value);
    var expected := Expectations(payloads);
    ListsKeys(expected, Leaves(payloads));
    ok := MatchEntries(c, zip, expected);
    if !ok {
      return None;
    }
    ListsMarked(expected, payloads);
    var bodies, session, kept;
    GoodIsOk(c, zip, payloads, retention);
    ok, bodies := VerifyEntries(c, zip, expected, retention, Leaves(payloads));
    if !ok {
      return None;
    }
    forall k | 0 <= k < |payloads|
      ensures HoldsPayload(c, zip, bodies, payloads[k], retention) && PartsSized(c, zip, payloads[k].parts)
    {
      PayloadHeld(c, zip, payloads, k, bodies, retention);
      VerifiedSizes(c, zip, payloads, k, retention);
    }
    ok, session, kept := TakePayloads(c, payloads, bodies, retention, zip);
    if !ok {
      return None;
    }
    SessionFound(c, zip, payloads, retention);
    return Some(Contents(m.value, session.value, kept));
  }

  lemma ScanFacts(c: Codec, zip: Zip)
    requires ScanOk(c, zip)
    ensures Distinct(EntryNames(c, zip)) && ManifestPath() in EntryNames(c, zip)
  {
    hide ManifestPath, Distinct, EntryNames, TotalSize;
  }

  lemma ManifestOfOk(c: Codec, zip: Zip)
    requires ManifestOf(c, zip).Some?
    ensures ManifestOk(c, ManifestOf(c, zip).value)
  {
    hide ManifestOk, ManifestPath, Lookup;
  }

  lemma ListsKeys(expected: map<Text, Leaf>, leaves: seq<Leaf>)
    requires Lists(expected, leaves)
    ensures expected.Keys == SetOf(LeafNames(leaves))
  {
  }
}
