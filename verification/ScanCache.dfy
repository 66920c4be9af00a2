// Which Codex rollouts belong to a session, and the cache that remembers the
// ones that do not (src/hel_checkpoint.rs).

module ScanCache {
  import opened Text

  type Path = Text

  /** What one line of a rollout says: it cannot be read, it is only half
      written, it is not JSON, it is some other record, or it is the header
      naming a session (or none). */
  datatype Line = Unreadable | HalfWritten | NotJson | Record | SessionMeta(session: Option<Text>)

  /** A file met on the walk. `rollout` is nothing when it cannot be opened. */
  datatype File = File(path: Path, name: Text, regular: bool, modified: Option<int>, rollout: Option<seq<Line>>, secret: bool, size: nat)

  // ----- The content probe -----

  const PROBED_LINES := 8

  /** The first line among the first eight that is not just another record. */
  function FirstTelling(lines: seq<Line>, k: nat): Option<Line>
    requires k <= PROBED_LINES
    decreases PROBED_LINES - k
  {
    if k == PROBED_LINES || k >= |lines| then None
    else if lines[k].Record? then FirstTelling(lines, k + 1)
    else Some(lines[k])
  }

  predicate Names(lines: seq<Line>, session: Text) {
    FirstTelling(lines, 0) == Some(SessionMeta(Some(session)))
  }

  predicate Ours(f: File, session: Text) {
    f.rollout.Some? && Names(f.rollout.value, session)
  }

  /** A header naming the session is among the first eight lines, and only other
      records come before it. */
  predicate HeaderNames(f: File, session: Text) {
    f.rollout.Some? &&
    exists k :: 0 <= k < 8 && k < |f.rollout.value| && HeaderAt(f.rollout.value, session, k)
  }

  predicate HeaderAt(lines: seq<Line>, session: Text, k: nat)
    requires k < |lines|
  {
    lines[k] == SessionMeta(Some(session)) && forall i :: 0 <= i < k ==> lines[i].Record?
  }

  lemma {:induction false} TellingIs(lines: seq<Line>, session: Text, k: nat)
    requires k <= PROBED_LINES && forall i :: 0 <= i < k && i < |lines| ==> lines[i].Record?
    ensures FirstTelling(lines, k) == Some(SessionMeta(Some(session))) <==>
            exists j :: k <= j < PROBED_LINES && j < |lines| && HeaderAt(lines, session, j)
    decreases PROBED_LINES - k
  {
    if k < PROBED_LINES && k < |lines| {
      if lines[k].Record? {
        TellingIs(lines, session, k + 1);
      } else if FirstTelling(lines, k) == Some(SessionMeta(Some(session))) {
        assert HeaderAt(lines, session, k);
      }
    }
  }

  lemma OursIff(f: File, session: Text)
    ensures Ours(f, session) <==> HeaderNames(f, session)
  {
    hide HeaderAt;
    if f.rollout.Some? {
      TellingIs(f.rollout.value, session, 0);
    }
  }

  method HasSessionId(f: File, session: Text) returns (ours: bool)
    ensures ours == Ours(f, session)
    ensures ours <==> HeaderNames(f, session)
  {
    OursIff(f, session);
    hide HeaderNames;
    if f.rollout.None? {
      return false;
    }
    var lines := f.rollout.value;
    for k := 0 to PROBED_LINES
      invariant FirstTelling(lines, 0) == FirstTelling(lines, k)
    {
      if k >= |lines| {
        return false;
      }
      match lines[k]
      case Unreadable => return false;
      case HalfWritten => return false;
      case NotJson => return false;
      case SessionMeta(named) => return named == Some(session);
      case Record =>
    }
    return false;
  }

  // ----- When a verdict is final -----

  /** The lines a probe has really read: those before one it cannot read or
      that is not complete. */
  function Known(lines: seq<Line>): seq<Line> {
    if lines == [] || lines[0].Unreadable? || lines[0].HalfWritten? then []
    else [lines[0]] + Known(lines[1..])
  }

  /** What a later probe may find where an earlier one found `was`: it opens or
      does not, reads less far or further, and meets what was written since.
      Lines that both have read are the same. */
  predicate MayBecome(was: Option<seq<Line>>, now: Option<seq<Line>>) {
    was.Some? && now.Some? ==>
      Known(was.value) <= Known(now.value) || Known(now.value) <= Known(was.value)
  }

  /** The probe has opened the rollout and read what settles the question: a
      header, a line that is not JSON, or eight other records. */
  predicate Decided(rollout: Option<seq<Line>>) {
    rollout.Some? &&
    var known := Known(rollout.value);
    |known| >= PROBED_LINES || FirstTelling(known, 0).Some?
  }

  lemma {:induction false} KnownIsPrefix(lines: seq<Line>)
    ensures Known(lines) <= lines
    ensures forall i :: 0 <= i < |Known(lines)| ==> !Known(lines)[i].Unreadable? && !Known(lines)[i].HalfWritten?
    ensures |Known(lines)| < |lines| ==> lines[|Known(lines)|].Unreadable? || lines[|Known(lines)|].HalfWritten?
  {
    if !(lines == [] || lines[0].Unreadable? || lines[0].HalfWritten?) {
      KnownIsPrefix(lines[1..]);
      assert lines == [lines[0]] + lines[1..];
    }
  }

  lemma {:induction false} KnownOfRead(lines: seq<Line>)
    requires forall i :: 0 <= i < |lines| ==> !lines[i].Unreadable? && !lines[i].HalfWritten?
    ensures Known(lines) == lines
  {
    if lines != [] {
      KnownOfRead(lines[1..]);
    }
  }

  /** What a probe tells is in the lines it has read, or it stops at one that
      tells nothing. */
  lemma {:induction false} TellingOfKnown(lines: seq<Line>, k: nat)
    requires k <= PROBED_LINES && k <= |Known(lines)|
    ensures FirstTelling(Known(lines), k).Some? ==> FirstTelling(lines, k) == FirstTelling(Known(lines), k)
    ensures FirstTelling(lines, k).Some? && FirstTelling(lines, k).value.SessionMeta? ==>
            FirstTelling(Known(lines), k) == FirstTelling(lines, k)
    decreases PROBED_LINES - k
  {
    KnownIsPrefix(lines);
    if k < PROBED_LINES && k < |Known(lines)| && lines[k].Record? {
      TellingOfKnown(lines, k + 1);
    }
  }

  lemma {:induction false} TellingOfPrefix(a: seq<Line>, b: seq<Line>, k: nat)
    requires a <= b && k <= PROBED_LINES
    ensures FirstTelling(a, k).Some? || |a| >= PROBED_LINES ==> FirstTelling(b, k) == FirstTelling(a, k)
    decreases PROBED_LINES - k
  {
    if k < PROBED_LINES && k < |a| && a[k].Record? {
      TellingOfPrefix(a, b, k + 1);
    }
  }

  lemma {:induction false} AllRecords(lines: seq<Line>, k: nat)
    requires k <= PROBED_LINES && |lines| < PROBED_LINES && FirstTelling(lines, k).None?
    requires forall i :: 0 <= i < k && i < |lines| ==> lines[i].Record?
    ensures forall i :: 0 <= i < |lines| ==> lines[i].Record?
    decreases PROBED_LINES - k
  {
    if k < |lines| {
      AllRecords(lines, k + 1);
    }
  }

  lemma {:induction false} TellsAfterRecords(lines: seq<Line>, k: nat)
    requires lines != [] && |lines| <= PROBED_LINES && k < |lines| && !lines[|lines|-1].Record?
    requires forall i :: 0 <= i < |lines| - 1 ==> lines[i].Record?
    ensures FirstTelling(lines, k) == Some(lines[|lines|-1])
    decreases |lines| - k
  {
    if k < |lines| - 1 {
      TellsAfterRecords(lines, k + 1);
    }
  }

  /** What an undecided rollout may turn out to be: the session's own. */
  function WithHeader(rollout: Option<seq<Line>>, session: Text): seq<Line> {
    (if rollout.Some? then Known(rollout.value) else []) + [SessionMeta(Some(session))]
  }

  lemma UndecidedMayTurn(rollout: Option<seq<Line>>, session: Text)
    requires !Decided(rollout)
    ensures MayBecome(rollout, Some(WithHeader(rollout, session))) && Names(WithHeader(rollout, session), session)
  {
    var known := if rollout.Some? then Known(rollout.value) else [];
    if rollout.Some? {
      KnownIsPrefix(rollout.value);
    }
    AllRecords(known, 0);
    KnownOfRead(WithHeader(rollout, session));
    TellsAfterRecords(WithHeader(rollout, session), 0);
  }

  lemma DecidedStays(was: Option<seq<Line>>, now: Option<seq<Line>>, session: Text)
    requires Decided(was) && MayBecome(was, now) && !Names(was.value, session)
    ensures now.Some? ==> !Names(now.value, session)
  {
    if now.Some? && Names(now.value, session) {
      TellingOfKnown(now.value, 0);
      TellingOfKnown(was.value, 0);
      if Known(was.value) <= Known(now.value) {
        TellingOfPrefix(Known(was.value), Known(now.value), 0);
      } else {
        TellingOfPrefix(Known(now.value), Known(was.value), 0);
      }
      assert false;
    }
  }

  /** A negative verdict is final exactly when the probe had decided. The cache
      relies on it; a rollout that could not be opened or read, or whose header
      was not there yet, is not decided. */
  lemma NegativeFinalIff(f: File, session: Text)
    requires !Ours(f, session)
    ensures Decided(f.rollout) <==>
            forall g: File :: MayBecome(f.rollout, g.rollout) ==> !Ours(g, session)
  {
    hide MayBecome, Decided, Names, WithHeader;
    if Decided(f.rollout) {
      forall g: File | MayBecome(f.rollout, g.rollout)
        ensures !Ours(g, session)
      {
        OpenedWhenDecided(f.rollout);
        DecidedStays(f.rollout, g.rollout, session);
      }
    } else {
      UndecidedMayTurn(f.rollout, session);
      var g := f.(rollout := Some(WithHeader(f.rollout, session)));
      assert Ours(g, session);
    }
  }

  lemma OpenedWhenDecided(rollout: Option<seq<Line>>)
    requires Decided(rollout)
    ensures rollout.Some?
  {
  }

  // ----- One walk -----

  const MAX_NATIVE_FILE: nat := 1024 * 1024 * 1024

  predicate EndsWith(name: Text, suffix: Text) {
    |suffix| <= |name| && name[|name| - |suffix|..] == suffix
  }

  predicate IsAt(name: Text, part: Text, k: nat) {
    k + |part| <= |name| && name[k..k + |part|] == part
  }

  predicate Contains(name: Text, part: Text) {
    exists k | 0 <= k <= |name| :: IsAt(name, part, k)
  }

  /** ".jsonl" */
  const JSONL: Text := [46, 106, 115, 111, 110, 108]
  /** ".jsonl.zst" */
  const JSONL_ZST: Text := [46, 106, 115, 111, 110, 108, 46, 122, 115, 116]

  predicate NamedFor(f: File, session: Text) {
    Contains(f.name, session) && (EndsWith(f.name, JSONL) || EndsWith(f.name, JSONL_ZST))
  }

  /** Last modified before the session can have existed. */
  predicate TooOld(f: File, floor: Option<int>) {
    floor.Some? && f.modified.Some? && f.modified.value < floor.value
  }

  /** Would be opened when nothing is remembered. */
  predicate Probed(f: File, session: Text, floor: Option<int>) {
    !NamedFor(f, session) && EndsWith(f.name, JSONL) && !TooOld(f, floor)
  }

  predicate Selected(f: File, session: Text, floor: Option<int>, known: set<Path>) {
    NamedFor(f, session) || (Probed(f, session, floor) && f.path !in known && Ours(f, session))
  }

  /** What a walk over `files` collects when the paths in `known` are taken to
      be other sessions' rollouts; nothing when the walk fails. */
  function Walked(files: seq<File>, session: Text, floor: Option<int>, known: set<Path>): Option<seq<File>> {
    if files == [] then Some([])
    else
      var f := files[|files|-1];
      match Walked(files[..|files|-1], session, floor, known)
      case None => None
      case Some(out) =>
        if !f.regular then None
        else if !Selected(f, session, floor, known) || f.secret then Some(out)
        else if f.size > MAX_NATIVE_FILE then None
        else Some(out + [f])
  }

  /** The rollouts a walk opened and found to be another session's. */
  function Rejected(files: seq<File>, session: Text, floor: Option<int>, known: set<Path>): set<Path> {
    set f | f in files && Probed(f, session, floor) && f.path !in known && !Ours(f, session) :: f.path
  }

  predicate DistinctPaths(files: seq<File>) {
    forall i, j :: 0 <= i < j < |files| ==> files[i].path != files[j].path
  }

  /** A remembered rollout that is the session's after all. */
  predicate Stale(f: File, session: Text, floor: Option<int>, known: set<Path>) {
    f.path in known && Probed(f, session, floor) && Ours(f, session) && !f.secret
  }

  lemma {:induction false} FreshWalk(files: seq<File>, session: Text, floor: Option<int>, known: set<Path>)
    requires forall f :: f in files ==> !Stale(f, session, floor, known)
    ensures Walked(files, session, floor, known) == Walked(files, session, floor, {})
  {
    hide NamedFor, TooOld, Ours;
    if files != [] {
      FreshWalk(files[..|files|-1], session, floor, known);
      assert !Stale(files[|files|-1], session, floor, known);
    }
  }

  lemma {:induction false} StaleWalk(files: seq<File>, session: Text, floor: Option<int>, known: set<Path>)
    requires Walked(files, session, floor, {}).Some?
    ensures Walked(files, session, floor, known).Some?
    ensures |Walked(files, session, floor, known).value| <= |Walked(files, session, floor, {}).value|
    ensures (exists f :: f in files && Stale(f, session, floor, known)) ==>
            |Walked(files, session, floor, known).value| < |Walked(files, session, floor, {}).value|
  {
    hide NamedFor, TooOld, Ours;
    if files != [] {
      StaleWalk(files[..|files|-1], session, floor, known);
      var last := files[|files|-1];
      assert forall f :: f in files ==> f == last || f in files[..|files|-1];
    }
  }

  /** A walk with a cache finds what a walk without one does exactly when no
      remembered rollout is the session's. */
  lemma SameWalkIff(files: seq<File>, session: Text, floor: Option<int>, known: set<Path>)
    requires Walked(files, session, floor, {}).Some?
    ensures Walked(files, session, floor, known) == Walked(files, session, floor, {}) <==>
            forall f :: f in files ==> !Stale(f, session, floor, known)
  {
    hide Walked, Stale;
    if forall f :: f in files ==> !Stale(f, session, floor, known) {
      FreshWalk(files, session, floor, known);
    } else {
      StaleWalk(files, session, floor, known);
    }
  }

  // ----- What an uncached walk collects, on the files themselves -----

  /** The file is the session's: by its name, or because it is a rollout no older
      than the session whose header names it. */
  predicate Belongs(f: File, session: Text, floor: Option<int>) {
    || ((exists k :: 0 <= k <= |f.name| && PieceAt(f.name, session, k)) &&
        (EndsIn(f.name, Ascii(".jsonl")) || EndsIn(f.name, Ascii(".jsonl.zst"))))
    || (EndsIn(f.name, Ascii(".jsonl")) && HeaderNames(f, session) &&
        !(floor.Some? && f.modified.Some? && f.modified.value < floor.value))
  }

  predicate Wanted(f: File, session: Text, floor: Option<int>) {
    Belongs(f, session, floor) && !f.secret
  }

  predicate PickedAt(files: seq<File>, session: Text, floor: Option<int>, f: File, i: nat) {
    i < |files| && f == files[i] && Wanted(f, session, floor)
  }

  /** `at` lists, in order, exactly the positions of the session's files that
      hold no secrets. */
  ghost predicate Picks(files: seq<File>, session: Text, floor: Option<int>, out: seq<File>, at: seq<nat>) {
    && |at| == |out|
    && (forall k :: 0 <= k < |at| ==> PickedAt(files, session, floor, out[k], at[k]))
    && (forall j, k :: 0 <= j < k < |at| ==> at[j] < at[k])
    && (forall i :: 0 <= i < |files| && Wanted(files[i], session, floor) ==> i in at)
  }

  ghost predicate CollectedFrom(files: seq<File>, session: Text, floor: Option<int>, out: seq<File>) {
    && (forall i :: 0 <= i < |files| ==> files[i].regular)
    && (forall i :: 0 <= i < |out| ==> out[i].size <= MAX_NATIVE_FILE)
    && exists at :: Picks(files, session, floor, out, at)
  }

  lemma NameWording()
    ensures Ascii(".jsonl") == JSONL && Ascii(".jsonl.zst") == JSONL_ZST
  {
  }

  lemma SelectedIff(f: File, session: Text, floor: Option<int>)
    ensures Selected(f, session, floor, {}) <==> Belongs(f, session, floor)
  {
    hide HeaderNames, Ours, Ascii;
    NameWording();
    OursIff(f, session);
    ContainsIff(f.name, session);
  }

  lemma ContainsIff(name: Text, part: Text)
    ensures Contains(name, part) <==> exists k :: 0 <= k <= |name| && PieceAt(name, part, k)
  {
    if Contains(name, part) {
      var k :| 0 <= k <= |name| && IsAt(name, part, k);
      assert PieceAt(name, part, k);
    }
    if k :| 0 <= k <= |name| && PieceAt(name, part, k) {
      assert IsAt(name, part, k);
    }
  }

  lemma PicksLonger(files: seq<File>, session: Text, floor: Option<int>, out: seq<File>, at: seq<nat>)
    requires files != [] && Picks(files[..|files|-1], session, floor, out, at)
    ensures var n := |files| - 1;
            if Wanted(files[n], session, floor)
            then Picks(files, session, floor, out + [files[n]], at + [n])
            else Picks(files, session, floor, out, at)
  {
    hide Wanted;
    var n := |files| - 1;
    var wanted := Wanted(files[n], session, floor);
    var more, all := if wanted then at + [n] else at, if wanted then out + [files[n]] else out;
    forall k | 0 <= k < |more|
      ensures PickedAt(files, session, floor, all[k], more[k])
    {
      if k < |at| {
        assert PickedAt(files[..n], session, floor, out[k], at[k]);
      }
    }
    forall i | 0 <= i < |files| && Wanted(files[i], session, floor)
      ensures i in more
    {
      if i < n {
        assert Wanted(files[..n][i], session, floor);
        assert i in at;
      } else {
        assert more[|at|] == n;
      }
    }
  }

  lemma PicksFront(files: seq<File>, session: Text, floor: Option<int>, out: seq<File>, at: seq<nat>)
    requires Picks(files, session, floor, out, at) && files != []
    ensures var n, m := |files| - 1, |at| - 1;
            if Wanted(files[n], session, floor)
            then at != [] && at[m] == n && out[m] == files[n] && Picks(files[..n], session, floor, out[..m], at[..m])
            else Picks(files[..n], session, floor, out, at)
  {
    hide Wanted;
    var n, m := |files| - 1, |at| - 1;
    if Wanted(files[n], session, floor) {
      assert n in at;
      assert at[m] == n;
      forall i | 0 <= i < n && Wanted(files[..n][i], session, floor)
        ensures i in at[..m]
      {
        assert Wanted(files[i], session, floor);
        var k :| 0 <= k < |at| && at[k] == i;
        assert at[..m][k] == i;
      }
    } else {
      forall i | 0 <= i < n && Wanted(files[..n][i], session, floor)
        ensures i in at
      {
        assert Wanted(files[i], session, floor);
      }
    }
  }

  lemma {:induction false} PicksOne(files: seq<File>, session: Text, floor: Option<int>, out: seq<File>, at: seq<nat>,
                                    other: seq<File>, bt: seq<nat>)
    requires Picks(files, session, floor, out, at) && Picks(files, session, floor, other, bt)
    ensures out == other
    decreases files
  {
    hide Wanted, Picks;
    PicksSized(files, session, floor, out, at);
    PicksSized(files, session, floor, other, bt);
    if files != [] {
      var n := |files| - 1;
      PicksFront(files, session, floor, out, at);
      PicksFront(files, session, floor, other, bt);
      if Wanted(files[n], session, floor) {
        var a, b := |at| - 1, |bt| - 1;
        PicksOne(files[..n], session, floor, out[..a], at[..a], other[..b], bt[..b]);
        assert out == out[..a] + [files[n]] && other == other[..b] + [files[n]];
      } else {
        PicksOne(files[..n], session, floor, out, at, other, bt);
      }
    }
  }

  lemma PicksSized(files: seq<File>, session: Text, floor: Option<int>, out: seq<File>, at: seq<nat>)
    requires Picks(files, session, floor, out, at)
    ensures |at| == |out| && (files == [] ==> out == [])
  {
    hide Wanted;
    if out != [] {
      assert PickedAt(files, session, floor, out[0], at[0]);
    }
  }

  lemma {:induction false} WalkedPicks(files: seq<File>, session: Text, floor: Option<int>) returns (out: seq<File>, at: seq<nat>)
    ensures Picks(files, session, floor, out, at)
    ensures Walked(files, session, floor, {}) ==
            if (forall i :: 0 <= i < |files| ==> files[i].regular) && (forall i :: 0 <= i < |out| ==> out[i].size <= MAX_NATIVE_FILE)
            then Some(out) else None
  {
    hide Belongs, Selected, Picks;
    if files == [] {
      out, at := [], [];
      PicksNone(session, floor);
    } else {
      var n := |files| - 1;
      var front;
      front, at := WalkedPicks(files[..n], session, floor);
      PicksLonger(files, session, floor, front, at);
      SelectedIff(files[n], session, floor);
      out := front;
      if Wanted(files[n], session, floor) {
        out, at := front + [files[n]], at + [n];
      }
      WalkedNext(files, session, floor, front, out);
    }
  }

  lemma PicksNone(session: Text, floor: Option<int>)
    ensures Picks([], session, floor, [], [])
  {
  }

  lemma WalkedNext(files: seq<File>, session: Text, floor: Option<int>, front: seq<File>, out: seq<File>)
    requires files != []
    requires Walked(files[..|files|-1], session, floor, {}) ==
             if (forall i :: 0 <= i < |files| - 1 ==> files[i].regular) && (forall i :: 0 <= i < |front| ==> front[i].size <= MAX_NATIVE_FILE)
             then Some(front) else None
    requires var f := files[|files|-1];
             out == if Selected(f, session, floor, {}) && !f.secret then front + [f] else front
    ensures Walked(files, session, floor, {}) ==
            if (forall i :: 0 <= i < |files| ==> files[i].regular) && (forall i :: 0 <= i < |out| ==> out[i].size <= MAX_NATIVE_FILE)
            then Some(out) else None
  {
    hide Selected;
    var f := files[|files|-1];
    assert (forall i :: 0 <= i < |files| ==> files[i].regular) <==> (forall i :: 0 <= i < |files| - 1 ==> files[i].regular) && f.regular;
    if Selected(f, session, floor, {}) && !f.secret {
      assert forall i :: 0 <= i < |front| ==> out[i] == front[i];
      assert out[|front|] == f;
    }
  }

  /** An uncached walk collects exactly the session's files, in order. */
  lemma WalkedIff(files: seq<File>, session: Text, floor: Option<int>, out: seq<File>)
    ensures Walked(files, session, floor, {}) == Some(out) <==> CollectedFrom(files, session, floor, out)
  {
    hide Walked, Picks;
    var those, at := WalkedPicks(files, session, floor);
    if CollectedFrom(files, session, floor, out) {
      var bt :| Picks(files, session, floor, out, bt);
      PicksOne(files, session, floor, out, bt, those, at);
    }
  }

  // ----- Exports over time -----

  const MAX_NATIVE_TOTAL: nat := 8 * 1024 * 1024 * 1024

  /** The session and what the walk meets at the time of one export. */
  datatype Export = Export(session: Text, files: seq<File>, allowEmpty: bool)

  /** The cache file: absent, not a cache, or the last one saved. */
  datatype Stored = Absent | Garbled | Saved(session: Text, notOurs: set<Path>)

  /** Saving may fail and leave the old file or a broken one behind. */
  datatype Saving = Succeeds | FailsKeeping | FailsGarbling

  function TotalSize(files: seq<File>): nat {
    if files == [] then 0 else TotalSize(files[..|files|-1]) + files[|files|-1].size
  }

  method SumOf(files: seq<File>) returns (total: nat)
    ensures total == TotalSize(files)
  {
    total := 0;
    for k := 0 to |files|
      invariant total == TotalSize(files[..k])
    {
      assert files[..k+1][..k] == files[..k];
      total := total + files[k].size;
    }
    assert files[..|files|] == files;
  }

  function Checked(walked: Option<seq<File>>, allowEmpty: bool): Option<seq<File>> {
    match walked
    case None => None
    case Some(out) => if (allowEmpty || out != []) && TotalSize(out) <= MAX_NATIVE_TOTAL then Some(out) else None
  }

  /** What the export collects when it opens every rollout it has to. */
  function Uncached(e: Export, floor: Text -> Option<int>): Option<seq<File>> {
    Checked(Walked(e.files, e.session, floor(e.session), {}), e.allowEmpty)
  }

  /** The export would open the rollout and find that it is not the session's. */
  predicate Rejects(e: Export, f: File, floor: Text -> Option<int>) {
    f in e.files && Probed(f, e.session, floor(e.session)) && !Ours(f, e.session)
  }

  /** Once a rollout is rejected for a session, it stays another's. */
  ghost predicate NegativeStays(exports: seq<Export>, floor: Text -> Option<int>) {
    forall i, j, f, g ::
      (0 <= i <= j < |exports| && exports[i].session == exports[j].session &&
       Rejects(exports[i], f, floor) && g in exports[j].files && f.path == g.path)
      ==> !Ours(g, exports[j].session)
  }

  /** Rollouts change only as later probes may find them, and every probe that
      rejects one had decided. */
  ghost predicate ProbesDecide(exports: seq<Export>, floor: Text -> Option<int>) {
    && (forall i, j, f, g ::
          (0 <= i <= j < |exports| && f in exports[i].files && g in exports[j].files && f.path == g.path)
          ==> MayBecome(f.rollout, g.rollout))
    && (forall i, f :: 0 <= i < |exports| && Rejects(exports[i], f, floor) ==> Decided(f.rollout))
  }

  /** That is enough for the cache. */
  lemma DecidedProbesStay(exports: seq<Export>, floor: Text -> Option<int>)
    requires ProbesDecide(exports, floor)
    ensures NegativeStays(exports, floor)
  {
    hide MayBecome, Decided, Ours, Probed;
    forall i, j, f, g |
      0 <= i <= j < |exports| && exports[i].session == exports[j].session &&
      Rejects(exports[i], f, floor) && g in exports[j].files && f.path == g.path
      ensures !Ours(g, exports[j].session)
    {
      assert Decided(f.rollout);
      NegativeFinalIff(f, exports[i].session);
    }
  }

  /** From export `from` on, what is stored never hides a rollout. */
  ghost predicate Honest(stored: Stored, exports: seq<Export>, from: nat) {
    stored.Saved? ==>
      forall j, g ::
        (from <= j < |exports| && exports[j].session == stored.session &&
         g in exports[j].files && g.path in stored.notOurs)
        ==> !Ours(g, exports[j].session)
  }

  lemma StillHonest(stored: Stored, exports: seq<Export>, from: nat)
    requires Honest(stored, exports, from)
    ensures Honest(stored, exports, from + 1)
  {
    hide Ours;
  }

  lemma RememberedHonest(known: set<Path>, floor: Text -> Option<int>, exports: seq<Export>, at: nat)
    requires at < |exports| && NegativeStays(exports, floor)
    requires Honest(Saved(exports[at].session, known), exports, at)
    ensures var e := exports[at];
            Honest(Saved(e.session, known + Rejected(e.files, e.session, floor(e.session), known)), exports, at)
  {
    hide Ours, Probed;
  }

  /** What the stored cache says for a session. */
  function Remembered(stored: Stored, session: Text): set<Path> {
    match stored
    case Saved(s, ps) => if s == session then ps else {}
    case _ => {}
  }

  lemma SameSize(known: set<Path>, notOurs: set<Path>)
    requires known <= notOurs && |known| == |notOurs|
    ensures known == notOurs
  {
    if known != notOurs {
      var extra :| extra in notOurs && extra !in known;
      SubsetSize(known, notOurs - {extra});
    }
  }

  lemma {:induction false} SubsetSize(small: set<Path>, big: set<Path>)
    requires small <= big
    ensures |small| <= |big|
  {
    if small != {} {
      var x :| x in small;
      SubsetSize(small - {x}, big - {x});
    }
  }

  lemma RejectedSplit(files: seq<File>, session: Text, floor: Option<int>, known: set<Path>)
    ensures Rejected(files, session, floor, {}) <= known + Rejected(files, session, floor, known)
  {
    hide Probed, Ours;
  }

  method LoadCache(stored: Stored, session: Text) returns (known: set<Path>)
    ensures known == Remembered(stored, session)
  {
    match stored
    case Absent => known := {};
    case Garbled => known := {};
    case Saved(s, ps) => known := if s == session then ps else {};
  }

  lemma RejectedSnoc(files: seq<File>, k: nat, session: Text, floor: Option<int>, known: set<Path>)
    requires k < |files| && DistinctPaths(files)
    ensures var f := files[k];
            Rejected(files[..k+1], session, floor, known) ==
            Rejected(files[..k], session, floor, known) +
            (if Probed(f, session, floor) && f.path !in known && !Ours(f, session) then {f.path} else {})
    ensures files[k].path !in Rejected(files[..k], session, floor, known)
  {
    hide Probed, Ours;
    assert files[..k+1] == files[..k] + [files[k]];
  }

  /** The walk with the cache, which grows as the walk goes. */
  method CollectCached(files: seq<File>, session: Text, floor: Option<int>, known: set<Path>)
      returns (walked: Option<seq<File>>, notOurs: set<Path>)
    requires DistinctPaths(files)
    ensures walked == Walked(files, session, floor, known)
    ensures walked.Some? ==> notOurs == known + Rejected(files, session, floor, known)
  {
    hide Probed, NamedFor, Ours, Rejected;
    var out := [];
    notOurs := known;
    assert Rejected(files[..0], session, floor, known) == {} by { NothingRejected(session, floor, known); }
    for k := 0 to |files|
      invariant Walked(files[..k], session, floor, known) == Some(out)
      invariant notOurs == known + Rejected(files[..k], session, floor, known)
    {
      var f := files[k];
      assert files[..k+1][..k] == files[..k];
      RejectedSnoc(files, k, session, floor, known);
      if !f.regular {
        FailureLasts(files, k + 1, session, floor, known);
        return None, notOurs;
      }
      ProbedIsUnnamed(f, session, floor);
      var selected := NamedFor(f, session);
      if !selected && Probed(f, session, floor) && f.path !in notOurs {
        selected := HasSessionId(f, session);
        if !selected {
          notOurs := notOurs + {f.path};
        }
      }
      assert selected == Selected(f, session, floor, known);
      if selected && !f.secret {
        if f.size > MAX_NATIVE_FILE {
          FailureLasts(files, k + 1, session, floor, known);
          return None, notOurs;
        }
        out := out + [f];
      }
    }
    assert files[..|files|] == files;
    walked := Some(out);
  }

  lemma ProbedIsUnnamed(f: File, session: Text, floor: Option<int>)
    ensures Probed(f, session, floor) ==> !NamedFor(f, session)
  {
    hide NamedFor;
  }

  lemma NothingRejected(session: Text, floor: Option<int>, known: set<Path>)
    ensures Rejected([], session, floor, known) == {}
  {
  }

  lemma {:induction false} FailureLasts(files: seq<File>, k: nat, session: Text, floor: Option<int>, known: set<Path>)
    requires k <= |files| && Walked(files[..k], session, floor, known).None?
    ensures Walked(files, session, floor, known).None?
    decreases |files| - k
  {
    if k == |files| {
      assert files[..k] == files;
    } else {
      assert files[..k+1][..k] == files[..k];
      FailureLasts(files, k + 1, session, floor, known);
    }
  }

  /** The relay root, which holds the cache file. */
  class RelayRoot {
    var stored: Stored

    /** One export: it collects what an export without a cache would, or fails
        because the cache could not be saved. After a success the stored cache
        knows every rollout that had to be opened in vain. */
    method Collect(exports: seq<Export>, at: nat, floor: Text -> Option<int>, saving: Saving)
        returns (collected: Option<seq<File>>, saveFailed: bool)
      requires at < |exports| && NegativeStays(exports, floor) && DistinctPaths(exports[at].files)
      requires Honest(stored, exports, at)
      modifies this
      ensures Honest(stored, exports, at + 1)
      ensures saveFailed ==> saving != Succeeds
      ensures !saveFailed ==> collected == Uncached(exports[at], floor)
      ensures saveFailed ==> collected.None?
      ensures collected.Some? ==>
        var e := exports[at];
        CollectedFrom(e.files, e.session, floor(e.session), collected.value)
      ensures var e := exports[at];
              collected.Some? ==> Rejected(e.files, e.session, floor(e.session), {}) <= Remembered(stored, e.session)
    {
      hide Walked, Rejected, NegativeStays, Honest, CollectedFrom;
      var e := exports[at];
      var known := LoadCache(stored, e.session);
      KnownHonest(stored, e.session, known, exports, at);
      var walked, notOurs := CollectCached(e.files, e.session, floor(e.session), known);
      NoneStale(known, floor(e.session), exports, at);
      FreshWalk(e.files, e.session, floor(e.session), known);
      collected, saveFailed := None, false;
      if walked.Some? && (e.allowEmpty || walked.value != []) {
        var total := SumOf(walked.value);
        collected := if total <= MAX_NATIVE_TOTAL then walked else None;
      }
      assert collected == Checked(walked, e.allowEmpty);
      if collected.Some? {
        WalkedIff(e.files, e.session, floor(e.session), collected.value);
      }
      StillHonest(stored, exports, at);
      RejectedSplit(e.files, e.session, floor(e.session), known);
      if collected.Some? && |notOurs| == |known| {
        SameSize(known, notOurs);
      }
      if collected.Some? && |notOurs| != |known| {
        RememberedHonest(known, floor, exports, at);
        match saving
        case Succeeds =>
          stored := Saved(e.session, notOurs);
          StillHonest(stored, exports, at);
        case FailsKeeping =>
          collected, saveFailed := None, true;
        case FailsGarbling =>
          stored := Garbled;
          collected, saveFailed := None, true;
          GarbledHonest(exports, at + 1);
      }
    }

    /** Every run of exports, for any sessions, collects what exports without a
        cache would. The cache file may be missing, broken or another session's
        to begin with, but must not itself hide a rollout. */
    method Exports(exports: seq<Export>, floor: Text -> Option<int>, savings: seq<Saving>)
        returns (results: seq<Option<seq<File>>>, saveFailures: seq<bool>)
      requires NegativeStays(exports, floor) && |savings| == |exports|
      requires forall i :: 0 <= i < |exports| ==> DistinctPaths(exports[i].files)
      requires Honest(stored, exports, 0)
      modifies this
      ensures |results| == |saveFailures| == |exports|
      ensures forall i :: 0 <= i < |exports| && !saveFailures[i] ==> results[i] == Uncached(exports[i], floor)
      ensures forall i :: 0 <= i < |exports| && savings[i] == Succeeds ==> !saveFailures[i]
      // and what that is: the session's files, all of them and in order
      ensures forall i :: 0 <= i < |exports| && results[i].Some? ==>
        var e := exports[i];
        CollectedFrom(e.files, e.session, floor(e.session), results[i].value)
    {
      hide CollectedFrom;
      hide Honest, NegativeStays, Uncached, DistinctPaths;
      results, saveFailures := [], [];
      for k := 0 to |exports|
        invariant |results| == |saveFailures| == k
        invariant Honest(stored, exports, k)
        invariant forall i :: 0 <= i < k && !saveFailures[i] ==> results[i] == Uncached(exports[i], floor)
        invariant forall i :: 0 <= i < k && savings[i] == Succeeds ==> !saveFailures[i]
        invariant forall i :: 0 <= i < k && results[i].Some? ==>
          CollectedFrom(exports[i].files, exports[i].session, floor(exports[i].session), results[i].value)
      {
        var collected, saveFailed := Collect(exports, k, floor, savings[k]);
        results, saveFailures := results + [collected], saveFailures + [saveFailed];
      }
    }
  }

  lemma KnownHonest(stored: Stored, session: Text, known: set<Path>, exports: seq<Export>, at: nat)
    requires Honest(stored, exports, at)
    requires known == Remembered(stored, session)
    ensures Honest(Saved(session, known), exports, at)
  {
    hide Ours;
  }

  lemma GarbledHonest(exports: seq<Export>, at: nat)
    ensures Honest(Garbled, exports, at)
  {
  }

  lemma NoneStale(known: set<Path>, floor: Option<int>, exports: seq<Export>, at: nat)
    requires at < |exports| && Honest(Saved(exports[at].session, known), exports, at)
    ensures forall f :: f in exports[at].files ==> !Stale(f, exports[at].session, floor, known)
  {
    hide Ours, Probed;
  }

  /** Every rollout rejected undecided can be lost: it is remembered as another
      session's, and a later walk hides it though it is the session's now. */
  lemma UndecidedRolloutLost(f: File, session: Text, floor: Option<int>) returns (later: File)
    requires f.regular && !f.secret && f.size <= MAX_NATIVE_FILE
    requires Probed(f, session, floor) && !Ours(f, session) && !Decided(f.rollout)
    ensures later == f.(rollout := later.rollout) && MayBecome(f.rollout, later.rollout)
    ensures Rejected([f], session, floor, {}) == {f.path}
    ensures Walked([later], session, floor, {}) == Some([later])
    ensures Walked([later], session, floor, {f.path}) == Some([])
  {
    hide MayBecome, Decided, Names, WithHeader, NamedFor;
    later := f.(rollout := Some(WithHeader(f.rollout, session)));
    UndecidedMayTurn(f.rollout, session);
    SameName(f, later, session);
    assert f in [f];
    WalkedOne(later, session, floor, {});
    WalkedOne(later, session, floor, {f.path});
  }

  lemma SameName(f: File, g: File, session: Text)
    requires f.name == g.name
    ensures NamedFor(f, session) == NamedFor(g, session)
  {
  }

  /** A rollout that cannot be opened, that cannot be read, whose first line is
      half written, or that has no line yet: four ways to lose one. */
  lemma FourRolloutsLost(path: Path, session: Text, k: nat) returns (young: File, later: File)
    requires !Contains(JSONL, session) && k < 4
    ensures young == File(path, JSONL, true, None, [None, Some([Unreadable]), Some([HalfWritten]), Some([])][k], false, 0)
    ensures later.path == path && MayBecome(young.rollout, later.rollout)
    ensures Rejected([young], session, None, {}) == {path}
    ensures Walked([later], session, None, {}) == Some([later])
    ensures Walked([later], session, None, {path}) == Some([])
  {
    hide Contains, MayBecome, Walked, Rejected;
    young := File(path, JSONL, true, None, [None, Some([Unreadable]), Some([HalfWritten]), Some([])][k], false, 0);
    later := UndecidedRolloutLost(young, session, None);
  }

  lemma WalkedOne(f: File, session: Text, floor: Option<int>, known: set<Path>)
    requires f.regular && !f.secret && f.size <= MAX_NATIVE_FILE
    ensures Walked([f], session, floor, known) == Some(if Selected(f, session, floor, known) then [f] else [])
  {
    hide Selected;
    assert [f][..|[f]|-1] == [];
    assert [] + [f] == [f];
  }
}
