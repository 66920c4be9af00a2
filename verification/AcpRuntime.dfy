/** Restarting ACP bridges around one native session. */
module AcpRuntime {
  import opened Text
  import opened AcpSession

  const RAPID_BRIDGE_RESTART_LIMIT: nat := 3
  const RAPID_BRIDGE_WINDOW_MS: nat := 5_000

  /** Everything the world does to one bridge. `answered` is the native id a new
      session gets, or nothing when opening or loading fails; `setUp` is whether
      execution mode and start-up events went through; `died` is whether the
      child or the protocol failed whatever the command loop did. */
  datatype Attempt = Attempt(
    answered: Option<string>, setUp: bool, script: seq<Stimulus>, capacity: nat, died: bool,
    childReaped: bool, cleanedUp: bool, stderrRead: bool, ageMs: nat, restartReported: bool)

  datatype Drive = Ended | WantsRestart | Failed

  datatype BridgeResult =
    | Finished
    | StartupFailed
    | Restart(unexpected: bool)

  /** `run_bridge`, from what the connection returned to what the loop sees. A
      clean end still becomes a restart when cleaning up after it fails. */
  function BridgeOutcome(drive: Drive, isOpen: bool, a: Attempt): BridgeResult {
    var restarting := drive.WantsRestart? || (drive.Failed? && isOpen);
    var cleaned := if !a.childReaped && !restarting && !a.cleanedUp then Failed else drive;
    var final := if a.stderrRead then cleaned else Failed;
    match final
    case Ended => Finished
    case WantsRestart => Restart(false)
    case Failed => if isOpen then Restart(true) else StartupFailed
  }

  /** How a bridge opened its session. */
  datatype Opening = Created(native: string) | Loaded(native: string)

  datatype Exit = Exit(unexpected: bool, ageMs: nat)

  predicate Rapid(e: Exit) {
    e.unexpected && e.ageMs < RAPID_BRIDGE_WINDOW_MS
  }

  predicate LongLived(e: Exit) {
    e.unexpected && e.ageMs >= RAPID_BRIDGE_WINDOW_MS
  }

  // ----- Giving up -----

  /** Rapid unexpected exits since the last longer-lived unexpected one; planned
      restarts neither count nor reset. */
  function Streak(exits: seq<Exit>): nat {
    if exits == [] then 0
    else
      var last := exits[|exits|-1];
      if Rapid(last) then Streak(exits[..|exits|-1]) + 1
      else if LongLived(last) then 0
      else Streak(exits[..|exits|-1])
  }

  predicate NoLongLived(exits: seq<Exit>, i: nat, k: nat)
    requires i <= k < |exits|
  {
    forall m :: i <= m <= k ==> !LongLived(exits[m])
  }

  /** Exit `k` is the third rapid one with no longer-lived one between. */
  ghost predicate ThirdRapid(exits: seq<Exit>, k: nat)
    requires k < |exits|
  {
    exists i, j :: 0 <= i < j < k && Rapid(exits[i]) && Rapid(exits[j]) && Rapid(exits[k]) && NoLongLived(exits, i, k)
  }

  lemma NotBoth(e: Exit)
    ensures !(Rapid(e) && LongLived(e))
  {
  }

  lemma {:induction false} StreakOne(exits: seq<Exit>)
    ensures Streak(exits) >= 1 <==> exists i :: 0 <= i < |exits| && Rapid(exits[i]) && NoLongLived(exits, i, |exits| - 1)
  {
    if exits != [] {
      var n := |exits| - 1;
      var front := exits[..n];
      StreakOne(front);
      if Streak(front) >= 1 && !LongLived(exits[n]) {
        var i :| 0 <= i < |front| && Rapid(front[i]) && NoLongLived(front, i, |front| - 1);
        assert Rapid(exits[i]) && NoLongLived(exits, i, n);
      }
      if Rapid(exits[n]) {
        assert NoLongLived(exits, n, n);
      }
      if i :| 0 <= i < |exits| && Rapid(exits[i]) && NoLongLived(exits, i, n) {
        assert !LongLived(exits[n]);
        if i < n {
          assert Rapid(front[i]) && NoLongLived(front, i, n - 1);
        }
      }
    }
  }

  lemma {:induction false} StreakTwo(exits: seq<Exit>)
    ensures Streak(exits) >= 2 <==>
            exists i, j :: 0 <= i < j < |exits| && Rapid(exits[i]) && Rapid(exits[j]) && NoLongLived(exits, i, |exits| - 1)
  {
    hide Rapid;
    if exits != [] {
      var n := |exits| - 1;
      var front := exits[..n];
      StreakOne(front);
      StreakTwo(front);
      NotBoth(exits[n]);
      if Streak(exits) >= 2 {
        if Rapid(exits[n]) {
          var i :| 0 <= i < |front| && Rapid(front[i]) && NoLongLived(front, i, |front| - 1);
          assert Rapid(exits[i]) && NoLongLived(exits, i, n);
        } else {
          var i, j :| 0 <= i < j < |front| && Rapid(front[i]) && Rapid(front[j]) && NoLongLived(front, i, |front| - 1);
          assert Rapid(exits[i]) && Rapid(exits[j]) && NoLongLived(exits, i, n);
        }
      }
      if i, j :| 0 <= i < j < |exits| && Rapid(exits[i]) && Rapid(exits[j]) && NoLongLived(exits, i, n) {
        assert !LongLived(exits[n]);
        assert Rapid(front[i]) && NoLongLived(front, i, n - 1);
        if j < n {
          assert Rapid(front[j]);
        }
      }
    }
  }

  /** Counting streaks and looking for a third rapid exit agree. */
  lemma GiveUpIff(exits: seq<Exit>)
    requires exits != [] && Rapid(exits[|exits|-1])
    ensures Streak(exits) >= RAPID_BRIDGE_RESTART_LIMIT <==> ThirdRapid(exits, |exits| - 1)
  {
    var n := |exits| - 1;
    var front := exits[..n];
    StreakTwo(front);
    if Streak(exits) >= RAPID_BRIDGE_RESTART_LIMIT {
      var i, j :| 0 <= i < j < |front| && Rapid(front[i]) && Rapid(front[j]) && NoLongLived(front, i, |front| - 1);
      assert Rapid(exits[i]) && Rapid(exits[j]) && NoLongLived(exits, i, n);
    }
    if ThirdRapid(exits, n) {
      var i, j :| 0 <= i < j < n && Rapid(exits[i]) && Rapid(exits[j]) && Rapid(exits[n]) && NoLongLived(exits, i, n);
      assert Rapid(front[i]) && Rapid(front[j]) && NoLongLived(front, i, n - 1);
    }
  }

  // ----- The restart loop -----

  datatype RunEnd =
    | Stopped
    | NeverOpened
    | GaveUp
    | ReportFailed
    | StillRunning

  /** Only the first bridge may create a session, and only when nothing was to
      be resumed; all the others load the id first opened. */
  predicate OneNativeSession(resume: Option<string>, openings: seq<Opening>) {
    && (openings != [] && resume.Some? ==> openings[0] == Loaded(resume.value))
    && forall k :: 0 < k < |openings| ==> openings[k] == Loaded(openings[0].native)
  }

  ghost predicate NeverThird(exits: seq<Exit>) {
    forall k :: 0 <= k < |exits| ==> !ThirdRapid(exits, k)
  }

  lemma NeverThirdSnoc(exits: seq<Exit>, e: Exit)
    requires NeverThird(exits) && !ThirdRapid(exits + [e], |exits|)
    ensures NeverThird(exits + [e])
  {
    var more := exits + [e];
    forall k | 0 <= k < |exits| ensures !ThirdRapid(more, k) {
      if ThirdRapid(more, k) {
        var i, j :| 0 <= i < j < k && Rapid(more[i]) && Rapid(more[j]) && Rapid(more[k]) && NoLongLived(more, i, k);
        assert Rapid(exits[i]) && Rapid(exits[j]) && Rapid(exits[k]);
        assert forall m :: i <= m <= k ==> exits[m] == more[m];
        assert NoLongLived(exits, i, k);
        assert ThirdRapid(exits, k);
      }
    }
  }

  lemma StreakNone()
    ensures Streak([]) == 0
  {
  }

  lemma StreakSnoc(exits: seq<Exit>, e: Exit)
    ensures Streak(exits + [e]) == if Rapid(e) then Streak(exits) + 1 else if LongLived(e) then 0 else Streak(exits)
  {
    assert (exits + [e])[..|exits|] == exits;
  }

  lemma NotThird(exits: seq<Exit>)
    requires exits != []
    ensures !Rapid(exits[|exits|-1]) ==> !ThirdRapid(exits, |exits| - 1)
  {
  }

  /** All that `lefts` says is unanswered. */
  function AllIds(lefts: seq<Left>): multiset<Id> {
    if lefts == [] then multiset{} else AllIds(lefts[..|lefts|-1]) + Ids(Outstanding(lefts[|lefts|-1].rest))
  }

  /** Where a bridge left its session, and how many stimuli it had heard. */
  datatype Left = Left(rest: Rest, heard: nat)

  /** A bridge that served nothing. */
  const UNSERVED := Left(Broken(NOTHING), 0)

  /** How a bridge ends, from what happened to it: an opened one restarts unless
      it was closed, all went well and it was cleaned up after. */
  predicate EndsAs(a: Attempt, rest: Rest, result: BridgeResult) {
    var served := a.answered.Some? && a.setUp && !a.died && a.stderrRead;
    match result
    case StartupFailed => a.answered.None?
    case Finished => served && rest.Closed? && (a.childReaped || a.cleanedUp)
    case Restart(unexpected) =>
      && a.answered.Some?
      && unexpected == !(served && rest.Restarting?)
      && !(served && rest.Closed? && (a.childReaped || a.cleanedUp))
  }

  /** What bridges abandoned is what they left. */
  predicate LeftInAll(before: multiset<Id>, lefts: seq<Left>, after: multiset<Id>) {
    after == before + AllIds(lefts)
  }

  lemma LeftInAllNext(first: multiset<Id>, lefts: seq<Left>, before: multiset<Id>, left: Left, after: multiset<Id>)
    requires LeftInAll(first, lefts, before) && after == before + Ids(Outstanding(left.rest))
    ensures LeftInAll(first, lefts + [left], after)
  {
    hide Ids;
    assert (lefts + [left])[..|lefts|] == lefts;
  }

  /** Nothing, or a steer that a received cancel asked for. */
  predicate OnlySteer(left: Left, script: seq<Stimulus>) {
    var owed := Outstanding(left.rest);
    owed.running == None && owed.current == None && AskedToSteer(script, left.heard, owed.steer)
  }

  /** A bridge that was asked to end, or that restarts by plan, leaves nothing
      but a steer unanswered; one that never opened leaves nothing. */
  predicate LeftBy(result: BridgeResult, a: Attempt, left: Left) {
    match result
    case Finished => OnlySteer(left, a.script)
    case Restart(unexpected) => !unexpected ==> OnlySteer(left, a.script)
    case StartupFailed => Outstanding(left.rest) == NOTHING
  }

  /** Every command of `served` was answered or is left. */
  ghost predicate Settles(served: seq<Id>, before: multiset<Id>, after: multiset<Id>, left: Owed) {
    multiset(served) + before == after + Ids(left)
  }

  /** Serve commands until the bridge is done, and leave what it still owes. */
  method Serve(session: Session, a: Attempt) returns (rest: Rest, ghost served: seq<Id>, ghost heard: nat)
    requires session.Balanced(NOTHING)
    modifies session
    ensures session.Balanced(NOTHING)
    ensures session.received == old(session.received) + served
    ensures session.abandoned == old(session.abandoned) + Ids(Outstanding(rest))
    ensures Settles(served, Books(old(session.trace)).answers, Books(session.trace).answers, Outstanding(rest))
    ensures heard <= |a.script| && served == Taken(a.script, 0, heard)
    ensures rest.Restarting? || rest.Closed? ==> OnlySteer(Left(rest, heard), a.script)
    ensures Traced(session.Options(), old(session.trace), session.trace, a.script, heard, rest)
  {
    hide Books, Session.Balanced, Taken, AskedToSteer, Ids, OnceEach, Traced, Verdicts;
    session.Conserved();
    session.Limit(a.capacity);
    var next;
    next, rest := session.ServeSession(a.script);
    served, heard := Taken(a.script, 0, next), next;
    session.Abandon(Outstanding(rest));
    session.Conserved();
    ServedOrLeft(old(session.received), served, Books(old(session.trace)).answers, old(session.abandoned),
                 Books(session.trace).answers, Outstanding(rest));
  }

  lemma ServedOrLeft(before: seq<Id>, served: seq<Id>, answered: multiset<Id>, abandoned: multiset<Id>,
                     answers: multiset<Id>, left: Owed)
    requires multiset(before) == answered + abandoned
    requires multiset(before + served) == answers + (abandoned + Ids(left))
    ensures Settles(served, answered, answers, left)
  {
    hide Ids;
    forall id
      ensures (multiset(served) + answered)[id] == (answers + Ids(left))[id]
    {
      assert multiset(before + served)[id] == multiset(before)[id] + multiset(served)[id];
    }
  }

  /** One bridge process: open or load the session, serve commands, and say how
      it ended. */
  method RunBridge(session: Session, resume: Option<string>, a: Attempt)
    returns (result: BridgeResult, opening: Option<Opening>, ghost served: seq<Id>, ghost left: Left)
    requires session.Balanced(NOTHING)
    modifies session
    ensures session.Balanced(NOTHING)
    ensures session.received == old(session.received) + served
    // every command this bridge took was answered by it or is left
    ensures session.abandoned == old(session.abandoned) + Ids(Outstanding(left.rest))
    ensures left.heard <= |a.script| && served == Taken(a.script, 0, left.heard)
    ensures Settles(served, Books(old(session.trace)).answers, Books(session.trace).answers, Outstanding(left.rest))
    ensures LeftBy(result, a, left)
    // what it sent is what the stimuli it heard call for, and how it ends
    // follows from where they led and what happened to it
    ensures if a.answered.Some? && a.setUp
            then Traced(session.Options(), old(session.trace), session.trace, a.script, left.heard, left.rest)
            else session.trace == old(session.trace) && left == UNSERVED
    ensures EndsAs(a, left.rest, result)
    ensures opening.Some? <==> a.answered.Some?
    ensures opening.Some? && resume.Some? ==> opening.value == Loaded(resume.value)
    ensures opening.Some? && resume.None? ==> opening.value == Created(a.answered.value)
    ensures result.Restart? ==> opening.Some?
    ensures result.StartupFailed? ==> opening.None?
  {
    hide Books, Session.Balanced, Ids, OnlySteer, Settles, Traced;
    opening, served, left := None, [], UNSERVED;
    NothingLeft(a.script, Books(session.trace).answers);
    TakenNone(a.script, 0);
    var drive := Failed;
    if a.answered.Some? {
      opening := Some(match resume case Some(r) => Loaded(r) case None => Created(a.answered.value));
      if a.setUp {
        var rest;
        ghost var heard;
        rest, served, heard := Serve(session, a);
        left := Left(rest, heard);
        drive := if a.died then Failed else match rest
          case Restarting(_) => WantsRestart
          case Closed(_) => Ended
          case _ => Failed;
      }
    }
    result := BridgeOutcome(drive, opening.Some?, a);
  }

  lemma NothingLeft(script: seq<Stimulus>, answers: multiset<Id>)
    ensures OnlySteer(UNSERVED, script) && Ids(NOTHING) == multiset{} && Settles([], answers, answers, NOTHING)
  {
    assert multiset([]) + answers == answers + multiset{};
  }

  lemma NoneLeft()
    ensures forall b: multiset<Id> :: LeftInAll(b, [], b)
    ensures Ids(NOTHING) == multiset{}
  {
  }

  lemma NoLefts(attempts: seq<Attempt>)
    ensures LeftsOk([], [], attempts)
  {
  }

  lemma NoExits(attempts: seq<Attempt>)
    ensures Exiting([], [], attempts)
  {
  }

  lemma NeverThirdNone()
    ensures NeverThird([])
  {
  }

  /** One entry per bridge: after a planned exit at most a steer is left, and a
      last bridge that finished or never opened leaves no more. */
  ghost predicate LeftsOk(exits: seq<Exit>, lefts: seq<Left>, attempts: seq<Attempt>) {
    && |exits| <= |lefts| <= |exits| + 1 && |lefts| <= |attempts|
    && (forall k :: 0 <= k < |exits| && !exits[k].unexpected ==> OnlySteer(lefts[k], attempts[k].script))
    && (|lefts| == |exits| + 1 ==> OnlySteer(lefts[|exits|], attempts[|exits|].script))
  }

  /** The exits and the end of a run, from what happened to its bridges. */
  ghost predicate Exited(exits: seq<Exit>, lefts: seq<Left>, attempts: seq<Attempt>, end: RunEnd) {
    && |exits| <= |lefts| <= |attempts|
    && (forall k :: 0 <= k < |exits| ==>
          EndsAs(attempts[k], lefts[k].rest, Restart(exits[k].unexpected)) && exits[k].ageMs == attempts[k].ageMs)
    && match end
       case Stopped => |lefts| == |exits| + 1 && EndsAs(attempts[|exits|], lefts[|exits|].rest, Finished)
       case NeverOpened => |lefts| == |exits| + 1 && EndsAs(attempts[|exits|], lefts[|exits|].rest, StartupFailed)
       case GaveUp => 0 < |lefts| == |exits|
       case ReportFailed => 0 < |lefts| == |exits| && !attempts[|exits|-1].restartReported
       case StillRunning => |lefts| == |exits| == |attempts|
  }

  /** The exits so far, with a restart after each. */
  ghost predicate Exiting(exits: seq<Exit>, lefts: seq<Left>, attempts: seq<Attempt>) {
    && |exits| == |lefts| <= |attempts|
    && forall k :: 0 <= k < |exits| ==>
         EndsAs(attempts[k], lefts[k].rest, Restart(exits[k].unexpected)) && exits[k].ageMs == attempts[k].ageMs
  }

  lemma ExitsNext(exits: seq<Exit>, lefts: seq<Left>, attempts: seq<Attempt>, result: BridgeResult, left: Left)
    requires Exiting(exits, lefts, attempts) && |lefts| < |attempts| && EndsAs(attempts[|lefts|], left.rest, result)
    ensures result.Restart? ==> Exiting(exits + [Exit(result.unexpected, attempts[|lefts|].ageMs)], lefts + [left], attempts)
    ensures result.Finished? ==> Exited(exits, lefts + [left], attempts, Stopped)
    ensures result.StartupFailed? ==> Exited(exits, lefts + [left], attempts, NeverOpened)
  {
    hide EndsAs;
  }

  lemma ExitsEnd(exits: seq<Exit>, lefts: seq<Left>, attempts: seq<Attempt>)
    requires Exiting(exits, lefts, attempts)
    ensures exits != [] ==> Exited(exits, lefts, attempts, GaveUp)
    ensures exits != [] && !attempts[|exits|-1].restartReported ==> Exited(exits, lefts, attempts, ReportFailed)
    ensures |exits| == |attempts| ==> Exited(exits, lefts, attempts, StillRunning)
  {
    hide EndsAs;
  }

  lemma LeftsNext(exits: seq<Exit>, lefts: seq<Left>, attempts: seq<Attempt>, result: BridgeResult, left: Left)
    requires LeftsOk(exits, lefts, attempts) && |exits| == |lefts| < |attempts| && LeftBy(result, attempts[|lefts|], left)
    ensures result.Restart? ==>
              forall ageMs :: LeftsOk(exits + [Exit(result.unexpected, ageMs)], lefts + [left], attempts)
    ensures !result.Restart? ==> LeftsOk(exits, lefts + [left], attempts)
  {
    hide AskedToSteer;
    NotAsked(attempts[|lefts|].script);
  }

  method RunInner(session: Session, resume: Option<string>, attempts: seq<Attempt>)
    returns (end: RunEnd, openings: seq<Opening>, exits: seq<Exit>, ghost lefts: seq<Left>)
    requires session.Balanced(NOTHING)
    modifies session
    ensures session.Balanced(NOTHING)
    // over all bridges no command is answered twice; what is never answered is
    // what some bridge left, at most a steer where the exit was planned
    ensures OnceEach(session.received, Books(session.trace).answers, session.abandoned)
    ensures LeftInAll(old(session.abandoned), lefts, session.abandoned)
    ensures LeftsOk(exits, lefts, attempts)
    ensures OneNativeSession(resume, openings)
    // it gives up at the third rapid exit, at no other, and never later
    ensures end.GaveUp? ==> exits != [] && ThirdRapid(exits, |exits| - 1) && NeverThird(exits[..|exits|-1])
    ensures !end.GaveUp? ==> NeverThird(exits)
    ensures |exits| <= |openings| <= |exits| + 1
    // every exit and the end of the loop follow from what happened
    ensures Exited(exits, lefts, attempts, end)
  {
    hide Books, Session.Balanced, ThirdRapid, Streak, OnceEach, LeftInAll, Ids, LeftsOk, LeftBy, NeverThird, Settles, Traced,
      EndsAs, Exited, Exiting;
    NeverThirdNone();
    NoLefts(attempts);
    StreakNone();
    var spec := resume;
    var rapidDeaths := 0;
    openings, exits, lefts := [], [], [];
    NoneLeft();
    NoExits(attempts);
    session.AllAccounted();
    for n := 0 to |attempts|
      invariant session.Balanced(NOTHING)
      invariant OnceEach(session.received, Books(session.trace).answers, session.abandoned)
      invariant LeftInAll(old(session.abandoned), lefts, session.abandoned)
      invariant |exits| == |lefts| == n && LeftsOk(exits, lefts, attempts)
      invariant OneNativeSession(resume, openings)
      invariant spec == (if openings == [] then resume else Some(openings[0].native))
      invariant NeverThird(exits) && rapidDeaths == Streak(exits)
      invariant |exits| == |openings| && Exiting(exits, lefts, attempts)
    {
      var a := attempts[n];
      ghost var before := session.abandoned;
      var result, opening, served, left := RunBridge(session, spec, a);
      session.AllAccounted();
      LeftInAllNext(old(session.abandoned), lefts, before, left, session.abandoned);
      LeftsNext(exits, lefts, attempts, result, left);
      ExitsNext(exits, lefts, attempts, result, left);
      lefts := lefts + [left];
      if opening.Some? {
        openings := openings + [opening.value];
      }
      if result.Finished? {
        end := Stopped;
        return;
      }
      if result.StartupFailed? {
        end := NeverOpened;
        return;
      }
      ghost var was := exits;
      exits := exits + [Exit(result.unexpected, a.ageMs)];
      assert exits[..|exits|-1] == was;
      ExitsEnd(exits, lefts, attempts);
      StreakSnoc(was, Exit(result.unexpected, a.ageMs));
      NotThird(exits);
      if result.unexpected {
        if a.ageMs < RAPID_BRIDGE_WINDOW_MS {
          rapidDeaths := rapidDeaths + 1;
          GiveUpIff(exits);
          if rapidDeaths >= RAPID_BRIDGE_RESTART_LIMIT {
            end := GaveUp;
            return;
          }
        } else {
          rapidDeaths := 0;
        }
      }
      NeverThirdSnoc(was, Exit(result.unexpected, a.ageMs));
      if !a.restartReported {
        end := ReportFailed;
        return;
      }
      spec := Some(opening.value.native);
    }
    ExitsEnd(exits, lefts, attempts);
    end := StillRunning;
  }
}
