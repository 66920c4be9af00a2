/** Clearing old tool output before compaction. Positions `(t, k)` name event
    `k` of turn `t`; "newer" is later in transcript order. */
module Pruning {
  import opened Text
  import opened Transcript

  const TOOL_OUTPUT_PROTECT_BYTES: nat := 40_000 * 4
  const TOOL_OUTPUT_PRUNE_MINIMUM_BYTES: nat := 20_000 * 4

  function StatusKey(): Text { Ascii("status") }
  function ContentKey(): Text { Ascii("content") }
  function CompletedStatus(): Text { Ascii("\"completed\"") }
  function ClearedResult(): Text { Ascii("\"[Old tool result content cleared]\"") }

  // ----- One event -----

  predicate Less(a: Text, b: Text) {
    b != [] && (a == [] || a[0] < b[0] || (a[0] == b[0] && Less(a[1..], b[1..])))
  }

  /** Insert or replace a member, keeping key order. */
  function SetMember(ms: seq<Member>, m: Member): seq<Member> {
    if ms == [] then [m]
    else if ms[0].key == m.key then [m] + ms[1..]
    else if Less(m.key, ms[0].key) then [m] + ms
    else [ms[0]] + SetMember(ms[1..], m)
  }

  lemma {:induction false} SetMemberFind(ms: seq<Member>, m: Member, key: Text)
    ensures Find(SetMember(ms, m), key) == if key == m.key then Some(m.value) else Find(ms, key)
  {
    if ms != [] && ms[0].key != m.key && !Less(m.key, ms[0].key) {
      SetMemberFind(ms[1..], m, key);
      assert SetMember(ms, m)[1..] == SetMember(ms[1..], m);
    } else if ms != [] && ms[0].key == m.key {
      assert SetMember(ms, m)[1..] == ms[1..];
    } else {
      assert SetMember(ms, m)[1..] == ms;
    }
  }

  lemma {:induction false} SetMemberTwice(ms: seq<Member>, m: Member)
    ensures SetMember(SetMember(ms, m), m) == SetMember(ms, m)
  {
    if ms != [] && ms[0].key != m.key && !Less(m.key, ms[0].key) {
      SetMemberTwice(ms[1..], m);
      assert SetMember(ms, m)[1..] == SetMember(ms[1..], m);
    }
  }

  lemma {:induction false} SetMemberValid(ms: seq<Member>, m: Member)
    requires ValidMembers(ms) && ValidText(m.value) && ValidText(m.shown)
    ensures ValidMembers(SetMember(ms, m))
  {
    if ms != [] && ms[0].key != m.key && !Less(m.key, ms[0].key) {
      SetMemberValid(ms[1..], m);
    }
  }

  /** Size of a finished tool's output; nothing for any other event. */
  function CompletedOutput(e: TurnEvent): Option<nat> {
    if e.Tool? && Get(e.call, StatusKey()) == Some(CompletedStatus()) then
      match Get(e.call, ContentKey())
      case Some(content) => Some(|content|)
      case None => Some(0)
    else None
  }

  function OutputBytes(e: TurnEvent): nat {
    match CompletedOutput(e)
    case Some(n) => n
    case None => 0
  }

  /** `value["content"] = "[Old tool result content cleared]"`. */
  function Cleared(e: TurnEvent): TurnEvent {
    if e.Tool? && e.call.Object? then
      Tool(Object(SetMember(e.call.members, Member(ContentKey(), Ascii("\"content\""), ClearedResult()))))
    else e
  }

  predicate IsCleared(e: TurnEvent) {
    e.Tool? && Get(e.call, ContentKey()) == Some(ClearedResult())
  }

  lemma ClearedFacts(e: TurnEvent)
    requires CompletedOutput(e).Some?
    ensures CompletedOutput(Cleared(e)).Some? && IsCleared(Cleared(e))
    ensures Cleared(Cleared(e)) == Cleared(e)
    ensures Cleared(e).Tool? && forall key :: key != ContentKey() ==> Get(Cleared(e).call, key) == Get(e.call, key)
    ensures ValidEvent(e) ==> ValidEvent(Cleared(e))
  {
    var m := Member(ContentKey(), Ascii("\"content\""), ClearedResult());
    var ms := e.call.members;
    assert StatusKey()[0] == 's' as int as byte && ContentKey()[0] == 'c' as int as byte;
    SetMemberFind(ms, m, StatusKey());
    SetMemberFind(ms, m, ContentKey());
    SetMemberTwice(ms, m);
    forall key | key != ContentKey()
      ensures Get(Cleared(e).call, key) == Get(e.call, key)
    {
      SetMemberFind(ms, m, key);
    }
    if ValidEvent(e) {
      SetMemberValid(ms, m);
    }
  }

  // ----- Totals, newest first -----

  /** Turns outside the protected last two. */
  function Older(turns: seq<Turn>): nat {
    SatSub(|turns|, EXACT_TAIL_TURNS)
  }

  /** Output bytes at `(t, k)` and every newer position of the older turns. */
  function RunningTotal(turns: seq<Turn>, t: nat, k: nat): nat
    decreases Older(turns) - t, if t < Older(turns) then |turns[t].events| - k else 0
  {
    if t >= Older(turns) then 0
    else if k >= |turns[t].events| then RunningTotal(turns, t + 1, 0)
    else OutputBytes(turns[t].events[k]) + RunningTotal(turns, t, k + 1)
  }

  predicate InOlder(turns: seq<Turn>, t: nat, k: nat) {
    t < Older(turns) && k < |turns[t].events|
  }

  /** Where the newest-first running total exceeds the protected amount. */
  predicate OverLimit(turns: seq<Turn>, t: nat, k: nat) {
    && InOlder(turns, t, k)
    && CompletedOutput(turns[t].events[k]).Some?
    && RunningTotal(turns, t, k) > TOOL_OUTPUT_PROTECT_BYTES
  }

  function PrunableBytes(turns: seq<Turn>, t: nat, k: nat): nat
    decreases Older(turns) - t, if t < Older(turns) then |turns[t].events| - k else 0
  {
    if t >= Older(turns) then 0
    else if k >= |turns[t].events| then PrunableBytes(turns, t + 1, 0)
    else (if OverLimit(turns, t, k) then OutputBytes(turns[t].events[k]) else 0) + PrunableBytes(turns, t, k + 1)
  }

  /** Older finished output whose content is still there. */
  function UnclearedBytes(turns: seq<Turn>, t: nat, k: nat): nat
    decreases Older(turns) - t, if t < Older(turns) then |turns[t].events| - k else 0
  {
    if t >= Older(turns) then 0
    else if k >= |turns[t].events| then UnclearedBytes(turns, t + 1, 0)
    else (if IsCleared(turns[t].events[k]) then 0 else OutputBytes(turns[t].events[k])) + UnclearedBytes(turns, t, k + 1)
  }

  predicate Prunes(turns: seq<Turn>) {
    PrunableBytes(turns, 0, 0) > TOOL_OUTPUT_PRUNE_MINIMUM_BYTES
  }

  function PrunedEvent(turns: seq<Turn>, t: nat, k: nat): TurnEvent
    requires t < |turns| && k < |turns[t].events|
  {
    if OverLimit(turns, t, k) then Cleared(turns[t].events[k]) else turns[t].events[k]
  }

  /** All or nothing: either no output is worth clearing, or exactly the ones
      over the limit are cleared. */
  ghost predicate IsPruned(turns: seq<Turn>, pruned: seq<Turn>) {
    && |pruned| == |turns|
    && (forall t :: 0 <= t < |turns| ==> pruned[t].user == turns[t].user && |pruned[t].events| == |turns[t].events|)
    && forall t: nat, k: nat :: t < |turns| && k < |turns[t].events| ==>
         pruned[t].events[k] == if Prunes(turns) then PrunedEvent(turns, t, k) else turns[t].events[k]
  }

  method PruneOldToolOutputs(turns: seq<Turn>) returns (pruned: seq<Turn>)
    ensures IsPruned(turns, pruned)
  {
    pruned := turns;
    var older := Older(turns);
    var retainedBytes, pruneBytes := 0, 0;
    var candidates: seq<(nat, nat)> := [];
    var t: nat := older;
    while t > 0
      invariant 0 <= t <= older
      invariant retainedBytes == Min(RunningTotal(turns, t, 0), USIZE_MAX)
      invariant pruneBytes == Min(PrunableBytes(turns, t, 0), USIZE_MAX)
      invariant forall i: nat, j: nat :: (i, j) in candidates ==> OverLimit(turns, i, j)
      invariant forall i: nat, k: nat :: t <= i && OverLimit(turns, i, k) ==> (i, k) in candidates
    {
      t := t - 1;
      var k: nat := |turns[t].events|;
      while k > 0
        invariant 0 <= k <= |turns[t].events|
        invariant retainedBytes == Min(RunningTotal(turns, t, k), USIZE_MAX)
        invariant pruneBytes == Min(PrunableBytes(turns, t, k), USIZE_MAX)
        invariant forall i: nat, j: nat :: (i, j) in candidates ==> OverLimit(turns, i, j)
        invariant forall i: nat, j: nat :: (t < i || (t == i && k <= j)) && OverLimit(turns, i, j) ==> (i, j) in candidates
      {
        k := k - 1;
        match CompletedOutput(turns[t].events[k])
        case None =>
        case Some(size) =>
          retainedBytes := SatAdd(retainedBytes, size);
          if retainedBytes > TOOL_OUTPUT_PROTECT_BYTES {
            pruneBytes := SatAdd(pruneBytes, size);
            candidates := candidates + [(t, k)];
          }
      }
    }
    if pruneBytes <= TOOL_OUTPUT_PRUNE_MINIMUM_BYTES {
      return;
    }
    pruned := ClearCandidates(turns, candidates);
  }

  method ClearCandidates(turns: seq<Turn>, candidates: seq<(nat, nat)>) returns (pruned: seq<Turn>)
    requires forall t: nat, k: nat :: (t, k) in candidates ==> OverLimit(turns, t, k)
    ensures |pruned| == |turns|
    ensures forall t :: 0 <= t < |turns| ==> pruned[t].user == turns[t].user && |pruned[t].events| == |turns[t].events|
    ensures forall t: nat, k: nat :: t < |turns| && k < |turns[t].events| ==>
              pruned[t].events[k] == if (t, k) in candidates then Cleared(turns[t].events[k]) else turns[t].events[k]
  {
    pruned := turns;
    for i := 0 to |candidates|
      invariant |pruned| == |turns|
      invariant forall t :: 0 <= t < |turns| ==> pruned[t].user == turns[t].user && |pruned[t].events| == |turns[t].events|
      invariant forall t: nat, k: nat :: t < |turns| && k < |turns[t].events| ==>
                  pruned[t].events[k] == if (t, k) in candidates[..i] then Cleared(turns[t].events[k]) else turns[t].events[k]
    {
      var (t, k) := candidates[i];
      assert candidates[..i+1] == candidates[..i] + [(t, k)];
      assert OverLimit(turns, t, k);
      ClearedFacts(turns[t].events[k]);
      var e := pruned[t].events[k];
      pruned := pruned[t := pruned[t].(events := pruned[t].events[k := Cleared(e)])];
    }
    assert candidates[..|candidates|] == candidates;
  }

  // ----- What pruning promises -----

  lemma RecentAndUnfinishedKept(turns: seq<Turn>, pruned: seq<Turn>, t: nat, k: nat)
    requires IsPruned(turns, pruned)
    requires t < |turns| && k < |turns[t].events|
    requires |turns| <= t + EXACT_TAIL_TURNS || CompletedOutput(turns[t].events[k]).None?
    ensures pruned[t].events[k] == turns[t].events[k]
  {
  }

  /** Going older never lowers the running total. */
  lemma {:induction false} RunningTotalMonotone(turns: seq<Turn>, t: nat, k: nat, i: nat, j: nat)
    requires t < i || (t == i && k <= j)
    ensures RunningTotal(turns, i, j) <= RunningTotal(turns, t, k)
    decreases Older(turns) - t, if t < Older(turns) then |turns[t].events| - k else 0
  {
    if t < Older(turns) && (t, k) != (i, j) {
      if k >= |turns[t].events| {
        if t < i {
          RunningTotalMonotone(turns, t + 1, 0, i, j);
        }
      } else {
        RunningTotalMonotone(turns, t, k + 1, i, j);
      }
    }
  }

  /** Pruning leaves every total at or below the limit as it was. */
  lemma {:induction false} TotalsBelowLimitKept(turns: seq<Turn>, pruned: seq<Turn>, t: nat, k: nat)
    requires IsPruned(turns, pruned)
    requires RunningTotal(turns, t, k) <= TOOL_OUTPUT_PROTECT_BYTES
    ensures RunningTotal(pruned, t, k) == RunningTotal(turns, t, k)
    decreases Older(turns) - t, if t < Older(turns) then |turns[t].events| - k else 0
  {
    if t < Older(turns) {
      if k >= |turns[t].events| {
        TotalsBelowLimitKept(turns, pruned, t + 1, 0);
      } else {
        assert !OverLimit(turns, t, k);
        assert pruned[t].events[k] == turns[t].events[k];
        TotalsBelowLimitKept(turns, pruned, t, k + 1);
      }
    }
  }

  lemma OverLimitShrinks(turns: seq<Turn>, pruned: seq<Turn>, t: nat, k: nat)
    requires IsPruned(turns, pruned) && Prunes(turns)
    requires OverLimit(pruned, t, k)
    ensures OverLimit(turns, t, k)
  {
    if !OverLimit(turns, t, k) {
      assert pruned[t].events[k] == turns[t].events[k];
      TotalsBelowLimitKept(turns, pruned, t, k);
    }
  }

  /** Pruning a pruned transcript changes nothing. */
  lemma PruneIdempotent(turns: seq<Turn>, once: seq<Turn>, twice: seq<Turn>)
    requires IsPruned(turns, once) && IsPruned(once, twice)
    ensures twice == once
  {
    if Prunes(turns) {
      forall t, k | 0 <= t < |once| && 0 <= k < |once[t].events| ensures twice[t].events[k] == once[t].events[k] {
        if OverLimit(once, t, k) {
          OverLimitShrinks(turns, once, t, k);
          assert once[t].events[k] == PrunedEvent(turns, t, k);
          ClearedFacts(turns[t].events[k]);
        }
      }
    } else {
      SameWhenNothingPruned(turns, once);
    }
    forall t | 0 <= t < |once| ensures twice[t] == once[t] {
      assert twice[t].events == once[t].events;
    }
  }

  lemma SameWhenNothingPruned(turns: seq<Turn>, pruned: seq<Turn>)
    requires IsPruned(turns, pruned) && !Prunes(turns)
    ensures pruned == turns
  {
    forall t | 0 <= t < |turns| ensures pruned[t] == turns[t] {
      assert pruned[t].events == turns[t].events;
    }
  }

  /** What stays is the protected amount, or that plus what was not worth
      clearing. */
  lemma {:induction false} KeptAtMost(turns: seq<Turn>, pruned: seq<Turn>, t: nat, k: nat)
    requires IsPruned(turns, pruned)
    ensures UnclearedBytes(pruned, t, k) <= RunningTotal(turns, t, k)
    ensures UnclearedBytes(pruned, t, k) <=
              TOOL_OUTPUT_PROTECT_BYTES + if Prunes(turns) then 0 else PrunableBytes(turns, t, k)
    decreases Older(turns) - t, if t < Older(turns) then |turns[t].events| - k else 0
  {
    if t < Older(turns) {
      if k >= |turns[t].events| {
        KeptAtMost(turns, pruned, t + 1, 0);
      } else {
        KeptAtMost(turns, pruned, t, k + 1);
        if OverLimit(turns, t, k) {
          ClearedFacts(turns[t].events[k]);
        }
        assert pruned[t].events[k] == if Prunes(turns) then PrunedEvent(turns, t, k) else turns[t].events[k];
      }
    }
  }

  /** The output of a finished tool call whose content was not cleared. */
  function LeftOutput(e: TurnEvent): seq<Text> {
    if e.Tool? && Get(e.call, Ascii("status")) == Some(Ascii("\"completed\"")) then
      match Get(e.call, Ascii("content"))
      case Some(content) => if content == Ascii("\"[Old tool result content cleared]\"") then [] else [content]
      case None => []
    else []
  }

  /** Those of all turns but the last two, from `(t, k)` on. */
  function LeftOutputs(turns: seq<Turn>, t: nat, k: nat): seq<Text>
    decreases |turns| - t, if t < |turns| then |turns[t].events| - k else 0
  {
    if t + 2 >= |turns| then []
    else if k >= |turns[t].events| then LeftOutputs(turns, t + 1, 0)
    else LeftOutput(turns[t].events[k]) + LeftOutputs(turns, t, k + 1)
  }

  lemma LeftOutputIs(e: TurnEvent)
    ensures |Concat(LeftOutput(e))| == if IsCleared(e) then 0 else OutputBytes(e)
  {
    if LeftOutput(e) != [] {
      ConcatOne(LeftOutput(e)[0]);
    }
  }

  lemma {:induction false} LeftOutputsAre(turns: seq<Turn>, t: nat, k: nat)
    ensures UnclearedBytes(turns, t, k) == |Concat(LeftOutputs(turns, t, k))|
    decreases |turns| - t, if t < |turns| then |turns[t].events| - k else 0
  {
    hide Concat, LeftOutput, IsCleared, OutputBytes;
    NothingLeft();
    if t + 2 < |turns| {
      if k >= |turns[t].events| {
        LeftOutputsAre(turns, t + 1, 0);
      } else {
        LeftOutputsAre(turns, t, k + 1);
        LeftOutputIs(turns[t].events[k]);
        ConcatAppend(LeftOutput(turns[t].events[k]), LeftOutputs(turns, t, k + 1));
      }
    }
  }

  lemma NothingLeft()
    ensures Concat([]) == []
  {
  }

  /** At most 240,000 bytes of finished output are left in all turns but the last
      two. */
  lemma UnclearedBound(turns: seq<Turn>, pruned: seq<Turn>)
    requires IsPruned(turns, pruned)
    ensures |Concat(LeftOutputs(pruned, 0, 0))| <= 240_000
  {
    KeptAtMost(turns, pruned, 0, 0);
    LeftOutputsAre(pruned, 0, 0);
  }

  lemma PrunedValid(turns: seq<Turn>, pruned: seq<Turn>)
    requires ValidTurns(turns) && IsPruned(turns, pruned)
    ensures ValidTurns(pruned)
  {
    forall t, k | 0 <= t < |pruned| && 0 <= k < |pruned[t].events| ensures ValidEvent(pruned[t].events[k]) {
      assert ValidTurn(turns[t]) && ValidEvent(turns[t].events[k]);
      if OverLimit(turns, t, k) {
        ClearedFacts(turns[t].events[k]);
      }
    }
  }
}
