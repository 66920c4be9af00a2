/** Merging page summaries and writing the handoff turn. */
module Handoff {
  import opened Text
  import opened Transcript
  import opened Pruning
  import opened Paging
  import opened Compaction
  import opened Story

  // ----- Reduction -----

  /** Passes needed to merge `n` summaries pairwise. */
  function Rounds(n: nat): nat {
    if n <= 1 then 0 else 1 + Rounds((n + 1) / 2)
  }

  ghost predicate NoTaller(forest: seq<Tree>, h: nat) {
    forall i :: 0 <= i < |forest| ==> Height(forest[i]) <= h
  }

  /** A forest of sound summaries no taller than `h` with the given leaves. */
  ghost predicate Grown(w: Wording, b: Backend, log: seq<Text>, forest: seq<Tree>, summaries: seq<Text>, h: nat) {
    && SoundAll(w, b, log, forest)
    && Summarizes(forest, summaries)
    && NoTaller(forest, h)
  }

  lemma GrownLater(w: Wording, b: Backend, log: seq<Text>, more: seq<Text>, forest: seq<Tree>, summaries: seq<Text>, h: nat)
    requires Grown(w, b, log, forest, summaries, h)
    ensures Grown(w, b, log + more, forest, summaries, h)
  {
    SoundAllLater(w, b, log, more, forest);
  }

  lemma GrownSnoc(w: Wording, b: Backend, log: seq<Text>, forest: seq<Tree>, summaries: seq<Text>, h: nat, t: Tree)
    requires Grown(w, b, log, forest, summaries, h) && Sound(w, b, log, t) && Height(t) <= h
    ensures Grown(w, b, log, forest + [t], summaries + [t.summary], h)
    ensures LeavesAll(forest + [t]) == LeavesAll(forest) + Leaves(t)
  {
    hide LeavesAll, Sound, Height;
    LeavesSnoc(forest, t);
  }

  lemma EarlierRequests(w: Wording, b: Backend, log: seq<Text>, left: Tree, right: Tree)
    requires Sound(w, b, log, left) && Sound(w, b, log, right)
    ensures left.at < |log| && right.at < |log|
  {
  }

  lemma SoundNode(w: Wording, b: Backend, log: seq<Text>, left: Tree, right: Tree, at: nat, summary: Text)
    requires Sound(w, b, log, left) && Sound(w, b, log, right) && MadeBy(w, b, log, Node(left, right, at, summary))
    ensures Sound(w, b, log, Node(left, right, at, summary))
  {
  }

  lemma NodeSound(w: Wording, b: Backend, log: seq<Text>, left: Tree, right: Tree, log': seq<Text>, summary: Text)
    requires Sound(w, b, log, left) && Sound(w, b, log, right)
    requires log' == log + [ReductionPrompt(w, left.summary, right.summary)] && OutcomeOf(b, log') == Summary(summary)
    ensures Sound(w, b, log', Node(left, right, |log|, summary))
  {
    hide ReductionPrompt, OutcomeOf, Sound;
    var prompt := ReductionPrompt(w, left.summary, right.summary);
    SoundLater(w, b, log, [prompt], left);
    SoundLater(w, b, log, [prompt], right);
    EarlierRequests(w, b, log, left, right);
    assert log'[..|log|+1] == log';
    assert MadeBy(w, b, log', Node(left, right, |log|, summary));
    SoundNode(w, b, log', left, right, |log|, summary);
  }

  lemma SoundMade(w: Wording, b: Backend, log: seq<Text>, t: Tree)
    requires Sound(w, b, log, t)
    ensures MadeBy(w, b, log, t)
  {
    hide MadeBy;
  }

  /** Two neighbouring summaries that could not be merged, if any. */
  datatype Stuck = Unstuck | Pair(left: Tree, right: Tree)

  predicate Stretch(leaves: seq<Text>, i: nat, part: seq<Text>) {
    i + |part| <= |leaves| && leaves[i..i + |part|] == part
  }

  /** The two stand next to each other among `leaves`, were both answered, and
      the prompt to merge them is over the budget. */
  ghost predicate CannotMerge(w: Wording, b: Backend, log: seq<Text>, contextBytes: nat, leaves: seq<Text>, s: Stuck) {
    && s.Pair? && Sound(w, b, log, s.left) && Sound(w, b, log, s.right)
    && |ReductionPrompt(w, s.left.summary, s.right.summary)| > contextBytes
    && exists i: nat :: Stretch(leaves, i, Leaves(s.left) + Leaves(s.right))
  }

  lemma NextInForest(forest: seq<Tree>, k: nat)
    requires k + 1 < |forest|
    ensures Stretch(LeavesAll(forest), |LeavesAll(forest[..k])|, Leaves(forest[k]) + Leaves(forest[k+1]))
  {
    hide LeavesAll, Leaves;
    LeavesStep(forest, k);
    assert forest == forest[..k+2] + forest[k+2..];
    LeavesAppend(forest[..k+2], forest[k+2..]);
  }

  /** A merge prompt quotes both summaries, in order. */
  lemma MergeQuotes(w: Wording, first: Text, second: Text)
    ensures Quotes(ReductionPrompt(w, first, second), [first, second])
  {
    hide Quotes, Decimal;
    var a, b := w.mergeOpen + (w.partOpen + Decimal(1) + w.partMiddle), w.partClose + w.partGap + (w.partOpen + Decimal(2) + w.partMiddle);
    QuotesTwo(a, first, b, second, w.partClose);
    assert a + first + b + second + w.partClose == ReductionPrompt(w, first, second);
  }

  /** Merge two neighbouring summaries. */
  method MergePair(requests: Requests, contextBytes: nat, first: Text, second: Text, ghost left: Tree, ghost right: Tree)
    returns (r: Result<Text>, ghost merged: Tree)
    requires Alive(requests.backend, requests.log) && Within(requests.log, contextBytes)
    requires Sound(requests.w, requests.backend, requests.log, left) && left.summary == first
    requires Sound(requests.w, requests.backend, requests.log, right) && right.summary == second
    requires requests.AllExplained()
    modifies requests`log
    ensures NothingAfterFatal(requests.backend, requests.log) && Within(requests.log, contextBytes)
    ensures old(requests.log) <= requests.log && requests.AllExplained()
    ensures r == Err(ResponseTooLarge) <==> |ReductionPrompt(requests.w, first, second)| > contextBytes
    ensures r == Err(ResponseTooLarge) ==> requests.log == old(requests.log)
    ensures r.Ok? ==> Alive(requests.backend, requests.log) && |requests.log| == |old(requests.log)| + 1
    ensures |requests.log| <= |old(requests.log)| + 1
    ensures requests.log != old(requests.log) ==> Quotes(requests.log[|requests.log|-1], [first, second])
    ensures r.Ok? ==> Sound(requests.w, requests.backend, requests.log, merged) && merged.summary == r.value
    ensures r.Ok? ==> merged.Node? && merged.left == left && merged.right == right
    ensures r.Err? ==> r.error.ResponseTooLarge?
                       || (r.error.BackendRefused? && LastFailedWith(requests.backend, requests.log, r.error.detail))
  {
    hide ReductionPrompt, Alive, NothingAfterFatal, OutcomeOf, Sound, Explained, MadeBy, Quotes;
    MergeQuotes(requests.w, first, second);
    var prompt := ReductionPrompt(requests.w, first, second);
    merged := left;
    if |prompt| > contextBytes {
      AliveFatal(requests.backend, requests.log);
      r := Err(ResponseTooLarge);
      return;
    }
    ghost var before := requests.log;
    SoundMade(requests.w, requests.backend, before, left);
    SoundMade(requests.w, requests.backend, before, right);
    ExplainedMerge(requests.w, requests.backend, before, requests.sent, left, right);
    var outcome := requests.Run(prompt);
    match outcome
    case Summary(summary) =>
      NodeSound(requests.w, requests.backend, before, left, right, requests.log, summary);
      merged := Node(left, right, |before|, summary);
      r := Ok(summary);
    case Splittable(detail) =>
      OutcomeIff(requests.backend, requests.log, detail);
      r := Err(BackendRefused(detail));
    case Dead(detail) =>
      OutcomeIff(requests.backend, requests.log, detail);
      r := Err(BackendRefused(detail));
  }

  lemma LeavesStep(forest: seq<Tree>, k: nat)
    requires k + 1 < |forest|
    ensures LeavesAll(forest[..k+2]) == LeavesAll(forest[..k]) + (Leaves(forest[k]) + Leaves(forest[k+1]))
  {
    assert forest[..k+2] == forest[..k] + [forest[k]] + [forest[k+1]];
    LeavesSnoc(forest[..k], forest[k]);
    LeavesSnoc(forest[..k] + [forest[k]], forest[k+1]);
  }

  lemma PrefixGrows(a: seq<Text>, b: seq<Text>)
    requires a <= b
    ensures b == a + b[|a|..]
  {
  }

  /** A pass part-way: `next` stands for the first `k` trees. */
  ghost predicate Passing(w: Wording, b: Backend, log: seq<Text>, forest: seq<Tree>, summaries: seq<Text>, h: nat,
                          next: seq<Tree>, merged: seq<Text>, k: nat) {
    && k <= |forest| && (k % 2 == 0 || k == |forest|)
    && Grown(w, b, log, forest, summaries, h)
    && Grown(w, b, log, next, merged, h + 1)
    && LeavesAll(next) == LeavesAll(forest[..k]) && |next| == (k + 1) / 2
  }

  lemma CarryOver(w: Wording, b: Backend, log: seq<Text>, forest: seq<Tree>, summaries: seq<Text>, h: nat,
                  next: seq<Tree>, merged: seq<Text>, k: nat)
    requires Passing(w, b, log, forest, summaries, h, next, merged, k) && k + 1 == |forest|
    ensures Passing(w, b, log, forest, summaries, h, next + [forest[k]], merged + [summaries[k]], k + 1)
  {
    hide LeavesAll, Sound, Height;
    assert Height(forest[k]) <= h && forest[k].summary == summaries[k];
    GrownSnoc(w, b, log, next, merged, h + 1, forest[k]);
    assert forest[..k+1] == forest[..k] + [forest[k]];
    LeavesSnoc(forest[..k], forest[k]);
  }

  lemma TakeMerged(w: Wording, b: Backend, log: seq<Text>, more: seq<Text>, forest: seq<Tree>, summaries: seq<Text>, h: nat,
                   next: seq<Tree>, merged: seq<Text>, k: nat, tree: Tree)
    requires Passing(w, b, log, forest, summaries, h, next, merged, k) && k + 1 < |forest|
    requires Sound(w, b, log + more, tree) && tree.Node? && tree.left == forest[k] && tree.right == forest[k+1]
    ensures Passing(w, b, log + more, forest, summaries, h, next + [tree], merged + [tree.summary], k + 2)
  {
    GrownLater(w, b, log, more, forest, summaries, h);
    GrownLater(w, b, log, more, next, merged, h + 1);
    GrownSnoc(w, b, log + more, next, merged, h + 1, tree);
    LeavesStep(forest, k);
  }

  lemma PassStarts(w: Wording, b: Backend, log: seq<Text>, forest: seq<Tree>, summaries: seq<Text>, h: nat)
    requires Grown(w, b, log, forest, summaries, h)
    ensures Passing(w, b, log, forest, summaries, h, [], [], 0) && |summaries| == |forest|
  {
    hide Sound, Height;
    assert forest[..0] == [];
  }

  lemma PassStands(w: Wording, b: Backend, log: seq<Text>, forest: seq<Tree>, summaries: seq<Text>, h: nat,
                   next: seq<Tree>, merged: seq<Text>, k: nat)
    requires Passing(w, b, log, forest, summaries, h, next, merged, k) && k < |forest|
    ensures Grown(w, b, log, forest, summaries, h) && |summaries| == |forest| && k % 2 == 0
    ensures Sound(w, b, log, forest[k]) && forest[k].summary == summaries[k]
    ensures k + 1 < |forest| ==> Sound(w, b, log, forest[k+1]) && forest[k+1].summary == summaries[k+1]
  {
    hide Sound, Height, LeavesAll;
  }

  lemma PassEnds(w: Wording, b: Backend, log: seq<Text>, forest: seq<Tree>, summaries: seq<Text>, h: nat,
                 next: seq<Tree>, merged: seq<Text>)
    requires Passing(w, b, log, forest, summaries, h, next, merged, |forest|)
    ensures Grown(w, b, log, next, merged, h + 1)
    ensures LeavesAll(next) == LeavesAll(forest) && |next| == (|forest| + 1) / 2
  {
    hide Grown, LeavesAll;
    assert forest[..|forest|] == forest;
  }

  lemma PairCannotMerge(w: Wording, b: Backend, log: seq<Text>, contextBytes: nat,
                        forest: seq<Tree>, summaries: seq<Text>, h: nat, k: nat)
    requires Grown(w, b, log, forest, summaries, h) && k + 1 < |forest|
    requires |ReductionPrompt(w, summaries[k], summaries[k+1])| > contextBytes
    ensures CannotMerge(w, b, log, contextBytes, LeavesAll(forest), Pair(forest[k], forest[k+1]))
  {
    hide LeavesAll, Leaves, Sound, Height, ReductionPrompt;
    assert Sound(w, b, log, forest[k]) && Sound(w, b, log, forest[k+1]);
    NextInForest(forest, k);
  }

  /** One pass over neighbouring pairs; an odd last summary is carried over. */
  method ReducePass(requests: Requests, contextBytes: nat, summaries: seq<Text>, ghost forest: seq<Tree>, ghost h: nat)
    returns (r: Result<seq<Text>>, ghost next: seq<Tree>, ghost stuck: Stuck)
    requires Alive(requests.backend, requests.log) && Within(requests.log, contextBytes)
    requires Grown(requests.w, requests.backend, requests.log, forest, summaries, h)
    requires requests.AllExplained()
    modifies requests`log
    ensures NothingAfterFatal(requests.backend, requests.log) && Within(requests.log, contextBytes) && requests.AllExplained()
    ensures r == Err(ResponseTooLarge) <==> stuck.Pair?
    ensures stuck.Pair? ==> CannotMerge(requests.w, requests.backend, requests.log, contextBytes, LeavesAll(forest), stuck)
    ensures r.Ok? ==> Alive(requests.backend, requests.log)
    ensures r.Ok? ==> Grown(requests.w, requests.backend, requests.log, next, r.value, h + 1)
    ensures r.Ok? ==> LeavesAll(next) == LeavesAll(forest) && |next| == (|forest| + 1) / 2
    ensures r.Ok? ==> |requests.log| + |next| == |old(requests.log)| + |forest|
    ensures |requests.log| <= |old(requests.log)| + |forest| / 2
    ensures r.Err? ==> r.error.ResponseTooLarge?
                       || (r.error.BackendRefused? && LastFailedWith(requests.backend, requests.log, r.error.detail))
  {
    hide Requests.AllExplained, Alive, Within, NothingAfterFatal, LastFailedWith, CannotMerge, ReductionPrompt, Passing, Grown, Sound,
      LeavesAll, Leaves;
    var merged: seq<Text> := [];
    next, stuck := [], Unstuck;
    var k := 0;
    PassStarts(requests.w, requests.backend, requests.log, forest, summaries, h);
    while k < |summaries|
      invariant 0 <= k <= |summaries| == |forest|
      invariant Alive(requests.backend, requests.log) && Within(requests.log, contextBytes) && requests.AllExplained()
      invariant Passing(requests.w, requests.backend, requests.log, forest, summaries, h, next, merged, k)
      invariant |requests.log| + |next| == |old(requests.log)| + k && |next| == (k + 1) / 2
    {
      PassStands(requests.w, requests.backend, requests.log, forest, summaries, h, next, merged, k);
      if k + 1 == |summaries| {
        CarryOver(requests.w, requests.backend, requests.log, forest, summaries, h, next, merged, k);
        merged, next := merged + [summaries[k]], next + [forest[k]];
        k := k + 1;
      } else {
        ghost var before := requests.log;
        var one, tree := MergePair(requests, contextBytes, summaries[k], summaries[k+1], forest[k], forest[k+1]);
        if one.Err? {
          r := Err(one.error);
          if one.error.ResponseTooLarge? {
            stuck := Pair(forest[k], forest[k+1]);
            PairCannotMerge(requests.w, requests.backend, requests.log, contextBytes, forest, summaries, h, k);
          }
          return;
        }
        PrefixGrows(before, requests.log);
        TakeMerged(requests.w, requests.backend, before, requests.log[|before|..], forest, summaries, h, next, merged, k, tree);
        merged, next := merged + [one.value], next + [tree];
        k := k + 2;
      }
    }
    PassEnds(requests.w, requests.backend, requests.log, forest, summaries, h, next, merged);
    AliveFatal(requests.backend, requests.log);
    r := Ok(merged);
  }

  /** Merge the summaries as a balanced tree that keeps their order: one
      request per merge, the passes halving the count. */
  method ReduceSummaries(requests: Requests, contextBytes: nat, summaries: seq<Text>, ghost forest: seq<Tree>)
    returns (r: Result<Text>, ghost tree: Tree, ghost stuck: Stuck)
    requires Alive(requests.backend, requests.log) && Within(requests.log, contextBytes)
    requires Grown(requests.w, requests.backend, requests.log, forest, summaries, 0)
    requires requests.AllExplained()
    modifies requests`log
    ensures NothingAfterFatal(requests.backend, requests.log) && Within(requests.log, contextBytes) && requests.AllExplained()
    ensures r == Err(ResponseTooLarge) <==> stuck.Pair?
    ensures stuck.Pair? ==> CannotMerge(requests.w, requests.backend, requests.log, contextBytes, LeavesAll(forest), stuck)
    ensures r.Ok? ==> Sound(requests.w, requests.backend, requests.log, tree) && tree.summary == r.value
    ensures r.Ok? ==> Leaves(tree) == LeavesAll(forest) && Height(tree) <= Rounds(|forest|)
    ensures r.Ok? ==> |requests.log| == |old(requests.log)| + |forest| - 1
    ensures |requests.log| <= |old(requests.log)| + |forest|
    ensures r.Err? ==> r.error.ResponseTooLarge? || (r.error.NoSummaries? && summaries == [])
                       || (r.error.BackendRefused? && LastFailedWith(requests.backend, requests.log, r.error.detail))
  {
    hide Alive, Within, NothingAfterFatal, Sound, Concat, Requests.AllExplained, CannotMerge, LastFailedWith;
    var current := summaries;
    ghost var trees, h := forest, 0;
    stuck := Unstuck;
    while |current| > 1
      invariant Alive(requests.backend, requests.log) && Within(requests.log, contextBytes) && requests.AllExplained()
      invariant stuck.Unstuck?
      invariant Grown(requests.w, requests.backend, requests.log, trees, current, h)
      invariant LeavesAll(trees) == LeavesAll(forest) && h + Rounds(|trees|) == Rounds(|forest|)
      invariant |requests.log| + |trees| == |old(requests.log)| + |forest|
      invariant |trees| == 0 <==> |forest| == 0
      decreases |current|
    {
      var pass;
      ghost var next;
      pass, next, stuck := ReducePass(requests, contextBytes, current, trees, h);
      if pass.Err? {
        tree := Leaf([], 0, []);
        r := Err(pass.error);
        return;
      }
      current, trees, h := pass.value, next, h + 1;
    }
    AliveFatal(requests.backend, requests.log);
    if current == [] {
      tree := Leaf([], 0, []);
      r := Err(NoSummaries);
    } else {
      assert trees[..0] == [];
      tree := trees[0];
      r := Ok(current[0]);
    }
  }

  // ----- The handoff -----

  function HandoffText(w: Wording, summary: Text, exactTail: Option<Text>): Text {
    match exactTail
    case None => w.handoffOpen + summary
    case Some(tail) => w.handoffOpen + summary + w.tailOpen + tail + w.tailClose
  }

  function MakeHandoff(w: Wording, summary: Text, exactTail: Option<Text>, contextBytes: nat): Result<Text> {
    if |HandoffText(w, summary, exactTail)| <= contextBytes then Ok(HandoffText(w, summary, exactTail))
    else Err(HandoffTooLarge)
  }

  function IndexText(turn: Turn, index: nat): Text {
    Ascii("TURN ") + Decimal(index + 1) + Ascii(" (") + Decimal(|TurnText(turn, index)|) + Ascii(" bytes)\n") + turn.user + Ascii("\n\n")
  }

  function UserIndex(turns: seq<Turn>): Text {
    RenderAll(IndexText, turns, 0)
  }

  /** What the index says of each turn: its number, its size, the user's words. */
  function IndexTexts(turns: seq<Turn>): seq<Text> {
    if turns == [] then []
    else
      var n := |turns| - 1;
      IndexTexts(turns[..n]) + [Decimal(n + 1), Decimal(|TurnsText([turns[n]], n)|), turns[n].user]
  }

  lemma {:induction false} IndexQuotes(turns: seq<Turn>)
    ensures Quotes(UserIndex(turns), IndexTexts(turns))
  {
    hide Quotes, TurnText, Decimal;
    if turns == [] {
      QuotesNothing(UserIndex(turns));
    } else {
      var n := |turns| - 1;
      IndexQuotes(turns[..n]);
      OneIndexed(turns[n], n);
      QuotesAppend(UserIndex(turns[..n]), IndexTexts(turns[..n]), IndexText(turns[n], n),
                   [Decimal(n + 1), Decimal(|TurnsText([turns[n]], n)|), turns[n].user]);
    }
  }

  lemma OneIndexed(turn: Turn, n: nat)
    ensures Quotes(IndexText(turn, n), [Decimal(n + 1), Decimal(|TurnsText([turn], n)|), turn.user])
  {
    hide Quotes, TurnText, Decimal, Ascii;
    assert TurnsText([turn], n) == TurnText(turn, n) by {
      assert [turn][..0] == [];
      assert RenderAll(TurnText, [turn], n) == RenderAll(TurnText, [turn][..0], n) + TurnText(turn, n);
    }
    var number, size := Decimal(n + 1), Decimal(|TurnText(turn, n)|);
    var head, tail := Ascii("TURN ") + number + Ascii(" (") + size + Ascii(" bytes)\n"), turn.user + Ascii("\n\n");
    QuotesTwo(Ascii("TURN "), number, Ascii(" ("), size, Ascii(" bytes)\n"));
    QuotesOne([], turn.user, Ascii("\n\n"));
    assert [] + turn.user + Ascii("\n\n") == tail;
    QuotesAppend(head, [number, size], tail, [turn.user]);
    assert IndexText(turn, n) == head + tail;
    assert [number, size] + [turn.user] == [number, size, turn.user];
  }

  /** How a handoff came about. */
  datatype Lineage =
    | NoLineage
    | OneRequest(summary: Text)
    | Paged(tailStart: nat, pages: seq<Page>, covers: seq<seq<Tree>>, tree: Tree)

  function ExactTail(turns: seq<Turn>, start: nat): Option<Text>
    requires start <= |turns|
  {
    if start == |turns| then None else Some(TurnsText(turns[start..], start))
  }

  /** The tail starts where `ExactTailStart` says, and never at the front. */
  predicate IsTailStart(turns: seq<Turn>, contextBytes: nat, start: nat) {
    && 0 < start <= |turns|
    && (if Fits(turns, 0, contextBytes) then start == |turns|
        else Fits(turns, start, contextBytes) && !Fits(turns, start - 1, contextBytes))
  }

  /** The pages carry exactly the rendering of the pruned head, with truthful
      headers, and the answered pieces of `covers` make them up. */
  ghost predicate CoversHead(w: Wording, contextBytes: nat, turns: seq<Turn>, pruned: seq<Turn>,
                             tailStart: nat, pages: seq<Page>, covers: seq<seq<Tree>>)
    requires |pruned| == |turns|
  {
    && IsTailStart(turns, contextBytes, tailStart)
    && Bodies(pages) == TurnsText(pruned[..tailStart], 0)
    && GoodPages(pages, PayloadBytes(w, contextBytes)) && RangesChain(pages)
    && |covers| == |pages|
    && forall i :: 0 <= i < |pages| ==> Covers(pages[i], covers[i])
  }

  /** Nothing is lost, repeated or reordered: the merge tree's leaves are the
      accepted pieces of the pages, in order; the pages carry the pruned head;
      the tail is the original turns verbatim. */
  ghost predicate FromWholeTranscript(w: Wording, b: Backend, log: seq<Text>, contextBytes: nat,
                                      turns: seq<Turn>, pruned: seq<Turn>, l: Lineage, handoff: Text)
    requires |pruned| == |turns|
  {
    match l
    case NoLineage => false
    case OneRequest(summary) =>
      && log == [PagePrompt(w, TurnsText(pruned, 0))]
      && OutcomeOf(b, log) == Summary(summary)
      && handoff == HandoffText(w, summary, None)
    case Paged(tailStart, pages, covers, tree) =>
      && CoversHead(w, contextBytes, turns, pruned, tailStart, pages, covers)
      && Leaves(tree) == LeavesAll(Flatten(covers))
      && Height(tree) <= Rounds(|Flatten(covers)|)
      && Sound(w, b, log, tree)
      && handoff == HandoffText(w, tree.summary, ExactTail(turns, tailStart))
  }

  function PayloadBytes(w: Wording, contextBytes: nat): nat {
    Max(SatSub(contextBytes, PageOverhead(w)), 1)
  }

  /** What a model target can rely on: the wording leaves room for pages. */
  predicate Reasonable(w: Wording) {
    PageOverhead(w) + FRAGMENT_RESERVE + 4 <= MIN_CONTEXT_BYTES
  }

  lemma LeavesAreGrown(w: Wording, b: Backend, log: seq<Text>, limit: nat,
                       pages: seq<Page>, covers: seq<seq<Tree>>, summaries: seq<Text>)
    requires Covered(w, b, log, limit, pages, covers, summaries)
    ensures Grown(w, b, log, Flatten(covers), summaries, 0)
    ensures GoodPages(pages, limit) && |covers| == |pages| && |Flatten(covers)| == |summaries|
    ensures forall i :: 0 <= i < |pages| ==> Covers(pages[i], covers[i])
  {
  }

  lemma PagedLineage(w: Wording, b: Backend, log: seq<Text>, contextBytes: nat, turns: seq<Turn>, pruned: seq<Turn>,
                     tailStart: nat, pages: seq<Page>, covers: seq<seq<Tree>>, tree: Tree)
    requires |pruned| == |turns| && CoversHead(w, contextBytes, turns, pruned, tailStart, pages, covers)
    requires Leaves(tree) == LeavesAll(Flatten(covers)) && Height(tree) <= Rounds(|Flatten(covers)|) && Sound(w, b, log, tree)
    ensures FromWholeTranscript(w, b, log, contextBytes, turns, pruned, Paged(tailStart, pages, covers, tree),
                                HandoffText(w, tree.summary, ExactTail(turns, tailStart)))
  {
    hide CoversHead;
  }

  /** The handoff a lineage leads to. */
  function LineageText(w: Wording, turns: seq<Turn>, l: Lineage): Text {
    match l
    case NoLineage => []
    case OneRequest(summary) => HandoffText(w, summary, None)
    case Paged(tailStart, _, _, tree) =>
      HandoffText(w, tree.summary, if tailStart <= |turns| then ExactTail(turns, tailStart) else None)
  }

  /** A finished lineage covers the whole transcript, and its handoff is
      returned exactly when it is within the budget. */
  ghost predicate Delivered(w: Wording, b: Backend, log: seq<Text>, contextBytes: nat,
                            turns: seq<Turn>, pruned: seq<Turn>, l: Lineage, r: Result<Text>)
    requires |pruned| == |turns|
  {
    if l.NoLineage? then r.Err? && !r.error.HandoffTooLarge?
    else
      && FromWholeTranscript(w, b, log, contextBytes, turns, pruned, l, LineageText(w, turns, l))
      && r == if |LineageText(w, turns, l)| <= contextBytes then Ok(LineageText(w, turns, l)) else Err(HandoffTooLarge)
  }

  /** The pair that could not be merged, and the pages it was answered from. */
  datatype Impasse = NoImpasse | Impasse(tailStart: nat, pages: seq<Page>, covers: seq<seq<Tree>>, pair: Stuck)

  /** The pages carry the pruned head, every piece of them was answered, and two
      summaries standing for neighbouring stretches of those pieces have a merge
      prompt over the budget. */
  ghost predicate Halted(w: Wording, b: Backend, log: seq<Text>, contextBytes: nat, turns: seq<Turn>, pruned: seq<Turn>, p: Impasse)
    requires |pruned| == |turns|
  {
    && p.Impasse?
    && CoversHead(w, contextBytes, turns, pruned, p.tailStart, p.pages, p.covers)
    && CannotMerge(w, b, log, contextBytes, LeavesAll(Flatten(p.covers)), p.pair)
  }

  /** The handoff is the summary and, unless `all` was summarized, the tail. */
  predicate LaidOut(w: Wording, summary: Text, all: bool, tail: Text, r: Result<Text>) {
    r.Ok? ==> r.value == w.handoffOpen + summary + if all then [] else w.tailOpen + tail + w.tailClose
  }

  /** All of `whole` was passed on: in the one prompt that was answered, or in
      the pages and, after them, in the tail the handoff carries word for word. */
  ghost predicate Conveys(w: Wording, log: seq<Text>, turns: seq<Turn>, l: Lineage, whole: Text, r: Result<Text>) {
    match l
    case NoLineage => r.Err?
    case OneRequest(summary) => log == [w.pageOpen + whole + w.pageClose] && LaidOut(w, summary, true, [], r)
    case Paged(start, pages, _, tree) =>
      && start <= |turns| && Bodies(pages) <= whole
      && (start == |turns| ==> Bodies(pages) == whole)
      && LaidOut(w, tree.summary, start == |turns|, whole[|Bodies(pages)|..], r)
  }

  lemma PagedConveys(w: Wording, contextBytes: nat, turns: seq<Turn>, pruned: seq<Turn>,
                     start: nat, pages: seq<Page>, covers: seq<seq<Tree>>)
    requires IsPruned(turns, pruned) && |pruned| == |turns| && CoversHead(w, contextBytes, turns, pruned, start, pages, covers)
    ensures start <= |turns| && TurnsText(pruned, 0) == Bodies(pages) + TurnsText(turns[start..], start)
    ensures start == |turns| ==> TurnsText(turns[start..], start) == []
  {
    hide IsPruned, TurnText, Bodies, GoodPages, RangesChain, Covers;
    TailUnpruned(turns, pruned, start);
    RenderSuffix(TurnText, pruned, start);
    if start == |turns| {
      RenderNone(start);
      assert turns[start..] == [];
    }
  }

  lemma DeliveredConveys(w: Wording, b: Backend, log: seq<Text>, contextBytes: nat, turns: seq<Turn>, pruned: seq<Turn>,
                         l: Lineage, r: Result<Text>)
    requires IsPruned(turns, pruned) && |pruned| == |turns| && Delivered(w, b, log, contextBytes, turns, pruned, l, r)
    ensures Conveys(w, log, turns, l, TurnsText(pruned, 0), r)
  {
    hide IsPruned, TurnText, RenderAll, CoversHead, Sound, Leaves, LeavesAll, Flatten, Height, OutcomeOf, Bodies;
    match l
    case NoLineage =>
    case OneRequest(summary) => assert w.handoffOpen + summary + [] == w.handoffOpen + summary;
    case Paged(start, pages, covers, tree) =>
      PagedConveys(w, contextBytes, turns, pruned, start, pages, covers);
      var tail := TurnsText(turns[start..], start);
      assert TurnsText(pruned, 0)[|Bodies(pages)|..] == tail;
      if start == |turns| {
        assert w.handoffOpen + tree.summary + [] == w.handoffOpen + tree.summary;
      } else {
        assert w.handoffOpen + tree.summary + w.tailOpen + tail + w.tailClose ==
               w.handoffOpen + tree.summary + (w.tailOpen + tail + w.tailClose);
      }
  }

  /** The reasons the model and its answers give for failing. */
  ghost predicate FailsFor(w: Wording, b: Backend, log: seq<Text>, contextBytes: nat, turns: seq<Turn>, pruned: seq<Turn>,
                           impasse: Impasse, r: Result<Text>)
    requires |pruned| == |turns|
  {
    && (r == Err(ResponseTooLarge) <==> impasse.Impasse?)
    && (impasse.Impasse? ==> Halted(w, b, log, contextBytes, turns, pruned, impasse))
    && (r.Err? && r.error.BackendRefused? ==> LastFailedWith(b, log, r.error.detail))
    && (r.Err? ==> !r.error.NoHistory? && !r.error.NoSummaries?)
  }

  /** Pages sent since `from` quote `whole`, in order and from its start, under
      truthful headers. */
  predicate QuotedSince(from: seq<Page>, sent: seq<Page>, whole: Text) {
    from <= sent && Bodies(sent[|from|..]) <= whole && RangesChain(sent[|from|..])
  }

  lemma QuotedPages(from: seq<Page>, sent: seq<Page>, pages: seq<Page>, head: Text, whole: Text)
    requires Sends(from, [], sent, pages) && Bodies(pages) <= head && head <= whole && RangesChain(pages)
    ensures QuotedSince(from, sent, whole)
  {
    hide Bodies, RangesChain;
    assert sent[|from|..] == pages;
  }

  lemma QuotedNothing(sent: seq<Page>, whole: Text)
    ensures QuotedSince(sent, sent, whole)
  {
    assert sent[|sent|..] == [];
  }

  lemma HeadCovered(w: Wording, contextBytes: nat, turns: seq<Turn>, pruned: seq<Turn>,
                    tailStart: nat, pages: seq<Page>, covers: seq<seq<Tree>>)
    requires |pruned| == |turns| && IsTailStart(turns, contextBytes, tailStart)
    requires Bodies(pages) == TurnsText(pruned[..tailStart], 0)
    requires GoodPages(pages, PayloadBytes(w, contextBytes)) && RangesChain(pages) && |covers| == |pages|
    requires forall i :: 0 <= i < |pages| ==> Covers(pages[i], covers[i])
    ensures CoversHead(w, contextBytes, turns, pruned, tailStart, pages, covers)
  {
    hide IsTailStart, Bodies, RangesChain, GoodPages, Covers, TurnText, RenderAll;
  }

  /** At most twice what the pages sent may cost: once for their pieces, once
      for the merges. */
  predicate Frugal(log: seq<Text>, sent: seq<Page>) {
    |log| <= 2 * PagesBudget(sent)
  }

  /** The paged pipeline: summarize the head page by page, merge, append the
      tail. */
  method CompactPaged(requests: Requests, contextBytes: nat, turns: seq<Turn>, pruned: seq<Turn>)
    returns (r: Result<Text>, ghost lineage: Lineage, ghost impasse: Impasse)
    requires MIN_CONTEXT_BYTES <= contextBytes <= USIZE_MAX && Reasonable(requests.w) && PageOverhead(requests.w) > 0
    requires turns != [] && IsPruned(turns, pruned) && ValidTurns(pruned)
    requires |TurnsText(turns, 0)| <= USIZE_MAX && |TurnsText(pruned, 0)| <= USIZE_MAX
    requires Alive(requests.backend, requests.log) && Within(requests.log, contextBytes) && requests.AllExplained()
    requires requests.InBudget()
    modifies requests
    ensures NothingAfterFatal(requests.backend, requests.log) && Within(requests.log, contextBytes)
    ensures Frugal(requests.log, requests.sent)
    ensures requests.AllExplained() && QuotedSince(old(requests.sent), requests.sent, TurnsText(pruned, 0))
    ensures |pruned| == |turns| && (lineage.Paged? || lineage.NoLineage?)
    ensures Delivered(requests.w, requests.backend, requests.log, contextBytes, turns, pruned, lineage, r)
    ensures FailsFor(requests.w, requests.backend, requests.log, contextBytes, turns, pruned, impasse, r)
    ensures r == Err(UserMessagesTooLarge) <==> |UserIndex(turns)| > contextBytes
    ensures r != Err(ContextTooSmall)
  {
    hide TurnText, RenderAll, UserIndex, GoodPage, Alive, Covered, Sound, Grown, FromWholeTranscript, Requests.AllExplained,
      Sends, Bodies, QuotedSince, CannotMerge, LastFailedWith, NothingAfterFatal, RangesChain, PagesBudget, Covers, CoversHead,
      GoodPages, LeavesAll, Leaves, Flatten, Height;
    assert PayloadBytes(requests.w, contextBytes) == contextBytes - PageOverhead(requests.w);
    lineage, impasse := NoLineage, NoImpasse;
    AliveFatal(requests.backend, requests.log);
    QuotedNothing(requests.sent, TurnsText(pruned, 0));
    if |UserIndex(turns)| > contextBytes {
      r := Err(UserMessagesTooLarge);
      return;
    }
    var tailStart := ExactTailStart(turns, contextBytes);
    var limit := PayloadBytes(requests.w, contextBytes);
    RenderSuffix(TurnText, pruned, tailStart);
    TurnsPrefix(pruned, tailStart);
    var paged, pages, covers := requests.SummarizeTurnPages(pruned[..tailStart], limit);
    QuotedPages(old(requests.sent), requests.sent, pages, TurnsText(pruned[..tailStart], 0), TurnsText(pruned, 0));
    if paged.Err? {
      r := Err(paged.error);
      return;
    }
    LeavesAreGrown(requests.w, requests.backend, requests.log, limit, pages, covers, paged.value);
    HeadCovered(requests.w, contextBytes, turns, pruned, tailStart, pages, covers);
    var reduced;
    ghost var tree, stuck;
    reduced, tree, stuck := ReduceSummaries(requests, contextBytes, paged.value, Flatten(covers));
    if reduced.Err? {
      if stuck.Pair? {
        impasse := Impasse(tailStart, pages, covers, stuck);
      }
      r := Err(reduced.error);
      return;
    }
    lineage := Paged(tailStart, pages, covers, tree);
    PagedLineage(requests.w, requests.backend, requests.log, contextBytes, turns, pruned, tailStart, pages, covers, tree);
    r := MakeHandoff(requests.w, reduced.value, ExactTail(turns, tailStart), contextBytes);
  }

  /** The one request a short transcript takes, and whether it settles things. */
  predicate SettledAtOnce(w: Wording, b: Backend, contextBytes: nat, pruned: seq<Turn>) {
    && PageOverhead(w) + |TurnsText(pruned, 0)| <= contextBytes
    && !OutcomeOf(b, [PagePrompt(w, TurnsText(pruned, 0))]).Splittable?
  }

  /** Everything said about the end of a compaction: what a handoff is, and
      exactly when each refusal happens. */
  ghost predicate Justified(w: Wording, b: Backend, log: seq<Text>, contextBytes: nat, turns: seq<Turn>, pruned: seq<Turn>,
                            lineage: Lineage, impasse: Impasse, r: Result<Text>)
    requires |pruned| == |turns|
  {
    && (r == Err(ContextTooSmall) <==> contextBytes < MIN_CONTEXT_BYTES)
    && (r == Err(UserMessagesTooLarge) <==>
          MIN_CONTEXT_BYTES <= contextBytes < |UserIndex(turns)| && !SettledAtOnce(w, b, contextBytes, pruned))
    && Delivered(w, b, log, contextBytes, turns, pruned, lineage, r)
    && FailsFor(w, b, log, contextBytes, turns, pruned, impasse, r)
  }

  /** The whole transcript at once, or pages that quote it, or both. */
  predicate SentWell(sent: seq<Page>, whole: Text) {
    QuotedSince([], sent, whole) || QuotedSince([Whole(whole)], sent, whole)
  }

  /** Compact a transcript into one handoff turn. */
  method CompactTurns(requests: Requests, contextBytes: nat, turns: seq<Turn>)
    returns (r: Result<Text>, pruned: seq<Turn>, ghost lineage: Lineage, ghost impasse: Impasse)
    requires contextBytes <= USIZE_MAX && Reasonable(requests.w) && PageOverhead(requests.w) > 0
    requires turns != [] && ValidTurns(turns) && FitsMemory(requests.w, turns)
    requires requests.log == [] && requests.sent == []
    modifies requests
    ensures NothingAfterFatal(requests.backend, requests.log)
    ensures Within(requests.log, contextBytes) && Frugal(requests.log, requests.sent)
    ensures |pruned| == |turns| && IsPruned(turns, pruned)
    ensures requests.AllExplained() && SentWell(requests.sent, TurnsText(pruned, 0))
    ensures Justified(requests.w, requests.backend, requests.log, contextBytes, turns, pruned, lineage, impasse, r)
    ensures Conveys(requests.w, requests.log, turns, lineage, TurnsText(pruned, 0), r)
  {
    hide TurnText, RenderAll, UserIndex, FromWholeTranscript, Conveys, QuotedSince, Halted, Explained, PagePrompt, OutcomeOf,
      HandoffText, NothingAfterFatal, ValidTurns, IsPruned;
    lineage, impasse := NoLineage, NoImpasse;
    pruned := PruneOldToolOutputs(turns);
    SameLength(turns, pruned);
    NothingYet(requests.w, requests.backend);
    var rendered := TurnsText(pruned, 0);
    QuotedNothing([], rendered);
    if contextBytes < MIN_CONTEXT_BYTES {
      r := Err(ContextTooSmall);
      DeliveredConveys(requests.w, requests.backend, requests.log, contextBytes, turns, pruned, lineage, r);
      return;
    }
    PrunedValid(turns, pruned);
    PagePromptLength(requests.w, rendered);
    if SatAdd(|rendered|, PageOverhead(requests.w)) <= contextBytes {
      var outcome := requests.Run(PagePrompt(requests.w, rendered));
      requests.sent := [Whole(rendered)];
      WholeExplained(requests.w, requests.backend, rendered);
      QuotedNothing([Whole(rendered)], rendered);
      match outcome
      case Summary(summary) =>
        lineage := OneRequest(summary);
        OneRequestLineage(requests.w, requests.backend, contextBytes, turns, pruned, summary);
        r := MakeHandoff(requests.w, summary, None, contextBytes);
        DeliveredConveys(requests.w, requests.backend, requests.log, contextBytes, turns, pruned, lineage, r);
        return;
      case Dead(detail) =>
        OutcomeIff(requests.backend, requests.log, detail);
        r := Err(BackendRefused(detail));
        DeliveredConveys(requests.w, requests.backend, requests.log, contextBytes, turns, pruned, lineage, r);
        return;
      case Splittable(_) =>
    }
    r, lineage, impasse := CompactPaged(requests, contextBytes, turns, pruned);
    DeliveredConveys(requests.w, requests.backend, requests.log, contextBytes, turns, pruned, lineage, r);
  }

  lemma SameLength(turns: seq<Turn>, pruned: seq<Turn>)
    requires IsPruned(turns, pruned)
    ensures |pruned| == |turns|
  {
  }

  lemma NothingYet(w: Wording, b: Backend)
    ensures Explained(w, b, [], []) && NothingAfterFatal(b, []) && Alive(b, [])
  {
  }

  lemma WholeExplained(w: Wording, b: Backend, whole: Text)
    ensures Explained(w, b, [PagePrompt(w, whole)], [Whole(whole)])
  {
    hide PagePrompt;
    var pages := [Whole(whole)];
    assert whole == PageText(pages[0])[0..|whole|];
    assert QuotesPage(w, PagePrompt(w, whole), pages);
  }

  lemma OneRequestLineage(w: Wording, b: Backend, contextBytes: nat, turns: seq<Turn>, pruned: seq<Turn>, summary: Text)
    requires |pruned| == |turns| && OutcomeOf(b, [PagePrompt(w, TurnsText(pruned, 0))]) == Summary(summary)
    ensures FromWholeTranscript(w, b, [PagePrompt(w, TurnsText(pruned, 0))], contextBytes, turns, pruned,
                                OneRequest(summary), HandoffText(w, summary, None))
  {
    hide TurnText, RenderAll, PagePrompt, OutcomeOf;
  }

  /** A 64-bit machine can hold the prompt quoting the whole transcript, before
      and after pruning. */
  ghost predicate FitsMemory(w: Wording, turns: seq<Turn>) {
    && |TurnsText(turns, 0)| <= USIZE_MAX
    && forall pruned :: IsPruned(turns, pruned) ==> PageOverhead(w) + |TurnsText(pruned, 0)| <= USIZE_MAX
  }

  lemma PagePromptLength(w: Wording, t: Text)
    ensures |PagePrompt(w, t)| == PageOverhead(w) + |t|
  {
  }
}
