/** Bounded transcript compaction against an arbitrary model backend. */
module Compaction {
  import opened Text
  import opened Transcript
  import opened Pruning
  import opened Paging

  const MIN_CONTEXT_BYTES: nat := 32 * 1024
  /** No split makes a page smaller than this. */
  const SMALLEST_HALF: nat := 2045

  datatype Result<+T> = Ok(value: T) | Err(error: CompactError)

  datatype CompactError =
    | ContextTooSmall
    | UserMessagesTooLarge
    | NoHistory
    | ResponseTooLarge
    | NoSummaries
    | HandoffTooLarge
    | BackendRefused(detail: Text)

  // ----- The backend -----

  datatype CompactionFailure = Oversize | Fatal

  datatype Reply = Answer(text: Text) | Refusal(detail: Text)

  /** Any backend: its reply may depend on every prompt it was ever sent, the
      last of which it is answering. Answers are trimmed. */
  datatype Backend = Backend(compact: seq<Text> -> Reply, classify: Text -> CompactionFailure)

  datatype Outcome =
    | Summary(text: Text)
    | Splittable(detail: Text)
    | Dead(detail: Text)

  function Failed(b: Backend, detail: Text): Outcome {
    match b.classify(detail)
    case Oversize => Splittable(detail)
    case Fatal => Dead(detail)
  }

  function EmptyReply(): Text {
    Ascii("compaction model returned an empty snapshot")
  }

  /** What the last prompt of `log` came to. */
  function OutcomeOf(b: Backend, log: seq<Text>): Outcome {
    match b.compact(log)
    case Answer(text) => if text == [] then Failed(b, EmptyReply()) else Summary(text)
    case Refusal(detail) => Failed(b, detail)
  }

  /** The last prompt of `log` failed for the reason `detail`: the backend's own,
      or that its answer was empty. */
  predicate FailsWith(b: Backend, log: seq<Text>, detail: Text) {
    b.compact(log) == Refusal(detail) || (b.compact(log) == Answer([]) && detail == EmptyReply())
  }

  /** A prompt comes to what the backend says and how it classifies it. */
  lemma OutcomeIff(b: Backend, log: seq<Text>, t: Text)
    ensures OutcomeOf(b, log) == Summary(t) <==> b.compact(log) == Answer(t) && t != []
    ensures OutcomeOf(b, log) == Dead(t) <==> FailsWith(b, log, t) && b.classify(t) == Fatal
    ensures OutcomeOf(b, log) == Splittable(t) <==> FailsWith(b, log, t) && b.classify(t) == Oversize
  {
    hide EmptyReply;
  }

  /** No prompt so far met a failure the backend calls fatal. */
  ghost predicate Alive(b: Backend, log: seq<Text>) {
    forall n, detail :: 0 < n <= |log| && FailsWith(b, log[..n], detail) ==> b.classify(detail) != Fatal
  }

  /** At most the very last prompt met a fatal failure. */
  ghost predicate NothingAfterFatal(b: Backend, log: seq<Text>) {
    log == [] || Alive(b, log[..|log|-1])
  }

  /** `detail` is the backend's own reason for failing the last prompt. */
  ghost predicate LastFailedWith(b: Backend, log: seq<Text>, detail: Text) {
    log != [] && FailsWith(b, log, detail)
  }

  ghost predicate Within(log: seq<Text>, contextBytes: nat) {
    forall i :: 0 <= i < |log| ==> |log[i]| <= contextBytes
  }

  // ----- Prompts -----

  /** The fixed text around what a prompt or handoff quotes. */
  datatype Wording = Wording(
    pageOpen: Text, pageClose: Text,
    mergeOpen: Text, partOpen: Text, partMiddle: Text, partClose: Text, partGap: Text,
    handoffOpen: Text, tailOpen: Text, tailClose: Text)

  function PagePrompt(w: Wording, transcript: Text): Text {
    w.pageOpen + transcript + w.pageClose
  }

  function SnapshotPart(w: Wording, number: nat, summary: Text): Text {
    w.partOpen + Decimal(number) + w.partMiddle + summary + w.partClose
  }

  function ReductionPrompt(w: Wording, first: Text, second: Text): Text {
    w.mergeOpen + SnapshotPart(w, 1, first) + w.partGap + SnapshotPart(w, 2, second)
  }

  function PageOverhead(w: Wording): nat {
    |PagePrompt(w, [])|
  }

  // ----- Summary trees -----

  /** Which page text, or which two summaries, each summary was made from; `at`
      is the request that produced it. */
  datatype Tree =
    | Leaf(page: Text, at: nat, summary: Text)
    | Node(left: Tree, right: Tree, at: nat, summary: Text)

  function Leaves(t: Tree): seq<Text> {
    match t
    case Leaf(page, _, _) => [page]
    case Node(l, r, _, _) => Leaves(l) + Leaves(r)
  }

  function Height(t: Tree): nat {
    match t
    case Leaf(_, _, _) => 0
    case Node(l, r, _, _) => 1 + Max(Height(l), Height(r))
  }

  /** `t.summary` is the backend's answer to a prompt in the log that quotes
      exactly what the tree says it was made from. */
  ghost predicate MadeBy(w: Wording, b: Backend, log: seq<Text>, t: Tree) {
    && t.at < |log|
    && OutcomeOf(b, log[..t.at+1]) == Summary(t.summary)
    && match t
       case Leaf(page, at, _) => log[at] == PagePrompt(w, page)
       case Node(l, r, at, _) => log[at] == ReductionPrompt(w, l.summary, r.summary) && l.at < at && r.at < at
  }

  ghost predicate Sound(w: Wording, b: Backend, log: seq<Text>, t: Tree) {
    && MadeBy(w, b, log, t)
    && (t.Node? ==> Sound(w, b, log, t.left) && Sound(w, b, log, t.right))
  }

  ghost predicate SoundAll(w: Wording, b: Backend, log: seq<Text>, forest: seq<Tree>) {
    forall i :: 0 <= i < |forest| ==> Sound(w, b, log, forest[i])
  }

  function LeavesAll(forest: seq<Tree>): seq<Text> {
    if forest == [] then [] else LeavesAll(forest[..|forest|-1]) + Leaves(forest[|forest|-1])
  }

  predicate AllLeaves(forest: seq<Tree>) {
    forall i :: 0 <= i < |forest| ==> forest[i].Leaf?
  }

  ghost predicate Summarizes(forest: seq<Tree>, summaries: seq<Text>) {
    && |forest| == |summaries|
    && forall i :: 0 <= i < |forest| ==> forest[i].summary == summaries[i]
  }

  lemma MadeByLater(w: Wording, b: Backend, log: seq<Text>, more: seq<Text>, t: Tree)
    requires MadeBy(w, b, log, t)
    ensures MadeBy(w, b, log + more, t)
  {
    hide OutcomeOf, PagePrompt, ReductionPrompt;
    assert (log + more)[..t.at+1] == log[..t.at+1];
  }

  lemma {:induction false} SoundLater(w: Wording, b: Backend, log: seq<Text>, more: seq<Text>, t: Tree)
    requires Sound(w, b, log, t)
    ensures Sound(w, b, log + more, t)
  {
    hide MadeBy;
    MadeByLater(w, b, log, more, t);
    if t.Node? {
      SoundLater(w, b, log, more, t.left);
      SoundLater(w, b, log, more, t.right);
    }
  }

  lemma SoundAllLater(w: Wording, b: Backend, log: seq<Text>, more: seq<Text>, forest: seq<Tree>)
    requires SoundAll(w, b, log, forest)
    ensures SoundAll(w, b, log + more, forest)
  {
    forall i | 0 <= i < |forest| ensures Sound(w, b, log + more, forest[i]) {
      SoundLater(w, b, log, more, forest[i]);
    }
  }

  lemma LeavesSnoc(forest: seq<Tree>, t: Tree)
    ensures LeavesAll(forest + [t]) == LeavesAll(forest) + Leaves(t)
  {
    assert (forest + [t])[..|forest|] == forest;
  }

  lemma {:induction false} LeavesAppend(a: seq<Tree>, b: seq<Tree>)
    ensures LeavesAll(a + b) == LeavesAll(a) + LeavesAll(b)
  {
    if b == [] {
      assert a + b == a;
    } else {
      assert (a + b)[..|a + b|-1] == a + b[..|b|-1];
      LeavesAppend(a, b[..|b|-1]);
    }
  }

  // ----- Adaptive splitting -----

  /** Most requests one page of `n` bytes can cost. */
  function SplitBudget(n: nat): nat {
    if n <= MIN_SPLIT_PAGE_BYTES then 1 else 2 * (n / SMALLEST_HALF) - 1
  }

  function TotalBudget(pages: seq<Text>): nat {
    if pages == [] then 0 else SplitBudget(|pages[0]|) + TotalBudget(pages[1..])
  }

  lemma SplitPays(n: nat, left: nat, right: nat)
    requires n > MIN_SPLIT_PAGE_BYTES && left + right == n
    requires left <= n / 2 < left + 4
    ensures left >= SMALLEST_HALF && right >= SMALLEST_HALF
    ensures SplitBudget(left) + SplitBudget(right) + 1 <= SplitBudget(n)
  {
  }

  function Prompts(w: Wording, pages: seq<Text>): (ps: seq<Text>)
    ensures |ps| == |pages|
  {
    seq(|pages|, i requires 0 <= i < |pages| => PagePrompt(w, pages[i]))
  }

  predicate SubmittablePages(pages: seq<Text>, limit: nat) {
    forall i :: 0 <= i < |pages| ==> ValidText(pages[i]) && |pages[i]| <= limit
  }

  /** A stretch of one of `pages`. */
  ghost predicate PieceOf(t: Text, pages: seq<Text>) {
    exists p, lo, hi :: 0 <= p < |pages| && 0 <= lo <= hi <= |pages[p]| && t == pages[p][lo..hi]
  }

  /** Every text asked about is a piece of `pages`: a whole page or at least the
      smallest half. */
  ghost predicate AskedFrom(asked: seq<Text>, pages: seq<Text>, limit: nat) {
    forall i :: 0 <= i < |asked| ==>
      ValidText(asked[i]) && |asked[i]| <= limit && PieceOf(asked[i], pages) && (asked[i] in pages || |asked[i]| >= SMALLEST_HALF)
  }

  lemma PagesArePieces(pages: seq<Text>, limit: nat)
    requires SubmittablePages(pages, limit)
    ensures AskedFrom(pages, pages, limit)
  {
    hide ValidText;
    forall i | 0 <= i < |pages|
      ensures PieceOf(pages[i], pages)
    {
      assert pages[i] == pages[i][0..|pages[i]|];
    }
  }

  lemma HalvesArePieces(t: Text, pages: seq<Text>, left: Text, right: Text)
    requires PieceOf(t, pages) && left + right == t
    ensures PieceOf(left, pages) && PieceOf(right, pages)
  {
    var p, lo, hi :| 0 <= p < |pages| && 0 <= lo <= hi <= |pages[p]| && t == pages[p][lo..hi];
    assert left == t[..|left|] && right == t[|left|..];
    assert left == pages[p][lo..lo + |left|];
    assert right == pages[p][lo + |left|..hi];
  }

  /** The splitting loop between two requests, what was asked: only pieces of
      `pages`, within the request budget. */
  ghost predicate SplitLog(w: Wording, b: Backend, start: seq<Text>, log: seq<Text>, pages: seq<Text>, limit: nat,
                           pending: seq<Text>, asked: seq<Text>) {
    && Alive(b, log) && log == start + Prompts(w, asked)
    && AskedFrom(asked, pages, limit) && AskedFrom(pending, pages, limit)
    && |asked| + TotalBudget(pending) <= TotalBudget(pages)
  }

  /** And what was answered: accepted pieces, then the pieces still pending. */
  ghost predicate SplitTrees(w: Wording, b: Backend, log: seq<Text>, pages: seq<Text>, pending: seq<Text>,
                             forest: seq<Tree>, summaries: seq<Text>) {
    && AllLeaves(forest) && Summarizes(forest, summaries) && SoundAll(w, b, log, forest)
    && Concat(LeavesAll(forest)) + Concat(pending) == Concat(pages)
  }

  lemma PromptsSnoc(w: Wording, asked: seq<Text>, page: Text)
    ensures Prompts(w, asked + [page]) == Prompts(w, asked) + [PagePrompt(w, page)]
  {
  }

  lemma LeafAdded(w: Wording, b: Backend, log: seq<Text>, forest: seq<Tree>, page: Text, log': seq<Text>, summary: Text)
    requires SoundAll(w, b, log, forest)
    requires log' == log + [PagePrompt(w, page)] && OutcomeOf(b, log') == Summary(summary)
    ensures SoundAll(w, b, log', forest + [Leaf(page, |log|, summary)])
    ensures Concat(LeavesAll(forest + [Leaf(page, |log|, summary)])) == Concat(LeavesAll(forest)) + page
  {
    var leaf := Leaf(page, |log|, summary);
    SoundAllLater(w, b, log, [PagePrompt(w, page)], forest);
    assert log'[..|log|+1] == log';
    assert Sound(w, b, log', leaf);
    LeavesSnoc(forest, leaf);
    ConcatSnoc(LeavesAll(forest), page);
  }

  lemma AskedNext(w: Wording, b: Backend, start: seq<Text>, log: seq<Text>, pages: seq<Text>, limit: nat,
                  pending: seq<Text>, asked: seq<Text>, log': seq<Text>)
    requires pending != [] && SplitLog(w, b, start, log, pages, limit, pending, asked)
    requires log' == log + [PagePrompt(w, pending[0])]
    ensures log' == start + Prompts(w, asked + [pending[0]]) && AskedFrom(asked + [pending[0]], pages, limit)
    ensures |asked| + 1 <= TotalBudget(pages)
    ensures Alive(b, log') ==> SplitLog(w, b, start, log', pages, limit, pending[1..], asked + [pending[0]])
  {
    hide PieceOf;
    PromptsSnoc(w, asked, pending[0]);
    Assoc(start, Prompts(w, asked), [PagePrompt(w, pending[0])]);
  }

  lemma PieceAccepted(w: Wording, b: Backend, log: seq<Text>, pages: seq<Text>, pending: seq<Text>,
                      forest: seq<Tree>, summaries: seq<Text>, log': seq<Text>, summary: Text)
    requires pending != [] && SplitTrees(w, b, log, pages, pending, forest, summaries)
    requires log' == log + [PagePrompt(w, pending[0])] && OutcomeOf(b, log') == Summary(summary)
    ensures SplitTrees(w, b, log', pages, pending[1..], forest + [Leaf(pending[0], |log|, summary)], summaries + [summary])
  {
    hide SoundAll, LeavesAll, PagePrompt, OutcomeOf;
    LeafAdded(w, b, log, forest, pending[0], log', summary);
    Assoc(Concat(LeavesAll(forest)), pending[0], Concat(pending[1..]));
  }

  lemma HalvesInBudget(pages: seq<Text>, limit: nat, pending: seq<Text>, left: Text, right: Text)
    requires pending != [] && AskedFrom(pending, pages, limit)
    requires |pending[0]| > MIN_SPLIT_PAGE_BYTES && left + right == pending[0]
    requires |left| <= |pending[0]| / 2 < |left| + 4 && ValidText(left) && ValidText(right)
    ensures AskedFrom([left, right] + pending[1..], pages, limit)
    ensures 1 + TotalBudget([left, right] + pending[1..]) <= TotalBudget(pending)
    ensures Concat([left, right] + pending[1..]) == Concat(pending)
  {
    hide PieceOf;
    HalvesArePieces(pending[0], pages, left, right);
    var rest, more := pending[1..], [left, right] + pending[1..];
    SplitPays(|pending[0]|, |left|, |right|);
    assert more[1..] == [right] + rest;
    assert more[1..][1..] == rest;
    assert Concat(more) == left + (right + Concat(rest));
    Assoc(left, right, Concat(rest));
    assert TotalBudget(more) == SplitBudget(|left|) + (SplitBudget(|right|) + TotalBudget(rest));
  }

  lemma PieceSplit(w: Wording, b: Backend, start: seq<Text>, log: seq<Text>, pages: seq<Text>, limit: nat,
                   pending: seq<Text>, forest: seq<Tree>, summaries: seq<Text>, asked: seq<Text>,
                   log': seq<Text>, left: Text, right: Text)
    requires pending != [] && SplitLog(w, b, start, log, pages, limit, pending, asked)
    requires SplitTrees(w, b, log, pages, pending, forest, summaries)
    requires log' == log + [PagePrompt(w, pending[0])] && Alive(b, log')
    requires |pending[0]| > MIN_SPLIT_PAGE_BYTES && left + right == pending[0]
    requires |left| <= |pending[0]| / 2 < |left| + 4 && ValidText(left) && ValidText(right)
    ensures SplitLog(w, b, start, log', pages, limit, [left, right] + pending[1..], asked + [pending[0]])
    ensures SplitTrees(w, b, log', pages, [left, right] + pending[1..], forest, summaries)
    ensures TotalBudget([left, right] + pending[1..]) < TotalBudget(pending)
  {
    AskedNext(w, b, start, log, pages, limit, pending, asked, log');
    HalvesInBudget(pages, limit, pending, left, right);
    SoundAllLater(w, b, log, [PagePrompt(w, pending[0])], forest);
  }

  // ----- Pages of turns -----

  /** The accepted pieces of `page`, in order, are exactly its text. */
  ghost predicate Covers(page: Page, cover: seq<Tree>) {
    Concat(LeavesAll(cover)) == PageText(page)
  }

  /** Pages submitted so far, the pieces covering each, and the summaries. */
  ghost predicate Covered(w: Wording, b: Backend, log: seq<Text>, limit: nat,
                          pages: seq<Page>, covers: seq<seq<Tree>>, summaries: seq<Text>) {
    && GoodPages(pages, limit)
    && |covers| == |pages|
    && (forall i :: 0 <= i < |pages| ==> Covers(pages[i], covers[i]))
    && AllLeaves(Flatten(covers)) && Summarizes(Flatten(covers), summaries)
    && SoundAll(w, b, log, Flatten(covers))
  }

  /** The prompt quotes a stretch of one of the pages. */
  ghost predicate QuotesPage(w: Wording, prompt: Text, pages: seq<Page>) {
    exists p, lo, hi :: 0 <= p < |pages| && 0 <= lo <= hi <= |PageText(pages[p])| && prompt == PagePrompt(w, PageText(pages[p])[lo..hi])
  }

  /** Prompt `i` merges the answers to two earlier ones. */
  ghost predicate MergesEarlier(w: Wording, b: Backend, log: seq<Text>, i: nat)
    requires i < |log|
  {
    exists j: nat, k: nat ::
      j < i && k < i && SummaryAt(b, log, j).Some? && SummaryAt(b, log, k).Some? &&
      log[i] == ReductionPrompt(w, SummaryAt(b, log, j).value, SummaryAt(b, log, k).value)
  }

  /** The answer to prompt `j`, if it was one. */
  function SummaryAt(b: Backend, log: seq<Text>, j: nat): Option<Text> {
    if j < |log| && OutcomeOf(b, log[..j+1]).Summary? then Some(OutcomeOf(b, log[..j+1]).text) else None
  }

  lemma SummaryStill(b: Backend, log: seq<Text>, more: seq<Text>, j: nat)
    requires j < |log|
    ensures SummaryAt(b, log + more, j) == SummaryAt(b, log, j)
  {
    hide OutcomeOf;
    assert (log + more)[..j+1] == log[..j+1];
  }

  /** Every prompt ever sent, answered or not, quotes a page sent or merges two
      answers. */
  ghost predicate Explained(w: Wording, b: Backend, log: seq<Text>, sent: seq<Page>) {
    forall i :: 0 <= i < |log| ==> QuotesPage(w, log[i], sent) || MergesEarlier(w, b, log, i)
  }

  lemma QuotesMore(w: Wording, prompt: Text, sent: seq<Page>, page: Page)
    requires QuotesPage(w, prompt, sent)
    ensures QuotesPage(w, prompt, sent + [page])
  {
    var p, lo, hi :|
      0 <= p < |sent| && 0 <= lo <= hi <= |PageText(sent[p])| && prompt == PagePrompt(w, PageText(sent[p])[lo..hi]);
    assert (sent + [page])[p] == sent[p];
  }

  lemma MergesStill(w: Wording, b: Backend, log: seq<Text>, more: seq<Text>, i: nat)
    requires i < |log| && MergesEarlier(w, b, log, i)
    ensures MergesEarlier(w, b, log + more, i)
  {
    hide SummaryAt, ReductionPrompt;
    var j: nat, k: nat :|
      j < i && k < i && SummaryAt(b, log, j).Some? && SummaryAt(b, log, k).Some? &&
      log[i] == ReductionPrompt(w, SummaryAt(b, log, j).value, SummaryAt(b, log, k).value);
    SummaryStill(b, log, more, j);
    SummaryStill(b, log, more, k);
  }

  /** Asking about pieces of one more page. */
  lemma ExplainedPage(w: Wording, b: Backend, log: seq<Text>, sent: seq<Page>, page: Page, asked: seq<Text>, limit: nat)
    requires Explained(w, b, log, sent) && AskedFrom(asked, [PageText(page)], limit)
    ensures Explained(w, b, log + Prompts(w, asked), sent + [page])
  {
    hide QuotesPage, MergesEarlier, ValidText, PagePrompt, PieceOf, PageText;
    var all, log' := sent + [page], log + Prompts(w, asked);
    forall i | 0 <= i < |log'|
      ensures QuotesPage(w, log'[i], all) || MergesEarlier(w, b, log', i)
    {
      if i < |log| {
        if QuotesPage(w, log[i], sent) {
          QuotesMore(w, log[i], sent, page);
        } else {
          MergesStill(w, b, log, Prompts(w, asked), i);
        }
      } else {
        QuotesPiece(w, asked[i - |log|], sent, page);
      }
    }
  }

  lemma QuotesPiece(w: Wording, t: Text, sent: seq<Page>, page: Page)
    requires PieceOf(t, [PageText(page)])
    ensures QuotesPage(w, PagePrompt(w, t), sent + [page])
  {
    hide PagePrompt, PageText;
    var p, lo, hi :| 0 <= p < 1 && 0 <= lo <= hi <= |[PageText(page)][p]| && t == [PageText(page)][p][lo..hi];
    var all := sent + [page];
    assert all[|sent|] == page;
    assert t == PageText(all[|sent|])[lo..hi];
  }

  lemma ExplainedMerge(w: Wording, b: Backend, log: seq<Text>, sent: seq<Page>, left: Tree, right: Tree)
    requires Explained(w, b, log, sent) && MadeBy(w, b, log, left) && MadeBy(w, b, log, right)
    ensures Explained(w, b, log + [ReductionPrompt(w, left.summary, right.summary)], sent)
  {
    hide QuotesPage, ReductionPrompt, OutcomeOf, PagePrompt;
    var prompt := ReductionPrompt(w, left.summary, right.summary);
    var log' := log + [prompt];
    SummaryStill(b, log, [prompt], left.at);
    SummaryStill(b, log, [prompt], right.at);
    assert SummaryAt(b, log', left.at) == Some(left.summary) && SummaryAt(b, log', right.at) == Some(right.summary);
    assert MergesEarlier(w, b, log', |log|);
    forall i | 0 <= i < |log|
      ensures QuotesPage(w, log'[i], sent) || MergesEarlier(w, b, log', i)
    {
      if !QuotesPage(w, log[i], sent) {
        MergesStill(w, b, log, [prompt], i);
      }
    }
  }

  /** Most requests a number of pages can cost. */
  function PagesBudget(pages: seq<Page>): nat {
    if pages == [] then 0 else PagesBudget(pages[..|pages|-1]) + SplitBudget(|PageText(pages[|pages|-1])|)
  }

  lemma PagesBudgetSnoc(pages: seq<Page>, page: Page)
    ensures PagesBudget(pages + [page]) == PagesBudget(pages) + SplitBudget(|PageText(page)|)
  {
    assert (pages + [page])[..|pages|] == pages;
  }

  function PagesBytes(pages: seq<Page>): nat {
    if pages == [] then 0 else PagesBytes(pages[..|pages|-1]) + |PageText(pages[|pages|-1])|
  }

  /** In bytes: one request a page, and two for every 2045 bytes. */
  lemma {:induction false} BudgetInBytes(pages: seq<Page>)
    ensures SMALLEST_HALF * PagesBudget(pages) <= SMALLEST_HALF * |pages| + 2 * PagesBytes(pages)
  {
    if pages != [] {
      BudgetInBytes(pages[..|pages|-1]);
    }
  }

  /** The pages added to `pages` are the ones added to `sent`. */
  predicate Sends(sent: seq<Page>, pages: seq<Page>, sent': seq<Page>, pages': seq<Page>) {
    pages <= pages' && sent' == sent + pages'[|pages|..]
  }

  lemma SendsOne(sent: seq<Page>, pages: seq<Page>, page: Page)
    ensures Sends(sent, pages, sent + [page], pages + [page])
  {
  }

  lemma SendsTrans(s0: seq<Page>, p0: seq<Page>, s1: seq<Page>, p1: seq<Page>, s2: seq<Page>, p2: seq<Page>)
    requires Sends(s0, p0, s1, p1) && Sends(s1, p1, s2, p2)
    ensures Sends(s0, p0, s2, p2)
  {
    assert p2[|p0|..] == p1[|p0|..] + p2[|p1|..];
  }

  /** Prompts added by submitting pages stay within the budget. */
  ghost predicate PageLog(w: Wording, log: seq<Text>, limit: nat) {
    Within(log, PageOverhead(w) + limit)
  }

  lemma PromptsWithin(w: Wording, log: seq<Text>, asked: seq<Text>, pages: seq<Text>, limit: nat)
    requires PageLog(w, log, limit) && AskedFrom(asked, pages, limit)
    ensures PageLog(w, log + Prompts(w, asked), limit)
  {
  }

  lemma PageCovered(w: Wording, b: Backend, log: seq<Text>, limit: nat, pages: seq<Page>, covers: seq<seq<Tree>>,
                    summaries: seq<Text>, page: Page, more: seq<Text>, cover: seq<Tree>, got: seq<Text>)
    requires Covered(w, b, log, limit, pages, covers, summaries) && GoodPage(page, limit)
    requires Covers(page, cover) && AllLeaves(cover) && Summarizes(cover, got) && SoundAll(w, b, log + more, cover)
    ensures Covered(w, b, log + more, limit, pages + [page], covers + [cover], summaries + got)
  {
    hide Flatten, GoodPage, Sound, Covers;
    FlattenSnoc(covers, cover);
    SoundAllLater(w, b, log, more, Flatten(covers));
  }

  /** Nonempty text needs at least one piece. */
  lemma CoveredNonempty(w: Wording, b: Backend, log: seq<Text>, limit: nat,
                        pages: seq<Page>, covers: seq<seq<Tree>>, summaries: seq<Text>)
    requires Covered(w, b, log, limit, pages, covers, summaries)
    ensures pages != [] ==> summaries != []
  {
    if pages != [] {
      var n := |pages| - 1;
      assert PageText(pages[n]) != [];
      assert LeavesAll([]) == [];
    }
  }

  /** The paging loop between two turns: submitted pages and the page being
      filled carry `text`, the rendering so far. */
  ghost predicate Paged(w: Wording, b: Backend, log: seq<Text>, limit: nat, pages: seq<Page>, covers: seq<seq<Tree>>,
                        summaries: seq<Text>, page: Text, text: Text) {
    && Alive(b, log) && PageLog(w, log, limit)
    && Covered(w, b, log, limit, pages, covers, summaries)
    && Packing(pages, page, text, limit)
  }

  lemma TurnValid(turn: Turn, index: nat)
    requires ValidTurn(turn)
    ensures ValidText(TurnText(turn, index)) && TurnText(turn, index) != []
  {
    OpenValid(turn, index);
    TurnRendersWell(turn);
    JoinValid(EventText, turn.events);
    assert ValidText(CloseText());
    ValidConcat(OpenText(turn, index), EventsText(turn.events));
    ValidConcat(OpenText(turn, index) + EventsText(turn.events), CloseText());
  }

  class Requests {
    const w: Wording
    const backend: Backend
    /** Every prompt sent, in order. */
    var log: seq<Text>
    /** Every page submitted, whole or in pieces. */
    ghost var sent: seq<Page>

    constructor (w: Wording, backend: Backend)
      ensures this.w == w && this.backend == backend && log == [] && sent == [] && AllExplained()
    {
      this.w := w;
      this.backend := backend;
      log := [];
      sent := [];
    }

    ghost predicate AllExplained()
      reads this
    {
      Explained(w, backend, log, sent)
    }

    /** No more requests than the pages sent may cost. */
    ghost predicate InBudget()
      reads this
    {
      |log| <= PagesBudget(sent)
    }

    /** Sending anything after a fatal failure is a precondition error. */
    method Run(prompt: Text) returns (outcome: Outcome)
      requires Alive(backend, log)
      modifies this`log
      ensures log == old(log) + [prompt]
      ensures outcome == OutcomeOf(backend, log)
      ensures NothingAfterFatal(backend, log)
      ensures !outcome.Dead? ==> Alive(backend, log)
    {
      log := log + [prompt];
      assert log[..|log|-1] == old(log);
      assert forall n :: 0 < n <= |old(log)| ==> log[..n] == old(log)[..n];
      assert log[..|log|] == log;
      outcome := OutcomeOf(backend, log);
    }

    /** Halve rejected pages until the backend accepts every piece. */
    method SummarizePagesAdaptively(pages: seq<Text>, ghost limit: nat)
      returns (r: Result<seq<Text>>, ghost forest: seq<Tree>, ghost asked: seq<Text>)
      requires Alive(backend, log) && SubmittablePages(pages, limit)
      modifies this`log
      ensures log == old(log) + Prompts(w, asked)
      ensures AskedFrom(asked, pages, limit) && |asked| <= TotalBudget(pages)
      ensures r.Ok? ==> Alive(backend, log)
      ensures r.Ok? ==> AllLeaves(forest) && Summarizes(forest, r.value) && SoundAll(w, backend, log, forest)
      ensures r.Ok? ==> Concat(LeavesAll(forest)) == Concat(pages) && |r.value| <= |asked|
      ensures r.Err? ==> r.error.BackendRefused? && LastFailedWith(backend, log, r.error.detail)
      ensures r.Err? ==> NothingAfterFatal(backend, log)
    {
      hide PieceOf, EmptyReply;
      PagesArePieces(pages, limit);
      var pending := pages;
      var summaries: seq<Text> := [];
      forest, asked := [], [];
      ghost var start := log;
      while pending != []
        invariant SplitLog(w, backend, start, log, pages, limit, pending, asked)
        invariant SplitTrees(w, backend, log, pages, pending, forest, summaries)
        invariant |summaries| <= |asked|
        decreases TotalBudget(pending)
      {
        var page := pending[0];
        ghost var before := log;
        var outcome := Run(PagePrompt(w, page));
        AskedNext(w, backend, start, before, pages, limit, pending, asked, log);
        match outcome
        case Dead(detail) =>
          asked := asked + [page];
          r := Err(BackendRefused(detail));
          return;
        case Summary(summary) =>
          PieceAccepted(w, backend, before, pages, pending, forest, summaries, log, summary);
          pending, summaries := pending[1..], summaries + [summary];
          forest, asked := forest + [Leaf(page, |before|, summary)], asked + [page];
        case Splittable(detail) =>
          if |page| <= MIN_SPLIT_PAGE_BYTES {
            asked := asked + [page];
            r := Err(BackendRefused(detail));
            return;
          }
          var left, right := SplitAtUtf8Midpoint(page);
          PieceSplit(w, backend, start, before, pages, limit, pending, forest, summaries, asked, log, left, right);
          pending := [left, right] + pending[1..];
          asked := asked + [page];
      }
      r := Ok(summaries);
    }

    /** Submit one page and record what covers it. */
    method SubmitPage(page: Page, summaries: seq<Text>, limit: nat, ghost pages: seq<Page>, ghost covers: seq<seq<Tree>>)
      returns (r: Result<seq<Text>>, ghost pages': seq<Page>, ghost covers': seq<seq<Tree>>)
      requires Alive(backend, log) && PageLog(w, log, limit) && GoodPage(page, limit)
      requires Covered(w, backend, log, limit, pages, covers, summaries) && AllExplained() && InBudget() && |summaries| <= |log|
      modifies this
      ensures PageLog(w, log, limit) && NothingAfterFatal(backend, log)
      ensures pages' == pages + [page] && Sends(old(sent), pages, sent, pages') && AllExplained()
      ensures r.Ok? ==> Alive(backend, log) && Covered(w, backend, log, limit, pages', covers', r.value)
      ensures |log| - |old(log)| <= SplitBudget(|PageText(page)|) && InBudget() && (r.Ok? ==> |r.value| <= |log|)
      ensures r.Err? ==> r.error.BackendRefused? && LastFailedWith(backend, log, r.error.detail)
    {
      hide Explained, Sends, AskedFrom, PagesBudget;
      var texts := [PageText(page)];
      ConcatOne(PageText(page));
      assert TotalBudget(texts) == SplitBudget(|texts[0]|) + TotalBudget([]);
      var answered, cover, asked := SummarizePagesAdaptively(texts, limit);
      PromptsWithin(w, old(log), asked, texts, limit);
      ExplainedPage(w, backend, old(log), sent, page, asked, limit);
      SendsOne(sent, pages, page);
      PagesBudgetSnoc(sent, page);
      sent := sent + [page];
      pages', covers' := pages + [page], covers + [cover];
      match answered
      case Err(e) => r := Err(e);
      case Ok(got) =>
        AliveFatal(backend, log);
        PageCovered(w, backend, old(log), limit, pages, covers, summaries, page, Prompts(w, asked), cover, got);
        r := Ok(summaries + got);
    }

    /** Submit one page and go on from an empty one. */
    method SubmitNext(page: Page, summaries: seq<Text>, limit: nat,
                      ghost pages: seq<Page>, ghost covers: seq<seq<Tree>>, ghost text: Text)
      returns (r: Result<seq<Text>>, ghost pages': seq<Page>, ghost covers': seq<seq<Tree>>)
      requires Paged(w, backend, log, limit, pages, covers, summaries, [], text) && GoodPage(page, limit) && AllExplained()
      requires InBudget() && |summaries| <= |log| && RangesChain(pages + [page])
      modifies this
      ensures PageLog(w, log, limit) && NothingAfterFatal(backend, log)
      ensures Sends(old(sent), pages, sent, pages') && AllExplained() && Bodies(pages') == text + page.body
      ensures InBudget() && (r.Ok? ==> |r.value| <= |log|) && pages' == pages + [page]
      ensures r.Ok? ==> Paged(w, backend, log, limit, pages', covers', r.value, [], text + page.body)
      ensures r.Err? ==> r.error.BackendRefused? && LastFailedWith(backend, log, r.error.detail)
    {
      hide GoodPage, Covered, PageLog, Alive, Requests.AllExplained, Requests.InBudget, Sends, Bodies, RangesChain;
      AddPage(pages, text, limit, page);
      PackedBodies(pages + [page], text + page.body, limit);
      r, pages', covers' := SubmitPage(page, summaries, limit, pages, covers);
    }

    /** Submit the page being filled. */
    method FlushPage(page: Text, summaries: seq<Text>, limit: nat,
                     ghost pages: seq<Page>, ghost covers: seq<seq<Tree>>, ghost text: Text)
      returns (r: Result<seq<Text>>, ghost pages': seq<Page>, ghost covers': seq<seq<Tree>>)
      requires Paged(w, backend, log, limit, pages, covers, summaries, page, text) && page != [] && AllExplained()
      requires InBudget() && |summaries| <= |log|
      modifies this
      ensures PageLog(w, log, limit) && NothingAfterFatal(backend, log)
      ensures Sends(old(sent), pages, sent, pages') && AllExplained() && Bodies(pages') == text
      ensures InBudget() && (r.Ok? ==> |r.value| <= |log|) && RangesChain(pages')
      ensures r.Ok? ==> Paged(w, backend, log, limit, pages', covers', r.value, [], text)
      ensures r.Err? ==> r.error.BackendRefused? && LastFailedWith(backend, log, r.error.detail)
    {
      hide Requests.AllExplained, Requests.InBudget, Sends, Bodies, Covered, PageLog, Alive, RangesChain;
      Flush(pages, page, text, limit);
      PackedBodies(pages + [Whole(page)], text, limit);
      r, pages', covers' := SubmitPage(Whole(page), summaries, limit, pages, covers);
    }

    static lemma FragmentsNone(pages: seq<Page>, fragments: seq<Page>, text: Text)
      ensures pages + fragments[..0] == pages && text + Bodies(fragments[..0]) == text
    {
    }

    static lemma FragmentsNext(pages: seq<Page>, fragments: seq<Page>, k: nat, text: Text)
      requires RangesChain(pages) && RangesChain(fragments) && k < |fragments|
      ensures pages + fragments[..k] + [fragments[k]] == pages + fragments[..k+1]
      ensures RangesChain(pages + fragments[..k] + [fragments[k]])
      ensures text + Bodies(fragments[..k]) + fragments[k].body == text + Bodies(fragments[..k+1])
    {
      hide RangesChain;
      assert pages + fragments[..k] + [fragments[k]] == pages + fragments[..k+1];
      assert fragments[..k] + [fragments[k]] == fragments[..k+1];
      BodiesSnoc(fragments[..k], fragments[k]);
      RangesPrefix(fragments, k + 1);
      RangesConcat(pages, fragments[..k+1]);
    }

    /** Submit the fragments of one oversize turn, one by one. */
    method SubmitFragments(fragments: seq<Page>, summaries: seq<Text>, limit: nat,
                           ghost pages: seq<Page>, ghost covers: seq<seq<Tree>>, ghost text: Text)
      returns (r: Result<seq<Text>>, ghost pages': seq<Page>, ghost covers': seq<seq<Tree>>)
      requires Paged(w, backend, log, limit, pages, covers, summaries, [], text) && GoodPages(fragments, limit) && AllExplained()
      requires InBudget() && |summaries| <= |log| && RangesChain(fragments)
      modifies this
      ensures PageLog(w, log, limit) && NothingAfterFatal(backend, log)
      ensures Sends(old(sent), pages, sent, pages') && AllExplained() && Bodies(pages') <= text + Bodies(fragments)
      ensures InBudget() && (r.Ok? ==> |r.value| <= |log|) && RangesChain(pages')
      ensures r.Ok? ==> Paged(w, backend, log, limit, pages', covers', r.value, [], text + Bodies(fragments))
      ensures r.Err? ==> r.error.BackendRefused? && LastFailedWith(backend, log, r.error.detail)
    {
      hide Requests.AllExplained, Requests.InBudget, Sends, PageLog, Alive, Covered, RangesChain, Bodies, Packing, GoodPage,
        NothingAfterFatal, LastFailedWith;
      var got := summaries;
      pages', covers' := pages, covers;
      SendsNothing(sent, pages);
      PackedBodies(pages, text, limit);
      FragmentsNone(pages, fragments, text);
      for k := 0 to |fragments|
        invariant Sends(old(sent), pages, sent, pages') && AllExplained()
        invariant InBudget() && |got| <= |log| && pages' == pages + fragments[..k] && RangesChain(pages')
        invariant Bodies(pages') == text + Bodies(fragments[..k])
        invariant Paged(w, backend, log, limit, pages', covers', got, [], text + Bodies(fragments[..k]))
      {
        FragmentsNext(pages, fragments, k, text);
        ghost var sent0, pages0 := sent, pages';
        r, pages', covers' := SubmitNext(fragments[k], got, limit, pages', covers', text + Bodies(fragments[..k]));
        SendsTrans(old(sent), pages, sent0, pages0, sent, pages');
        BodiesPrefix(fragments, k + 1, text);
        if r.Err? { return; }
        got := r.value;
      }
      assert fragments[..|fragments|] == fragments;
      AliveFatal(backend, log);
      r := Ok(got);
    }

    /** Put one turn on the page being filled, or submit it in fragments. */
    method TakeTurn(turns: seq<Turn>, index: nat, limit: nat, page: Text, summaries: seq<Text>,
                    ghost pages: seq<Page>, ghost covers: seq<seq<Tree>>)
      returns (r: Result<(seq<Text>, Text)>, ghost pages': seq<Page>, ghost covers': seq<seq<Tree>>)
      requires index < |turns| && ValidTurns(turns) && |TurnsText(turns, 0)| <= USIZE_MAX
      requires FRAGMENT_RESERVE + 4 <= limit < USIZE_MAX
      requires Paged(w, backend, log, limit, pages, covers, summaries, page, TurnsText(turns[..index], 0)) && AllExplained()
      requires InBudget() && |summaries| <= |log|
      modifies this
      ensures PageLog(w, log, limit) && NothingAfterFatal(backend, log)
      ensures Sends(old(sent), pages, sent, pages') && AllExplained() && Bodies(pages') <= TurnsText(turns[..index+1], 0)
      ensures InBudget() && (r.Ok? ==> |r.value.0| <= |log|) && RangesChain(pages')
      ensures r.Ok? ==>
        Paged(w, backend, log, limit, pages', covers', r.value.0, r.value.1, TurnsText(turns[..index+1], 0))
      ensures r.Err? ==> r.error.BackendRefused? && LastFailedWith(backend, log, r.error.detail)
    {
      hide TurnText, RenderAll, ValidTurn, Alive, Requests.AllExplained, Requests.InBudget, Sends, Bodies, Covered, PageLog,
        LastFailedWith, NothingAfterFatal, Packing, RangesChain;
      ghost var text := TurnsText(turns[..index], 0);
      var rendered := RenderNext(turns, index);
      var got, filling := summaries, page;
      pages', covers' := pages, covers;
      SendsNothing(sent, pages);
      if page != [] && (|rendered| > limit || SatAdd(|page|, |rendered|) > limit) {
        var flushed;
        flushed, pages', covers' := FlushPage(page, summaries, limit, pages, covers, text);
        if flushed.Err? {
          r := Err(flushed.error);
          return;
        }
        got, filling := flushed.value, [];
      }
      PackedFits(pages', filling, text, limit);
      if |rendered| > limit {
        ghost var sent0, pages0 := sent, pages';
        var fragments := RenderOversizeTurn(turns[index], index, limit);
        var done;
        done, pages', covers' := SubmitFragments(fragments, got, limit, pages', covers', text);
        SendsTrans(old(sent), pages, sent0, pages0, sent, pages');
        r := match done case Ok(all) => Ok((all, [])) case Err(e) => Err(e);
      } else {
        AddPiece(pages', filling, text, limit, rendered);
        PackedFits(pages', filling + rendered, text + rendered, limit);
        AliveFatal(backend, log);
        r := Ok((got, filling + rendered));
      }
    }

    /** Pack turns into pages and summarize each page as it fills. */
    method SummarizeTurnPages(turns: seq<Turn>, limit: nat)
      returns (r: Result<seq<Text>>, ghost pages: seq<Page>, ghost covers: seq<seq<Tree>>)
      requires Alive(backend, log) && PageLog(w, log, limit) && AllExplained() && InBudget()
      requires ValidTurns(turns) && |TurnsText(turns, 0)| <= USIZE_MAX
      requires FRAGMENT_RESERVE + 4 <= limit < USIZE_MAX
      modifies this
      ensures PageLog(w, log, limit) && NothingAfterFatal(backend, log)
      // whatever is sent quotes the turns, in order and from the start
      ensures AllExplained() && Sends(old(sent), [], sent, pages) && Bodies(pages) <= TurnsText(turns, 0)
      ensures InBudget() && (r.Ok? ==> |r.value| <= |log|) && RangesChain(pages)
      ensures r.Ok? ==> Alive(backend, log) && Covered(w, backend, log, limit, pages, covers, r.value)
      ensures r.Ok? ==> r.value != [] && Bodies(pages) == TurnsText(turns, 0)
      ensures r.Err? ==> (r.error.NoHistory? && turns == [])
                         || (r.error.BackendRefused? && LastFailedWith(backend, log, r.error.detail))
    {
      hide TurnText, RenderAll, ValidTurn, Alive, Requests.AllExplained, Requests.InBudget, Sends, Bodies, Covered, PageLog,
        LastFailedWith, NothingAfterFatal, Packing, RangesChain;
      var summaries: seq<Text> := [];
      var page: Text := [];
      pages, covers := [], [];
      SendsNothing(sent, []);
      assert turns[..0] == [] && TurnsText([], 0) == [] by { RenderNone(0); }
      PagedNone(w, backend, log, limit);
      for index := 0 to |turns|
        invariant Paged(w, backend, log, limit, pages, covers, summaries, page, TurnsText(turns[..index], 0))
        invariant Sends(old(sent), [], sent, pages) && AllExplained() && InBudget() && |summaries| <= |log|
      {
        ghost var sent0, pages0 := sent, pages;
        var taken;
        taken, pages, covers := TakeTurn(turns, index, limit, page, summaries, pages, covers);
        SendsTrans(old(sent), [], sent0, pages0, sent, pages);
        TurnsPrefix(turns, index + 1);
        if taken.Err? {
          r := Err(taken.error);
          return;
        }
        summaries, page := taken.value.0, taken.value.1;
      }
      assert turns[..|turns|] == turns;
      if page != [] {
        ghost var sent0, pages0 := sent, pages;
        r, pages, covers := FlushPage(page, summaries, limit, pages, covers, TurnsText(turns, 0));
        SendsTrans(old(sent), [], sent0, pages0, sent, pages);
        if r.Err? { return; }
        summaries, page := r.value, [];
      }
      PackedBodies(pages, TurnsText(turns, 0), limit);
      AliveFatal(backend, log);
      if summaries == [] {
        NoPagesNoTurns(turns, pages);
        CoveredNonempty(w, backend, log, limit, pages, covers, summaries);
        r := Err(NoHistory);
      } else {
        r := Ok(summaries);
      }
    }
  }

  lemma SendsNothing(sent: seq<Page>, pages: seq<Page>)
    ensures Sends(sent, pages, sent, pages)
  {
  }

  lemma PackedBodies(pages: seq<Page>, text: Text, limit: nat)
    requires Packing(pages, [], text, limit)
    ensures Bodies(pages) == text && RangesChain(pages)
  {
    hide Bodies, GoodPages, RangesChain;
  }

  lemma PackedFits(pages: seq<Page>, page: Text, text: Text, limit: nat)
    requires Packing(pages, page, text, limit)
    ensures |page| <= limit && Bodies(pages) <= text && RangesChain(pages)
  {
    hide Bodies, GoodPages, RangesChain;
  }

  lemma PagedNone(w: Wording, b: Backend, log: seq<Text>, limit: nat)
    requires Alive(b, log) && PageLog(w, log, limit)
    ensures Paged(w, b, log, limit, [], [], [], [], [])
  {
    hide Alive, PageLog;
  }

  lemma {:induction false} BodiesPrefix(pages: seq<Page>, k: nat, text: Text)
    requires k <= |pages|
    ensures text + Bodies(pages[..k]) <= text + Bodies(pages)
  {
    hide Bodies;
    assert pages == pages[..k] + pages[k..];
    BodiesAppend(pages[..k], pages[k..]);
  }

  lemma TurnsPrefix(turns: seq<Turn>, k: nat)
    requires k <= |turns|
    ensures TurnsText(turns[..k], 0) <= TurnsText(turns, 0)
  {
    hide TurnText, RenderAll;
    RenderSuffix(TurnText, turns, k);
  }

  method RenderNext(turns: seq<Turn>, index: nat) returns (rendered: Text)
    requires index < |turns| && ValidTurns(turns) && |TurnsText(turns, 0)| <= USIZE_MAX
    ensures rendered == TurnText(turns[index], index) && ValidText(rendered) && |rendered| <= USIZE_MAX
    ensures TurnsText(turns[..index+1], 0) == TurnsText(turns[..index], 0) + rendered
  {
    hide TurnText;
    rendered := TurnText(turns[index], index);
    TurnValid(turns[index], index);
    RenderSnoc(TurnText, turns, index, 0);
    RenderSuffix(TurnText, turns, index + 1);
  }

  lemma NoPagesNoTurns(turns: seq<Turn>, pages: seq<Page>)
    requires Bodies(pages) == TurnsText(turns, 0)
    ensures pages == [] ==> turns == []
  {
    if turns != [] {
      TurnNonempty(turns[|turns|-1], |turns| - 1);
    }
  }

  lemma AliveFatal(b: Backend, log: seq<Text>)
    requires Alive(b, log)
    ensures NothingAfterFatal(b, log)
  {
    if log != [] {
      var front := log[..|log|-1];
      forall n | 0 < n <= |front| ensures !OutcomeOf(b, front[..n]).Dead? {
        assert front[..n] == log[..n];
      }
    }
  }
}
