/** Cutting a rendered transcript into byte-bounded pages. */
module Paging {
  import opened Text
  import opened Transcript

  /** Room `split_utf8` keeps for a fragment header. */
  const FRAGMENT_RESERVE: nat := 96
  /** The smallest page worth halving. */
  const MIN_SPLIT_PAGE_BYTES: nat := 4 * 1024

  /** A page is a run of whole rendered pieces, or one byte range of a piece
      too large for any page, under a header naming the range. */
  datatype Page =
    | Whole(body: Text)
    | Fragment(start: nat, end: nat, body: Text)

  function Header(start: nat, end: nat): Text {
    Ascii("[oversize turn fragment; byte range ") + Decimal(start) + Ascii("..") + Decimal(end) + Ascii("]\n")
  }

  function PageText(p: Page): Text {
    match p
    case Whole(body) => body
    case Fragment(start, end, body) => Header(start, end) + body
  }

  /** What the pages carry, headers aside, in order. */
  function Bodies(pages: seq<Page>): Text {
    if pages == [] then [] else Bodies(pages[..|pages|-1]) + pages[|pages|-1].body
  }

  lemma {:induction false} BodiesAppend(a: seq<Page>, b: seq<Page>)
    ensures Bodies(a + b) == Bodies(a) + Bodies(b)
  {
    if b == [] {
      assert a + b == a;
    } else {
      var front, last := b[..|b|-1], b[|b|-1];
      assert a + b == (a + front) + [last] && b == front + [last];
      BodiesAppend(a, front);
      BodiesSnoc(a + front, last);
      Assoc(Bodies(a), Bodies(front), last.body);
    }
  }

  lemma BodiesSnoc(pages: seq<Page>, p: Page)
    ensures Bodies(pages + [p]) == Bodies(pages) + p.body
  {
    assert (pages + [p])[..|pages|] == pages;
  }

  predicate GoodPage(p: Page, limit: nat) {
    && p.body != []
    && |PageText(p)| <= limit
    && ValidText(PageText(p))
    && EndsIn(PageText(p), p.body)
    && |PageText(p)| == |p.body| + (if p.Whole? then 0 else |Header(p.start, p.end)|)
    && (p.Fragment? ==> Header(p.start, p.end) <= PageText(p))
  }

  predicate GoodPages(pages: seq<Page>, limit: nat) {
    forall i :: 0 <= i < |pages| ==> GoodPage(pages[i], limit)
  }

  // ----- Fragments -----

  /** A header names both ends of its range, and the 96-byte reserve covers the
      header of every 64-bit byte range. */
  lemma HeaderFitsReserve(start: nat, end: nat)
    ensures Quotes(Header(start, end), [Decimal(start), Decimal(end)])
    ensures start <= USIZE_MAX && end <= USIZE_MAX ==> |Header(start, end)| <= FRAGMENT_RESERVE
  {
    QuotesTwo(Ascii("[oversize turn fragment; byte range "), Decimal(start), Ascii(".."), Decimal(end), Ascii("]\n"));
    if start <= USIZE_MAX && end <= USIZE_MAX {
      HeaderFits(start, end);
    }
  }

  lemma HeaderFits(start: nat, end: nat)
    requires start <= USIZE_MAX && end <= USIZE_MAX
    ensures |Header(start, end)| <= FRAGMENT_RESERVE
  {
    DecimalOf64Bits(start);
    DecimalOf64Bits(end);
  }

  lemma HeaderValid(start: nat, end: nat)
    ensures ValidText(Header(start, end))
  {
    var a, b, c, d, e := Ascii("[oversize turn fragment; byte range "), Decimal(start), Ascii(".."), Decimal(end), Ascii("]\n");
    ValidConcat(a, b);
    ValidConcat(a + b, c);
    ValidConcat(a + b + c, d);
    ValidConcat(a + b + c + d, e);
  }

  function ChainEnd(parts: seq<Page>): nat {
    if parts != [] && parts[|parts|-1].Fragment? then parts[|parts|-1].end else 0
  }

  /** The parts are consecutive byte ranges of `text`, from its start. */
  predicate Chained(text: Text, parts: seq<Page>) {
    parts == [] ||
    var front, last := parts[..|parts|-1], parts[|parts|-1];
    && Chained(text, front)
    && last.Fragment?
    && last.start == ChainEnd(front) < last.end <= |text|
    && last.body == text[last.start..last.end]
  }

  lemma {:induction false} ChainedBodies(text: Text, parts: seq<Page>)
    requires Chained(text, parts)
    ensures ChainEnd(parts) <= |text| && Bodies(parts) == text[..ChainEnd(parts)]
  {
    if parts != [] {
      var front, last := parts[..|parts|-1], parts[|parts|-1];
      ChainedBodies(text, front);
      assert text[..last.end] == text[..last.start] + text[last.start..last.end];
    }
  }

  /** The header of page `i` tells the truth: the range is as long as the body,
      and starts at zero or where the fragment before it ends. */
  predicate RangeFollows(pages: seq<Page>, i: nat)
    requires i < |pages|
  {
    var p := pages[i];
    p.Fragment? ==>
      p.end == p.start + |p.body| && (p.start == 0 || (i > 0 && pages[i-1].Fragment? && pages[i-1].end == p.start))
  }

  predicate RangesChain(pages: seq<Page>) {
    forall i :: 0 <= i < |pages| ==> RangeFollows(pages, i)
  }

  lemma RangesConcat(a: seq<Page>, b: seq<Page>)
    requires RangesChain(a) && RangesChain(b)
    ensures RangesChain(a + b)
  {
    forall i | 0 <= i < |a + b|
      ensures RangeFollows(a + b, i)
    {
      if i < |a| {
        assert RangeFollows(a, i);
      } else {
        assert RangeFollows(b, i - |a|);
      }
    }
  }

  lemma RangesPrefix(pages: seq<Page>, k: nat)
    requires RangesChain(pages) && k <= |pages|
    ensures RangesChain(pages[..k])
  {
    forall i | 0 <= i < k
      ensures RangeFollows(pages[..k], i)
    {
      assert RangeFollows(pages, i);
    }
  }

  lemma WholeRange(body: Text)
    ensures RangesChain([Whole(body)])
  {
  }

  lemma {:induction false} ChainedRanges(text: Text, parts: seq<Page>)
    requires Chained(text, parts)
    ensures RangesChain(parts)
  {
    if parts != [] {
      var n := |parts| - 1;
      ChainedRanges(text, parts[..n]);
      forall i | 0 <= i < |parts|
        ensures RangeFollows(parts, i)
      {
        if i < n {
          assert RangeFollows(parts[..n], i);
        }
      }
    }
  }

  /** What the ranges mean: a fragment's range starts as many bytes after the
      first fragment of its piece as the pages between them carry. */
  lemma {:induction false} RangeIsOffset(pages: seq<Page>, i: nat) returns (first: nat)
    requires RangesChain(pages) && i < |pages| && pages[i].Fragment?
    ensures first <= i && pages[first].Fragment? && pages[first].start == 0
    ensures |Bodies(pages[first..i])| == pages[i].start
    decreases i
  {
    assert RangeFollows(pages, i);
    if pages[i].start == 0 {
      first := i;
      assert pages[i..i] == [];
    } else {
      first := RangeIsOffset(pages, i - 1);
      assert RangeFollows(pages, i - 1);
      assert pages[first..i] == pages[first..i-1] + [pages[i-1]];
      BodiesSnoc(pages[first..i-1], pages[i-1]);
    }
  }

  /** `is_char_boundary` backed off from the byte limit: the end of the next
      fragment. */
  function CutBefore(text: Text, at: nat): (cut: nat)
    requires at <= |text|
    ensures cut <= at && IsCharBoundary(text, cut)
    ensures forall i :: cut < i <= at ==> !IsCharBoundary(text, i)
    decreases at
  {
    if IsCharBoundary(text, at) then at else CutBefore(text, at - 1)
  }

  function FragmentLimit(limit: nat): nat {
    Max(SatSub(limit, FRAGMENT_RESERVE), 1)
  }

  ghost predicate AlwaysProgresses(limit: nat) {
    forall text: Text, start: nat :: ValidText(text) && start < |text| && IsCharBoundary(text, start) ==>
      CutBefore(text, Min(start + FragmentLimit(limit), |text|)) > start
  }

  lemma ProgressFrom(text: Text, start: nat, limit: nat)
    requires limit >= FRAGMENT_RESERVE + 4
    requires ValidText(text) && start < |text| && IsCharBoundary(text, start)
    ensures CutBefore(text, Min(start + FragmentLimit(limit), |text|)) > start
  {
    var end := Min(start + FragmentLimit(limit), |text|);
    assert end == |text| || end >= start + 4;
    if end < |text| {
      BoundaryWithinFour(text, end);
    }
  }

  /** Splitting gets past every character exactly when the limit leaves room
      for a four-byte one. */
  lemma ProgressIff(limit: nat)
    ensures AlwaysProgresses(limit) <==> limit >= FRAGMENT_RESERVE + 4
  {
    if limit >= FRAGMENT_RESERVE + 4 {
      forall text: Text, start: nat | ValidText(text) && start < |text| && IsCharBoundary(text, start)
        ensures CutBefore(text, Min(start + FragmentLimit(limit), |text|)) > start
      {
        ProgressFrom(text, start, limit);
      }
    } else {
      var stuck: Text := [0xF0, 0x9F, 0x98, 0x80];
      assert ValidText(stuck) && IsCharBoundary(stuck, 0);
      assert forall i :: 1 <= i <= 3 ==> !IsCharBoundary(stuck, i);
      assert CutBefore(stuck, Min(0 + FragmentLimit(limit), |stuck|)) <= 0;
    }
  }

  lemma FragmentGood(text: Text, start: nat, end: nat, limit: nat)
    requires ValidText(text) && |text| <= USIZE_MAX && limit >= FRAGMENT_RESERVE + 4
    requires start < end <= Min(start + FragmentLimit(limit), |text|)
    requires IsCharBoundary(text, start)
    ensures GoodPage(Fragment(start, end, text[start..end]), limit)
  {
    HeaderFitsReserve(start, end);
    HeaderValid(start, end);
    ValidSlice(text, start, end);
    ValidConcat(Header(start, end), text[start..end]);
  }

  lemma ChainedNone(text: Text)
    ensures Chained(text, [])
  {
  }

  lemma ChainedSnoc(text: Text, parts: seq<Page>, end: nat)
    requires Chained(text, parts) && ChainEnd(parts) < end <= |text|
    ensures Chained(text, parts + [Fragment(ChainEnd(parts), end, text[ChainEnd(parts)..end])])
  {
    assert (parts + [Fragment(ChainEnd(parts), end, text[ChainEnd(parts)..end])])[..|parts|] == parts;
  }

  method FragmentEnd(text: Text, start: nat, limit: nat) returns (end: nat)
    requires ValidText(text) && |text| <= USIZE_MAX && limit >= FRAGMENT_RESERVE + 4
    requires start < |text| && IsCharBoundary(text, start)
    ensures start < end <= |text| && IsCharBoundary(text, end)
    ensures GoodPage(Fragment(start, end, text[start..end]), limit)
    // as much as fits: only a character that would overrun the limit is left
    ensures end == CutBefore(text, Min(start + FragmentLimit(limit), |text|))
  {
    end := Min(start + FragmentLimit(limit), |text|);
    ProgressFrom(text, start, limit);
    ghost var cut := CutBefore(text, end);
    while !IsCharBoundary(text, end)
      invariant start < cut <= end <= Min(start + FragmentLimit(limit), |text|)
      invariant CutBefore(text, end) == cut
      decreases end
    {
      end := end - 1;
    }
    FragmentGood(text, start, end, limit);
  }

  method SplitUtf8(text: Text, limit: nat) returns (parts: seq<Page>)
    requires ValidText(text) && |text| <= USIZE_MAX
    requires limit >= FRAGMENT_RESERVE + 4
    ensures Chained(text, parts) && ChainEnd(parts) == |text|
    ensures Bodies(parts) == text
    ensures GoodPages(parts, limit) && RangesChain(parts)
  {
    hide Chained, GoodPage, ValidText, CutBefore;
    parts := [];
    assert Chained(text, parts) by { ChainedNone(text); }
    var start := 0;
    while start < |text|
      invariant 0 <= start <= |text| && IsCharBoundary(text, start)
      invariant Chained(text, parts) && ChainEnd(parts) == start
      invariant GoodPages(parts, limit)
    {
      var end := FragmentEnd(text, start, limit);
      ChainedSnoc(text, parts, end);
      parts := parts + [Fragment(start, end, text[start..end])];
      start := end;
    }
    ChainedBodies(text, parts);
    ChainedRanges(text, parts);
    assert text[..|text|] == text;
  }

  // ----- Halving -----

  method SplitAtUtf8Midpoint(text: Text) returns (left: Text, right: Text)
    requires ValidText(text) && |text| > MIN_SPLIT_PAGE_BYTES
    ensures left + right == text
    ensures |left| <= |text| / 2 < |left| + 4
    ensures ValidText(left) && ValidText(right)
  {
    var midpoint := |text| / 2;
    BoundaryWithinFour(text, midpoint);
    while !IsCharBoundary(text, midpoint)
      invariant |text| / 2 - 3 <= midpoint <= |text| / 2
      invariant forall i :: midpoint < i <= |text| / 2 ==> !IsCharBoundary(text, i)
      decreases midpoint
    {
      midpoint := midpoint - 1;
    }
    left, right := text[..midpoint], text[midpoint..];
    ValidSlice(text, 0, midpoint);
    ValidSlice(text, midpoint, |text|);
    assert right == text[midpoint..|text|];
  }

  // ----- Oversize turns -----

  predicate ToolFinished(e: TurnEvent) {
    e.Tool? && (Get(e.call, Ascii("status")) == Some(Ascii("\"completed\"")) || Get(e.call, Ascii("status")) == Some(Ascii("\"failed\"")))
  }

  predicate OpenExchange(finished: TurnEvent -> bool, g: seq<TurnEvent>) {
    forall i :: 0 <= i < |g| ==> g[i].Tool? && !finished(g[i])
  }

  /** One segment's events: a single assistant or plan event, or tool events
      of which only the last may be finished. */
  predicate IsGroup(finished: TurnEvent -> bool, g: seq<TurnEvent>) {
    && g != []
    && ((|g| == 1 && !g[0].Tool?) || (g[|g|-1].Tool? && OpenExchange(finished, g[..|g|-1])))
  }

  predicate Settled(finished: TurnEvent -> bool, g: seq<TurnEvent>) {
    g != [] && (!g[|g|-1].Tool? || finished(g[|g|-1]))
  }

  predicate MayFollow(finished: TurnEvent -> bool, g: seq<TurnEvent>, next: seq<TurnEvent>) {
    Settled(finished, g) || (next != [] && !next[0].Tool?)
  }

  /** Events grouped so that an open tool exchange is broken only by another
      kind of event or the end of the turn. */
  predicate Grouped(finished: TurnEvent -> bool, groups: seq<seq<TurnEvent>>) {
    && (forall i :: 0 <= i < |groups| ==> IsGroup(finished, groups[i]))
    && (forall i :: 0 < i < |groups| ==> MayFollow(finished, groups[i-1], groups[i]))
  }

  lemma EventNonempty(e: TurnEvent)
    ensures |EventText(e)| > 0
  {
  }

  ghost predicate Rendered(render: TurnEvent -> Text, groups: seq<seq<TurnEvent>>, segments: seq<Text>) {
    && |segments| == |groups|
    && forall i :: 0 <= i < |groups| ==> segments[i] == JoinAll(render, groups[i])
  }

  lemma {:induction false} RenderedConcat(render: TurnEvent -> Text, groups: seq<seq<TurnEvent>>, segments: seq<Text>)
    requires Rendered(render, groups, segments)
    ensures Concat(segments) == JoinAll(render, Flatten(groups))
  {
    if groups != [] {
      var n := |groups| - 1;
      RenderedConcat(render, groups[..n], segments[..n]);
      assert segments == segments[..n] + [segments[n]];
      ConcatSnoc(segments[..n], segments[n]);
      JoinSplit(render, Flatten(groups[..n]), groups[n]);
    }
  }

  lemma PushGroup(finished: TurnEvent -> bool, groups: seq<seq<TurnEvent>>, g: seq<TurnEvent>)
    requires Grouped(finished, groups) && IsGroup(finished, g)
    requires groups != [] ==> MayFollow(finished, groups[|groups|-1], g)
    ensures Grouped(finished, groups + [g])
  {
    var more := groups + [g];
    forall i | 0 < i < |more| ensures MayFollow(finished, more[i-1], more[i]) {
      if i < |groups| {
        assert MayFollow(finished, groups[i-1], groups[i]);
      }
    }
  }

  /** The grouping loop between two events: settled groups, then the tool
      exchange still open. */
  ghost predicate Grouping(render: TurnEvent -> Text, finished: TurnEvent -> bool, events: seq<TurnEvent>,
                           groups: seq<seq<TurnEvent>>, segments: seq<Text>, open: seq<TurnEvent>, exchange: Text) {
    && Grouped(finished, groups) && Rendered(render, groups, segments)
    && (groups != [] ==> Settled(finished, groups[|groups|-1]))
    && OpenExchange(finished, open) && exchange == JoinAll(render, open)
    && Flatten(groups) + open == events
  }

  lemma CloseExchange(render: TurnEvent -> Text, finished: TurnEvent -> bool, events: seq<TurnEvent>,
                      groups: seq<seq<TurnEvent>>, segments: seq<Text>, open: seq<TurnEvent>, exchange: Text)
    requires Grouping(render, finished, events, groups, segments, open, exchange) && open != []
    ensures Grouped(finished, groups + [open]) && Rendered(render, groups + [open], segments + [exchange])
    ensures Flatten(groups + [open]) == events
  {
    PushGroup(finished, groups, open);
    FlattenSnoc(groups, open);
  }

  lemma ToolGroup(finished: TurnEvent -> bool, groups: seq<seq<TurnEvent>>, open: seq<TurnEvent>, e: TurnEvent)
    requires OpenExchange(finished, open) && e.Tool?
    requires groups != [] ==> Settled(finished, groups[|groups|-1])
    ensures IsGroup(finished, open + [e])
    ensures groups != [] ==> MayFollow(finished, groups[|groups|-1], open + [e])
  {
    assert (open + [e])[..|open|] == open;
  }

  lemma JoinNil(render: TurnEvent -> Text)
    ensures JoinAll(render, []) == []
  {
  }

  lemma TakeTool(render: TurnEvent -> Text, finished: TurnEvent -> bool, events: seq<TurnEvent>,
                 groups: seq<seq<TurnEvent>>, segments: seq<Text>, open: seq<TurnEvent>, exchange: Text, e: TurnEvent)
    requires Grouping(render, finished, events, groups, segments, open, exchange) && e.Tool?
    ensures if finished(e)
            then Grouping(render, finished, events + [e], groups + [open + [e]], segments + [exchange + render(e)], [], [])
            else Grouping(render, finished, events + [e], groups, segments, open + [e], exchange + render(e))
  {
    hide Flatten, JoinAll, IsGroup, MayFollow;
    JoinSnoc(render, open, e);
    Assoc(Flatten(groups), open, [e]);
    if finished(e) {
      ToolGroup(finished, groups, open, e);
      PushGroup(finished, groups, open + [e]);
      FlattenSnoc(groups, open + [e]);
      assert JoinAll(render, []) == [] by { JoinNil(render); }
    }
  }

  lemma TakeOther(render: TurnEvent -> Text, finished: TurnEvent -> bool, events: seq<TurnEvent>,
                  groups: seq<seq<TurnEvent>>, segments: seq<Text>, e: TurnEvent)
    requires Grouped(finished, groups) && Rendered(render, groups, segments)
    requires Flatten(groups) == events && !e.Tool?
    ensures Grouping(render, finished, events + [e], groups + [[e]], segments + [render(e)], [], [])
  {
    JoinSnoc(render, [], e);
    assert [] + [e] == [e];
    PushGroup(finished, groups, [e]);
    FlattenSnoc(groups, [e]);
  }

  lemma GroupingNone(render: TurnEvent -> Text, finished: TurnEvent -> bool)
    ensures Grouping(render, finished, [], [], [], [], [])
  {
  }

  /** Events gather into an open tool exchange until one of them finishes it or
      another kind of event interrupts it. */
  method GroupEvents(render: TurnEvent -> Text, finished: TurnEvent -> bool, events: seq<TurnEvent>)
    returns (segments: seq<Text>, ghost groups: seq<seq<TurnEvent>>)
    requires forall e :: render(e) != []
    ensures Grouped(finished, groups) && Flatten(groups) == events
    ensures Rendered(render, groups, segments)
    ensures Concat(segments) == JoinAll(render, events)
  {
    hide Grouped, Rendered, Flatten, OpenExchange, Settled;
    segments, groups := [], [];
    GroupingNone(render, finished);
    var exchange: Text := [];
    ghost var open: seq<TurnEvent> := [];
    for k := 0 to |events|
      invariant Grouping(render, finished, events[..k], groups, segments, open, exchange)
      invariant exchange == [] <==> open == []
    {
      var event := events[k];
      assert events[..k+1] == events[..k] + [event];
      if event.Tool? {
        TakeTool(render, finished, events[..k], groups, segments, open, exchange, event);
        exchange, open := exchange + render(event), open + [event];
        if finished(event) {
          segments, groups := segments + [exchange], groups + [open];
          exchange, open := [], [];
        }
      } else {
        if exchange != [] {
          CloseExchange(render, finished, events[..k], groups, segments, open, exchange);
          segments, groups := segments + [exchange], groups + [open];
          exchange, open := [], [];
        }
        TakeOther(render, finished, events[..k], groups, segments, event);
        segments, groups := segments + [render(event)], groups + [[event]];
      }
    }
    assert events[..|events|] == events;
    if exchange != [] {
      CloseExchange(render, finished, events, groups, segments, open, exchange);
      segments, groups := segments + [exchange], groups + [open];
    }
    RenderedConcat(render, groups, segments);
  }

  // ----- Packing -----

  predicate GoodSegments(segments: seq<Text>) {
    forall i :: 0 <= i < |segments| ==> segments[i] != [] && ValidText(segments[i]) && |segments[i]| <= USIZE_MAX
  }

  /** Pages finished so far and the page being filled carry `text`. */
  predicate Packing(pages: seq<Page>, page: Text, text: Text, limit: nat) {
    && GoodPages(pages, limit) && RangesChain(pages)
    && |page| <= limit && ValidText(page)
    && Bodies(pages) + page == text
  }

  lemma PackingStarts(limit: nat)
    ensures Packing([], [], Concat([]), limit)
  {
  }

  lemma PackingEnds(pages: seq<Page>, text: Text, limit: nat)
    requires Packing(pages, [], text, limit)
    ensures Bodies(pages) == text && GoodPages(pages, limit) && RangesChain(pages)
  {
    hide Bodies, GoodPages, RangesChain;
  }

  lemma Flush(pages: seq<Page>, page: Text, text: Text, limit: nat)
    requires Packing(pages, page, text, limit) && page != []
    ensures Packing(pages + [Whole(page)], [], text, limit)
  {
    hide Bodies, RangesChain;
    BodiesSnoc(pages, Whole(page));
    WholeRange(page);
    RangesConcat(pages, [Whole(page)]);
  }

  lemma AddPiece(pages: seq<Page>, page: Text, text: Text, limit: nat, piece: Text)
    requires Packing(pages, page, text, limit)
    requires ValidText(piece) && |page| + |piece| <= limit
    ensures Packing(pages, page + piece, text + piece, limit)
  {
    hide Bodies, GoodPages, ValidText, RangesChain;
    ValidConcat(page, piece);
    Assoc(Bodies(pages), page, piece);
  }

  lemma AddPages(pages: seq<Page>, text: Text, limit: nat, more: seq<Page>)
    requires Packing(pages, [], text, limit) && GoodPages(more, limit) && RangesChain(more)
    ensures Packing(pages + more, [], text + Bodies(more), limit)
  {
    hide Bodies, GoodPage, RangesChain;
    RangesConcat(pages, more);
    BodiesAppend(pages, more);
    assert Bodies(pages) == text;
    assert Bodies(pages + more) + [] == text + Bodies(more);
  }

  lemma AddPage(pages: seq<Page>, text: Text, limit: nat, page: Page)
    requires Packing(pages, [], text, limit) && GoodPage(page, limit) && RangesChain(pages + [page])
    ensures Packing(pages + [page], [], text + page.body, limit)
  {
    hide Bodies, GoodPage, RangesChain;
    BodiesSnoc(pages, page);
    assert Bodies(pages) == text;
    assert Bodies(pages + [page]) + [] == text + page.body;
  }

  /** Segments go into pages in order, whole where they fit and in fragments
      where one alone is too large. */
  method PackSegments(segments: seq<Text>, limit: nat) returns (pages: seq<Page>)
    requires GoodSegments(segments)
    requires FRAGMENT_RESERVE + 4 <= limit < USIZE_MAX
    ensures Bodies(pages) == Concat(segments)
    ensures GoodPages(pages, limit) && RangesChain(pages)
  {
    hide Packing, Concat, Bodies, GoodPages, ValidText, RangesChain;
    pages := [];
    var fragment: Text := [];
    PackingStarts(limit);
    assert segments[..0] == [];
    for k := 0 to |segments|
      invariant Packing(pages, fragment, Concat(segments[..k]), limit)
    {
      var segment := segments[k];
      ghost var text := Concat(segments[..k]);
      assert segments[..k+1] == segments[..k] + [segment];
      ConcatSnoc(segments[..k], segment);
      if |segment| > limit {
        if fragment != [] {
          Flush(pages, fragment, text, limit);
          pages, fragment := pages + [Whole(fragment)], [];
        }
        var parts := SplitUtf8(segment, limit);
        AddPages(pages, text, limit, parts);
        pages := pages + parts;
      } else {
        if fragment != [] && SatAdd(|fragment|, |segment|) > limit {
          Flush(pages, fragment, text, limit);
          pages, fragment := pages + [Whole(fragment)], [];
        }
        AddPiece(pages, fragment, text, limit, segment);
        fragment := fragment + segment;
      }
    }
    assert segments[..|segments|] == segments;
    if fragment != [] {
      Flush(pages, fragment, Concat(segments), limit);
      pages := pages + [Whole(fragment)];
    }
    PackingEnds(pages, Concat(segments), limit);
  }

  predicate RendersWell(render: TurnEvent -> Text, es: seq<TurnEvent>) {
    forall i :: 0 <= i < |es| ==> ValidText(render(es[i])) && render(es[i]) != []
  }

  lemma {:induction false} JoinValid(render: TurnEvent -> Text, es: seq<TurnEvent>)
    requires RendersWell(render, es)
    ensures ValidText(JoinAll(render, es))
    ensures es != [] ==> JoinAll(render, es) != []
  {
    if es != [] {
      JoinValid(render, es[..|es|-1]);
      ValidConcat(JoinAll(render, es[..|es|-1]), render(es[|es|-1]));
    }
  }

  lemma {:induction false} GroupsValid(render: TurnEvent -> Text, events: seq<TurnEvent>,
                                       groups: seq<seq<TurnEvent>>, segments: seq<Text>)
    requires RendersWell(render, events) && |JoinAll(render, events)| <= USIZE_MAX
    requires Flatten(groups) == events && Rendered(render, groups, segments)
    requires forall i :: 0 <= i < |groups| ==> groups[i] != []
    ensures GoodSegments(segments)
    decreases |groups|
  {
    hide JoinAll, ValidText;
    if groups != [] {
      var n := |groups| - 1;
      var front := Flatten(groups[..n]);
      assert forall i :: 0 <= i < |groups[n]| ==> groups[n][i] == events[|front| + i];
      assert forall i :: 0 <= i < |front| ==> front[i] == events[i];
      JoinSplit(render, front, groups[n]);
      JoinValid(render, groups[n]);
      GroupsValid(render, front, groups[..n], segments[..n]);
      assert segments == segments[..n] + [segments[n]];
    }
  }

  lemma TurnRendersWell(turn: Turn)
    requires ValidTurn(turn)
    ensures RendersWell(EventText, turn.events)
  {
    forall i | 0 <= i < |turn.events| ensures ValidText(EventText(turn.events[i])) && EventText(turn.events[i]) != [] {
      EventValid(turn.events[i]);
      EventNonempty(turn.events[i]);
    }
  }

  /** A turn too large for one page, as fragments that carry exactly its
      rendering. */
  method RenderOversizeTurn(turn: Turn, index: nat, limit: nat) returns (pages: seq<Page>)
    requires ValidTurn(turn) && |TurnText(turn, index)| <= USIZE_MAX
    requires FRAGMENT_RESERVE + 4 <= limit < USIZE_MAX
    ensures Bodies(pages) == TurnText(turn, index)
    ensures GoodPages(pages, limit) && RangesChain(pages)
  {
    EventsNonempty();
    var segments, groups := GroupEvents(EventText, ToolFinished, turn.events);
    RenderedConcat(EventText, groups, segments);
    var all := [OpenText(turn, index)] + segments + [CloseText()];
    SegmentsOfTurn(turn, index, groups, segments, all);
    pages := PackSegments(all, limit);
  }

  lemma EventsNonempty()
    ensures forall e :: EventText(e) != []
  {
    forall e ensures EventText(e) != [] {
      EventNonempty(e);
    }
  }

  lemma SegmentsOfTurn(turn: Turn, index: nat, groups: seq<seq<TurnEvent>>, segments: seq<Text>, all: seq<Text>)
    requires ValidTurn(turn) && |TurnText(turn, index)| <= USIZE_MAX
    requires Flatten(groups) == turn.events && Grouped(ToolFinished, groups) && Rendered(EventText, groups, segments)
    requires all == [OpenText(turn, index)] + segments + [CloseText()]
    ensures Concat(all) == TurnText(turn, index) && GoodSegments(all)
  {
    hide OpenText, EventText, Concat, Flatten, JoinAll;
    RenderedConcat(EventText, groups, segments);
    TurnRendersWell(turn);
    GroupsValid(EventText, turn.events, groups, segments);
    OpenValid(turn, index);
    assert ValidText(CloseText());
    ConcatOne(OpenText(turn, index));
    ConcatAppend([OpenText(turn, index)], segments);
    ConcatSnoc([OpenText(turn, index)] + segments, CloseText());
  }
}
