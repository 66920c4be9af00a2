/** What a transcript tells, and that its rendering tells it. */
module Story {
  import opened Text
  import opened Transcript
  import opened Pruning

  /** What a reader of the transcript sees. Assistant text starts with `Speak`
      and goes on byte by byte, so that it does not matter how it was chunked. */
  datatype Atom = Ask(text: Text) | Speak | Say(b: byte) | Call(call: Json) | Show(plan: Json)

  function Said(t: Text): seq<Atom> {
    seq(|t|, i requires 0 <= i < |t| => Say(t[i]))
  }

  function EventStory(e: TurnEvent): seq<Atom> {
    match e
    case Assistant(t) => [Speak] + Said(t)
    case Tool(v) => [Call(v)]
    case Plan(v) => [Show(v)]
  }

  function EventsStory(es: seq<TurnEvent>): seq<Atom> {
    if es == [] then [] else EventsStory(es[..|es|-1]) + EventStory(es[|es|-1])
  }

  function TurnsStory(turns: seq<Turn>): seq<Atom> {
    if turns == [] then []
    else TurnsStory(turns[..|turns|-1]) + [Ask(turns[|turns|-1].user)] + EventsStory(turns[|turns|-1].events)
  }

  // ----- Reading a story in a text -----

  function Asks(story: seq<Atom>): nat {
    if story == [] then 0 else Asks(story[..|story|-1]) + if story[|story|-1].Ask? then 1 else 0
  }

  lemma {:induction false} AsksAppend(a: seq<Atom>, b: seq<Atom>)
    ensures Asks(a + b) == Asks(a) + Asks(b)
  {
    if b == [] {
      assert a + b == a;
    } else {
      assert (a + b)[..|a + b|-1] == a + b[..|b|-1];
      AsksAppend(a, b[..|b|-1]);
    }
  }

  /** What announces an atom; a question carries the number of its turn. */
  function Lead(atom: Atom, number: nat): Text {
    match atom
    case Ask(_) => Ascii("<turn number=\"") + Decimal(number) + Ascii("\">\n<user>\n")
    case Speak => Ascii("<assistant>\n")
    case Say(_) => []
    case Call(_) => Ascii("<tool_event>\n")
    case Show(_) => Ascii("<plan_event>\n")
  }

  function Body(atom: Atom): Text {
    match atom
    case Ask(t) => t
    case Speak => []
    case Say(b) => [b]
    case Call(v) => JsonText(v)
    case Show(v) => JsonText(v)
  }

  /** Where the first `k` atoms end. */
  function EndOf(story: seq<Atom>, at: seq<nat>, k: nat): nat
    requires k <= |story| == |at|
  {
    if k == 0 then 0 else at[k-1] + |Body(story[k-1])|
  }

  /** `body` stands at `at` under `lead`, all after `end`, and right at it if
      `joined`. */
  predicate StandsHere(text: Text, end: nat, lead: Text, at: nat, body: Text, joined: bool) {
    && end + |lead| <= at && at + |body| <= |text|
    && text[at - |lead|..at] == lead && text[at..at + |body|] == body
    && (joined ==> at == end)
  }

  lemma HereLonger(a: Text, b: Text, end: nat, lead: Text, at: nat, body: Text, joined: bool)
    requires StandsHere(a, end, lead, at, body, joined)
    ensures StandsHere(a + b, end, lead, at, body, joined)
  {
    assert (a + b)[at - |lead|..at] == a[at - |lead|..at];
    assert (a + b)[at..at + |body|] == a[at..at + |body|];
  }

  lemma HereLater(a: Text, b: Text, end: nat, before: nat, lead: Text, at: nat, body: Text, joined: bool)
    requires StandsHere(b, end, lead, at, body, joined)
    requires if joined then before == |a| + end else before <= |a| + end
    ensures StandsHere(a + b, before, lead, |a| + at, body, joined)
  {
    assert (a + b)[|a| + at - |lead|..|a| + at] == b[at - |lead|..at];
    assert (a + b)[|a| + at..|a| + at + |body|] == b[at..at + |body|];
  }

  /** Atom `k` stands at `at[k]` under its lead, after all earlier ones; assistant
      text goes on without a gap. */
  ghost predicate AtomStands(text: Text, story: seq<Atom>, first: nat, at: seq<nat>, k: nat)
    requires k < |story| == |at|
  {
    StandsHere(text, EndOf(story, at, k), Lead(story[k], first + Asks(story[..k])), at[k], Body(story[k]), story[k].Say?)
  }

  /** The story can be read in the text: every atom where `at` says, in order,
      the questions numbered from `first`. */
  ghost predicate ToldAt(text: Text, story: seq<Atom>, first: nat, at: seq<nat>) {
    |at| == |story| && forall k :: 0 <= k < |story| ==> AtomStands(text, story, first, at, k)
  }

  function Shifted(at: seq<nat>, d: nat): seq<nat> {
    seq(|at|, i requires 0 <= i < |at| => at[i] + d)
  }

  lemma ToldFirst(a: Text, s: seq<Atom>, b: Text, u: seq<Atom>, first: nat, at: seq<nat>, bt: seq<nat>, k: nat)
    requires ToldAt(a, s, first, at) && |bt| == |u| && k < |s|
    ensures AtomStands(a + b, s + u, first, at + Shifted(bt, |a|), k)
  {
    hide Lead, Body, StandsHere, ToldAt;
    Stands(a, s, first, at, k);
    assert (s + u)[..k] == s[..k] && (s + u)[k] == s[k];
    HereLonger(a, b, EndOf(s, at, k), Lead(s[k], first + Asks(s[..k])), at[k], Body(s[k]), s[k].Say?);
  }

  lemma EndSecond(a: Text, s: seq<Atom>, u: seq<Atom>, first: nat, at: seq<nat>, bt: seq<nat>, k: nat)
    requires ToldAt(a, s, first, at) && |bt| == |u| && k < |u|
    ensures var end := EndOf(s + u, at + Shifted(bt, |a|), |s| + k);
            if k == 0 then end <= |a| else end == |a| + EndOf(u, bt, k)
  {
    hide Lead, Body, Asks;
    var both := at + Shifted(bt, |a|);
    if k > 0 {
      assert both[|s| + k - 1] == |a| + bt[k-1] && (s + u)[|s| + k - 1] == u[k-1];
    } else if s != [] {
      assert AtomStands(a, s, first, at, |s| - 1);
      assert both[|s| - 1] == at[|s| - 1] && (s + u)[|s| - 1] == s[|s| - 1];
    }
  }

  lemma AsksSecond(s: seq<Atom>, u: seq<Atom>, k: nat)
    requires k < |u|
    ensures Asks((s + u)[..|s| + k]) == Asks(s) + Asks(u[..k])
  {
    assert (s + u)[..|s| + k] == s + u[..k];
    AsksAppend(s, u[..k]);
  }

  /** Atom `k` of `u`, told in `b`, is atom `m` of `story`, told in `a + b`. */
  lemma AtomLater(a: Text, b: Text, u: seq<Atom>, first: nat, bt: seq<nat>, k: nat,
                  story: seq<Atom>, start: nat, both: seq<nat>, m: nat)
    requires k < |u| == |bt| && m < |story| == |both| && AtomStands(b, u, first, bt, k)
    requires story[m] == u[k] && both[m] == |a| + bt[k] && start + Asks(story[..m]) == first + Asks(u[..k])
    requires if u[k].Say? then EndOf(story, both, m) == |a| + EndOf(u, bt, k) else EndOf(story, both, m) <= |a| + EndOf(u, bt, k)
    ensures AtomStands(a + b, story, start, both, m)
  {
    hide Lead, Body, Asks, EndOf, StandsHere;
    HereLater(a, b, EndOf(u, bt, k), EndOf(story, both, m), Lead(u[k], first + Asks(u[..k])), bt[k], Body(u[k]), u[k].Say?);
  }

  lemma ToldSecond(a: Text, s: seq<Atom>, b: Text, u: seq<Atom>, first: nat, at: seq<nat>, bt: seq<nat>, k: nat)
    requires ToldAt(a, s, first, at) && ToldAt(b, u, first + Asks(s), bt) && k < |u| && !u[0].Say?
    ensures AtomStands(a + b, s + u, first, at + Shifted(bt, |a|), |s| + k)
  {
    hide Lead, Body, Asks, EndOf, ToldAt, Shifted, AtomStands;
    Stood(a, s, first, at);
    Stands(b, u, first + Asks(s), bt, k);
    AsksSecond(s, u, k);
    EndSecond(a, s, u, first, at, bt, k);
    StartsAtZero(u, bt);
    ShiftedLength(bt, |a|);
    ShiftedAt(a, at, bt, k);
    var story, both := s + u, at + Shifted(bt, |a|);
    assert story[|s| + k] == u[k];
    AtomLater(a, b, u, first + Asks(s), bt, k, story, first, both, |s| + k);
  }

  lemma Stands(text: Text, story: seq<Atom>, first: nat, at: seq<nat>, k: nat)
    requires ToldAt(text, story, first, at) && k < |story|
    ensures |at| == |story| && AtomStands(text, story, first, at, k)
  {
    hide AtomStands;
  }

  lemma Stood(text: Text, story: seq<Atom>, first: nat, at: seq<nat>)
    requires ToldAt(text, story, first, at)
    ensures |at| == |story|
  {
    hide AtomStands;
  }

  lemma ShiftedAt(a: Text, at: seq<nat>, bt: seq<nat>, k: nat)
    requires k < |bt|
    ensures (at + Shifted(bt, |a|))[|at| + k] == |a| + bt[k]
  {
  }

  lemma StartsAtZero(story: seq<Atom>, at: seq<nat>)
    requires |at| == |story|
    ensures EndOf(story, at, 0) == 0
  {
  }

  /** Texts one after the other tell stories one after the other. */
  lemma ToldBoth(a: Text, s: seq<Atom>, b: Text, u: seq<Atom>, first: nat, at: seq<nat>, bt: seq<nat>)
    requires ToldAt(a, s, first, at) && ToldAt(b, u, first + Asks(s), bt) && (u != [] ==> !u[0].Say?)
    ensures ToldAt(a + b, s + u, first, at + Shifted(bt, |a|))
  {
    hide AtomStands, Asks, Shifted;
    var both := at + Shifted(bt, |a|);
    ShiftedLength(bt, |a|);
    forall k | 0 <= k < |s + u|
      ensures AtomStands(a + b, s + u, first, both, k)
    {
      if k < |s| {
        ToldFirst(a, s, b, u, first, at, bt, k);
      } else {
        ToldSecond(a, s, b, u, first, at, bt, k - |s|);
      }
    }
  }

  lemma ShiftedLength(at: seq<nat>, d: nat)
    ensures |Shifted(at, d)| == |at|
  {
  }

  // ----- The rendering tells the story -----

  lemma SpeechOpens(open: Text, t: Text, close: Text)
    ensures StandsHere(open + t + close, 0, open, |open|, [], false)
  {
  }

  lemma SpeechGoesOn(open: Text, t: Text, close: Text, i: nat)
    requires i < |t|
    ensures StandsHere(open + t + close, |open| + i, [], |open| + i, [t[i]], true)
  {
  }

  lemma SpeechTold(t: Text, first: nat) returns (at: seq<nat>)
    ensures ToldAt(EventText(Assistant(t)), EventStory(Assistant(t)), first, at)
  {
    var open, close := Ascii("<assistant>\n"), Ascii("\n</assistant>\n");
    var text, story := EventText(Assistant(t)), EventStory(Assistant(t));
    at := [|open|] + seq(|t|, i requires 0 <= i < |t| => |open| + i);
    assert text == open + t + close;
    hide Ascii, Asks, EventText, StandsHere;
    forall k | 0 <= k < |story|
      ensures AtomStands(text, story, first, at, k)
    {
      if k == 0 {
        SpeechOpens(open, t, close);
      } else {
        assert story[k] == Say(t[k-1]) && EndOf(story, at, k) == at[k] == |open| + k - 1;
        SpeechGoesOn(open, t, close, k - 1);
      }
    }
  }

  lemma OneTold(text: Text, atom: Atom, first: nat, close: Text)
    requires text == Lead(atom, first) + Body(atom) + close && !atom.Say?
    ensures ToldAt(text, [atom], first, [|Lead(atom, first)|])
  {
    hide Lead, Body;
    var lead := Lead(atom, first);
    assert text[..|lead|] == lead && text[|lead|..|lead| + |Body(atom)|] == Body(atom);
    assert [atom][..0] == [];
    assert AtomStands(text, [atom], first, [|lead|], 0);
  }

  function ClosingTag(e: TurnEvent): Text {
    match e
    case Assistant(_) => Ascii("\n</assistant>\n")
    case Tool(_) => Ascii("\n</tool_event>\n")
    case Plan(_) => Ascii("\n</plan_event>\n")
  }

  lemma EventTold(e: TurnEvent, first: nat) returns (at: seq<nat>)
    ensures ToldAt(EventText(e), EventStory(e), first, at)
    ensures EndsIn(EventText(e), ClosingTag(e))
  {
    hide ToldAt, JsonText;
    match e
    case Assistant(t) => at := SpeechTold(t, first);
    case Tool(v) =>
      OneTold(EventText(e), Call(v), first, Ascii("\n</tool_event>\n"));
      at := [|Lead(Call(v), first)|];
    case Plan(v) =>
      OneTold(EventText(e), Show(v), first, Ascii("\n</plan_event>\n"));
      at := [|Lead(Show(v), first)|];
  }

  lemma NothingTold(text: Text, first: nat)
    ensures ToldAt(text, [], first, [])
  {
  }

  lemma {:induction false} EventsAskNothing(es: seq<TurnEvent>)
    ensures Asks(EventsStory(es)) == 0 && (EventsStory(es) != [] ==> !EventsStory(es)[0].Say?)
  {
    if es != [] {
      EventsAskNothing(es[..|es|-1]);
      AsksAppend(EventsStory(es[..|es|-1]), EventStory(es[|es|-1]));
      EventAsksNothing(es[|es|-1]);
    }
  }

  lemma EventAsksNothing(e: TurnEvent)
    ensures Asks(EventStory(e)) == 0 && EventStory(e) != [] && !EventStory(e)[0].Say?
  {
    match e
    case Assistant(t) =>
      AsksAppend([Speak], Said(t));
      SaidAsksNothing(t);
    case Tool(_) =>
    case Plan(_) =>
  }

  lemma {:induction false} SaidAsksNothing(t: Text)
    ensures Asks(Said(t)) == 0
  {
    if t != [] {
      assert Said(t)[..|t|-1] == Said(t[..|t|-1]);
      SaidAsksNothing(t[..|t|-1]);
    }
  }

  lemma {:induction false} EventsTold(es: seq<TurnEvent>, first: nat) returns (at: seq<nat>)
    ensures ToldAt(EventsText(es), EventsStory(es), first, at)
  {
    hide ToldAt, Asks, EventText, EventStory;
    if es == [] {
      NothingTold(EventsText(es), first);
      at := [];
    } else {
      var front, last := es[..|es|-1], es[|es|-1];
      var a := EventsTold(front, first);
      var b := EventTold(last, first);
      EventsAskNothing(front);
      EventAsksNothing(last);
      ToldBoth(EventsText(front), EventsStory(front), EventText(last), EventStory(last), first, a, b);
      at := a + Shifted(b, |EventsText(front)|);
    }
  }

  function TurnStory(turn: Turn): seq<Atom> {
    [Ask(turn.user)] + EventsStory(turn.events)
  }

  lemma TurnTold(turn: Turn, index: nat) returns (at: seq<nat>)
    ensures ToldAt(TurnText(turn, index), TurnStory(turn), index + 1, at)
    ensures EndsIn(TurnText(turn, index), Ascii("</turn>\n\n"))
  {
    hide ToldAt, EventsText, EventsStory, Decimal, Ascii;
    var open, events, close := OpenText(turn, index), EventsText(turn.events), CloseText();
    OneTold(open, Ask(turn.user), index + 1, Ascii("\n</user>\n"));
    var b := EventsTold(turn.events, index + 2);
    EventsAskNothing(turn.events);
    AskOnce(turn.user);
    var a: seq<nat> := [|Lead(Ask(turn.user), index + 1)|];
    ToldBoth(open, [Ask(turn.user)], events, EventsStory(turn.events), index + 1, a, b);
    at := a + Shifted(b, |open|);
    NothingTold(close, index + 2);
    AsksAppend([Ask(turn.user)], EventsStory(turn.events));
    ToldBoth(open + events, TurnStory(turn), close, [], index + 1, at, []);
    assert TurnStory(turn) + [] == TurnStory(turn) && at + Shifted([], |open + events|) == at;
  }

  lemma AskOnce(t: Text)
    ensures Asks([Ask(t)]) == 1
  {
    assert [Ask(t)][..0] == [];
  }

  lemma TurnsStoryLast(turns: seq<Turn>)
    requires turns != []
    ensures TurnsStory(turns) == TurnsStory(turns[..|turns|-1]) + TurnStory(turns[|turns|-1])
  {
    hide EventsStory;
    Assoc(TurnsStory(turns[..|turns|-1]), [Ask(turns[|turns|-1].user)], EventsStory(turns[|turns|-1].events));
  }

  lemma TurnAsksOnce(turn: Turn)
    ensures Asks(TurnStory(turn)) == 1
  {
    hide EventsStory;
    EventsAskNothing(turn.events);
    AskOnce(turn.user);
    AsksAppend([Ask(turn.user)], EventsStory(turn.events));
  }

  lemma {:induction false} TurnsAsk(turns: seq<Turn>)
    ensures Asks(TurnsStory(turns)) == |turns|
  {
    hide TurnsStory, TurnStory;
    if turns == [] {
      NoTurnsStory();
    } else {
      var front := turns[..|turns|-1];
      TurnsAsk(front);
      TurnsStoryLast(turns);
      TurnAsksOnce(turns[|turns|-1]);
      AsksAppend(TurnsStory(front), TurnStory(turns[|turns|-1]));
    }
  }

  lemma NoTurnsStory()
    ensures TurnsStory([]) == [] && Asks([]) == 0
  {
  }

  /** For all turns: their story, every user text under the number of its turn,
      all assistant text, every tool call and every plan, can be read in their
      rendering. */
  lemma {:induction false} TurnsTold(turns: seq<Turn>, offset: nat) returns (at: seq<nat>)
    ensures ToldAt(TurnsText(turns, offset), TurnsStory(turns), offset + 1, at)
  {
    hide ToldAt, Asks, TurnText, TurnStory, TurnsStory;
    if turns == [] {
      NoTurnsStory();
      NothingTold(TurnsText(turns, offset), offset + 1);
      at := [];
    } else {
      var front, last, n := turns[..|turns|-1], turns[|turns|-1], |turns| - 1;
      var a := TurnsTold(front, offset);
      var b := TurnTold(last, offset + n);
      TurnsAsk(front);
      TurnsStoryLast(turns);
      TurnStarts(last);
      ToldBoth(TurnsText(front, offset), TurnsStory(front), TurnText(last, offset + n), TurnStory(last), offset + 1, a, b);
      at := a + Shifted(b, |TurnsText(front, offset)|);
    }
  }

  lemma TurnStarts(turn: Turn)
    ensures TurnStory(turn) != [] && !TurnStory(turn)[0].Say?
  {
  }

  // ----- What pruning does to a story -----

  /** A finished tool call whose output was cleared: every other member stays. */
  ghost predicate Blanked(v: Json, u: Json) {
    && Get(v, Ascii("status")) == Some(Ascii("\"completed\""))
    && Get(u, Ascii("content")) == Some(Ascii("\"[Old tool result content cleared]\""))
    && forall key :: key != Ascii("content") ==> Get(u, key) == Get(v, key)
  }

  ghost predicate Fades(p: Atom, q: Atom) {
    q == p || (p.Call? && q.Call? && Blanked(p.call, q.call))
  }

  ghost predicate FadesTo(a: seq<Atom>, b: seq<Atom>) {
    |a| == |b| && forall k :: 0 <= k < |a| ==> Fades(a[k], b[k])
  }

  lemma FadesAppend(a: seq<Atom>, b: seq<Atom>, c: seq<Atom>, d: seq<Atom>)
    requires FadesTo(a, b) && FadesTo(c, d)
    ensures FadesTo(a + c, b + d)
  {
    hide Fades;
    forall k | 0 <= k < |a + c|
      ensures Fades((a + c)[k], (b + d)[k])
    {
      if k >= |a| {
        assert Fades(c[k - |a|], d[k - |a|]);
      }
    }
  }

  lemma FadesSelf(a: seq<Atom>)
    ensures FadesTo(a, a)
  {
  }

  /** Pruning leaves an event as it is, or clears a finished tool call. */
  lemma EventFades(turns: seq<Turn>, pruned: seq<Turn>, t: nat, k: nat)
    requires IsPruned(turns, pruned) && t < |turns| && k < |turns[t].events|
    ensures FadesTo(EventStory(turns[t].events[k]), EventStory(pruned[t].events[k]))
  {
    var e, f := turns[t].events[k], pruned[t].events[k];
    hide RunningTotal, Prunes, Cleared;
    if e == f {
      FadesSelf(EventStory(e));
    } else {
      ClearedFacts(e);
      assert f == Cleared(e);
      assert Blanked(e.call, f.call);
    }
  }

  lemma {:induction false} EventsFade(turns: seq<Turn>, pruned: seq<Turn>, t: nat, n: nat)
    requires IsPruned(turns, pruned) && t < |turns| && n <= |turns[t].events|
    ensures FadesTo(EventsStory(turns[t].events[..n]), EventsStory(pruned[t].events[..n]))
  {
    hide EventStory, PrunedEvent, Prunes, FadesTo;
    var es, fs := turns[t].events, pruned[t].events;
    if n == 0 {
      FadesSelf(EventsStory(es[..0]));
    } else {
      EventsFade(turns, pruned, t, n - 1);
      EventFades(turns, pruned, t, n - 1);
      assert es[..n][..n-1] == es[..n-1] && fs[..n][..n-1] == fs[..n-1];
      FadesAppend(EventsStory(es[..n-1]), EventsStory(fs[..n-1]), EventStory(es[n-1]), EventStory(fs[n-1]));
    }
  }

  lemma {:induction false} TurnsFade(turns: seq<Turn>, pruned: seq<Turn>, n: nat)
    requires IsPruned(turns, pruned) && n <= |turns|
    ensures FadesTo(TurnsStory(turns[..n]), TurnsStory(pruned[..n]))
  {
    hide EventsStory, PrunedEvent, Prunes, FadesTo;
    if n == 0 {
      FadesSelf(TurnsStory(turns[..0]));
    } else {
      var was, now := turns[n-1], pruned[n-1];
      TurnsFade(turns, pruned, n - 1);
      EventsFade(turns, pruned, n - 1, |was.events|);
      assert was.events[..|was.events|] == was.events && now.events[..|was.events|] == now.events;
      assert turns[..n][..n-1] == turns[..n-1] && pruned[..n][..n-1] == pruned[..n-1];
      FadesSelf([Ask(was.user)]);
      FadesAppend(TurnsStory(turns[..n-1]), TurnsStory(pruned[..n-1]), [Ask(was.user)], [Ask(now.user)]);
      FadesAppend(TurnsStory(turns[..n-1]) + [Ask(was.user)], TurnsStory(pruned[..n-1]) + [Ask(now.user)],
                  EventsStory(was.events), EventsStory(now.events));
    }
  }

  /** Pruning tells the same story with some finished tool output cleared. */
  lemma PrunedFades(turns: seq<Turn>, pruned: seq<Turn>)
    requires IsPruned(turns, pruned)
    ensures FadesTo(TurnsStory(turns), TurnsStory(pruned))
  {
    hide TurnsStory, PrunedEvent, Prunes, FadesTo;
    TurnsFade(turns, pruned, |turns|);
    assert turns[..|turns|] == turns && pruned[..|turns|] == pruned;
  }

  /** The turns of an exact tail are not pruned. */
  lemma TailUnpruned(turns: seq<Turn>, pruned: seq<Turn>, start: nat)
    requires IsPruned(turns, pruned) && start <= |turns| <= start + EXACT_TAIL_TURNS
    ensures pruned[start..] == turns[start..]
  {
    hide PrunedEvent, Prunes;
    forall t | start <= t < |turns|
      ensures pruned[t] == turns[t]
    {
      forall k | 0 <= k < |turns[t].events|
        ensures pruned[t].events[k] == turns[t].events[k]
      {
        RecentAndUnfinishedKept(turns, pruned, t, k);
      }
    }
  }
}
