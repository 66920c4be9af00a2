/** From an archived transcript to a handoff turn, end to end. */
module Snapshot {
  import opened Text
  import opened Transcript
  import opened Pruning
  import opened Compaction
  import opened Handoff
  import opened Story

  /** An archived transcript item, its content already rendered to text.
      `Hidden` is everything compaction drops: thoughts, plan proposals, system
      notices and unattached terminal output. */
  datatype Item =
    | User(content: Text)
    | Agent(content: Text)
    | ToolCall(call: Json)
    | PlanUpdate(plan: Json)
    | Hidden

  datatype Outcome<+T> =
    | Done(value: T)
    | NoUserTurns
    | OrphanHistory
    | Failed(error: CompactError)

  // ----- Recognizing an earlier handoff -----

  function Preamble(): Text {
    Ascii("You ") + Ascii("are continuing a coding session previously run by another ACP harness.")
  }

  function LegacyPreamble(): Text {
    Ascii("Continue this coding session from the portable transcript below.")
  }

  function Placeholder(): Text {
    Ascii("[cross-harness resume handoff: continuing work from a prior harness]")
  }

  /** Bytes of the white-space character a text starts with, if any: the
      Unicode White_Space set in UTF-8. */
  function SpaceWidth(t: Text): (n: nat)
    ensures n <= |t|
  {
    if t == [] then 0
    else if 0x09 <= t[0] <= 0x0D || t[0] == 0x20 then 1
    else if |t| >= 2 && t[0] == 0xC2 && (t[1] == 0x85 || t[1] == 0xA0) then 2
    else if |t| >= 3 && t[0] == 0xE1 && t[1] == 0x9A && t[2] == 0x80 then 3
    else if |t| >= 3 && t[0] == 0xE2 && t[1] == 0x80 && (0x80 <= t[2] <= 0x8A || t[2] in {0xA8, 0xA9, 0xAF}) then 3
    else if |t| >= 3 && t[0] == 0xE2 && t[1] == 0x81 && t[2] == 0x9F then 3
    else if |t| >= 3 && t[0] == 0xE3 && t[1] == 0x80 && t[2] == 0x80 then 3
    else 0
  }

  function TrimStart(t: Text): Text {
    if SpaceWidth(t) == 0 then t else TrimStart(t[SpaceWidth(t)..])
  }

  /** Trimming takes away white space only, and all of it. */
  lemma {:induction false} TrimIs(t: Text) returns (spaces: Text)
    ensures t == spaces + TrimStart(t) && SpaceWidth(TrimStart(t)) == 0
    ensures |spaces| == 0 <==> SpaceWidth(t) == 0
    decreases |t|
  {
    hide SpaceWidth;
    if SpaceWidth(t) == 0 {
      spaces := [];
    } else {
      var rest := TrimIs(t[SpaceWidth(t)..]);
      spaces := t[..SpaceWidth(t)] + rest;
    }
  }

  predicate IsSyntheticHandoff(t: Text) {
    Preamble() <= TrimStart(t) || LegacyPreamble() <= TrimStart(t)
  }

  function UserText(content: Text): Text {
    if IsSyntheticHandoff(content) then Placeholder() else content
  }

  lemma PreambleStart()
    ensures Preamble() != [] && Preamble()[0] == 89
  {
    var s := "You ";
    assert s[0] == 'Y';
    assert Ascii(s)[0] == 89;
  }

  /** Every handoff this pipeline writes is recognized when it comes back as a
      user turn, however it was wrapped in white space. */
  lemma HandoffRecognized(w: Wording, summary: Text, tail: Option<Text>)
    requires Preamble() <= w.handoffOpen
    ensures UserText(HandoffText(w, summary, tail)) == Placeholder()
    ensures forall wrapped :: TrimStart(wrapped) == HandoffText(w, summary, tail) ==> UserText(wrapped) == Placeholder()
  {
    var t := HandoffText(w, summary, tail);
    PreambleStart();
    hide Preamble, LegacyPreamble;
    assert Preamble() <= t;
    assert t[0] == Preamble()[0];
    assert SpaceWidth(t) == 0;
  }

  // ----- Folding items into turns -----

  function Users(items: seq<Item>): nat {
    if items == [] then 0 else Users(items[..|items|-1]) + if items[|items|-1].User? then 1 else 0
  }

  /** The last thing seen was assistant text. */
  predicate Speaking(items: seq<Item>) {
    if items == [] then false
    else
      var front := items[..|items|-1];
      match items[|items|-1]
      case Agent(_) => true
      case Hidden => Speaking(front)
      case ToolCall(_) => Users(front) == 0 && Speaking(front)
      case _ => false
  }

  /** Tool calls before the first user item are start-up noise. */
  function ItemStory(item: Item, started: bool, speaking: bool): seq<Atom> {
    match item
    case User(t) => [Ask(UserText(t))]
    case Agent(t) => (if speaking then [] else [Speak]) + Said(t)
    case ToolCall(v) => if started then [Call(v)] else []
    case PlanUpdate(v) => [Show(v)]
    case Hidden => []
  }

  function ItemsStory(items: seq<Item>): seq<Atom> {
    if items == [] then []
    else
      var front := items[..|items|-1];
      ItemsStory(front) + ItemStory(items[|items|-1], Users(front) > 0, Speaking(front))
  }

  predicate Orphan(items: seq<Item>, i: nat)
    requires i < |items|
  {
    (items[i].Agent? || items[i].PlanUpdate?) && Users(items[..i]) == 0
  }

  /** Something was said or planned before any user spoke. */
  predicate HasOrphan(items: seq<Item>) {
    exists i | 0 <= i < |items| :: Orphan(items, i)
  }

  /** Assistant text is one event until something else happens. */
  predicate Merged(turns: seq<Turn>) {
    forall t :: 0 <= t < |turns| ==> MergedEvents(turns[t].events)
  }

  function AppendEvent(es: seq<TurnEvent>, e: TurnEvent): seq<TurnEvent> {
    if e.Assistant? && es != [] && es[|es|-1].Assistant?
    then es[|es|-1 := Assistant(es[|es|-1].text + e.text)]
    else es + [e]
  }

  predicate EndsInText(es: seq<TurnEvent>) {
    es != [] && es[|es|-1].Assistant?
  }

  /** What appending an event adds to the story. */
  function Added(es: seq<TurnEvent>, e: TurnEvent): seq<Atom> {
    if e.Assistant? && EndsInText(es) then Said(e.text) else EventStory(e)
  }

  lemma AppendTells(es: seq<TurnEvent>, e: TurnEvent)
    ensures EventsStory(AppendEvent(es, e)) == EventsStory(es) + Added(es, e)
    ensures EndsInText(AppendEvent(es, e)) == e.Assistant?
  {
    hide Said;
    var n := |es| - 1;
    if e.Assistant? && EndsInText(es) {
      var had, added, more := es[n].text, e.text, AppendEvent(es, e);
      assert more[..n] == es[..n] && more[n] == Assistant(had + added);
      SaidMore(had, added);
      Assoc(EventsStory(es[..n]), [Speak] + Said(had), Said(added));
      Assoc([Speak], Said(had), Said(added));
    } else {
      assert (es + [e])[..|es|] == es;
    }
  }

  lemma SaidMore(a: Text, b: Text)
    ensures Said(a + b) == Said(a) + Said(b)
  {
  }

  predicate MergedEvents(es: seq<TurnEvent>) {
    forall k :: 0 < k < |es| ==> !(es[k-1].Assistant? && es[k].Assistant?)
  }

  lemma AppendMerged(es: seq<TurnEvent>, e: TurnEvent)
    ensures MergedEvents(es) ==> MergedEvents(AppendEvent(es, e))
  {
  }

  predicate Speaks(turns: seq<Turn>) {
    turns != [] && EndsInText(turns[|turns|-1].events)
  }

  /** Turns for the first items of a transcript. */
  ghost predicate Folded(items: seq<Item>, turns: seq<Turn>) {
    && TurnsStory(turns) == ItemsStory(items)
    && |turns| == Users(items)
    && Merged(turns) && Speaks(turns) == Speaking(items)
  }

  lemma FoldUser(items: seq<Item>, turns: seq<Turn>, content: Text)
    requires Folded(items, turns)
    ensures Folded(items + [User(content)], turns + [Turn(UserText(content), [])])
  {
    hide UserText;
    var more := turns + [Turn(UserText(content), [])];
    assert (items + [User(content)])[..|items|] == items;
    assert more[..|turns|] == turns;
    assert TurnsStory(more) == TurnsStory(turns) + [Ask(UserText(content))] + [];
  }

  lemma FoldEvent(items: seq<Item>, turns: seq<Turn>, item: Item, e: TurnEvent)
    requires Folded(items, turns) && turns != []
    requires !item.User? && !item.Hidden? && item.Agent? == e.Assistant?
    requires ItemStory(item, true, Speaks(turns)) == Added(turns[|turns|-1].events, e)
    ensures Folded(items + [item], AppendToLast(turns, e))
  {
    hide AppendEvent, UserText, EventsStory, EventStory, Said, MergedEvents;
    var n := |turns| - 1;
    var more := AppendToLast(turns, e);
    AppendMerged(turns[n].events, e);
    assert (items + [item])[..|items|] == items;
    assert more[..n] == turns[..n];
    AppendTells(turns[n].events, e);
    Assoc(TurnsStory(turns[..n]) + [Ask(turns[n].user)], EventsStory(turns[n].events), Added(turns[n].events, e));
  }

  lemma FoldNothing(items: seq<Item>, turns: seq<Turn>, item: Item)
    requires Folded(items, turns) && (item.Hidden? || (item.ToolCall? && turns == []))
    ensures Folded(items + [item], turns)
  {
    hide TurnsStory, Said, Merged;
    assert (items + [item])[..|items|] == items;
  }

  // ----- The story determines the turns -----

  lemma SaidCut(a: seq<Atom>, t: Text, b: seq<Atom>, u: Text)
    requires a + ([Speak] + Said(t)) == b + ([Speak] + Said(u))
    ensures a == b && t == u
  {
    var x, y := a + ([Speak] + Said(t)), b + ([Speak] + Said(u));
    assert x[|a|] == Speak && y[|b|] == Speak;
    assert forall i :: |a| < i < |x| ==> x[i].Say?;
    assert forall i :: |b| < i < |y| ==> y[i].Say?;
    assert |a| == |b|;
    assert a == x[..|a|] && b == y[..|b|];
    forall i | 0 <= i < |t|
      ensures t[i] == u[i]
    {
      assert x[|a| + 1 + i] == Say(t[i]) && y[|b| + 1 + i] == Say(u[i]);
    }
  }

  lemma LastEvent(a: seq<Atom>, e: TurnEvent, b: seq<Atom>, f: TurnEvent)
    requires a + EventStory(e) == b + EventStory(f)
    ensures a == b && e == f
  {
    var x, y := a + EventStory(e), b + EventStory(f);
    assert x[|x|-1] == y[|y|-1];
    if e.Assistant? && f.Assistant? {
      SaidCut(a, e.text, b, f.text);
    } else {
      assert a == x[..|x|-1] && b == y[..|y|-1];
    }
  }

  predicate EndsInAsk(a: seq<Atom>) {
    a != [] && a[|a|-1].Ask?
  }

  lemma {:induction false} SameEvents(a: seq<Atom>, es: seq<TurnEvent>, b: seq<Atom>, fs: seq<TurnEvent>)
    requires EndsInAsk(a) && EndsInAsk(b) && a + EventsStory(es) == b + EventsStory(fs)
    ensures a == b && es == fs
    decreases |es| + |fs|
  {
    hide EventStory, EventsStory;
    EndsOfStory(a, es);
    EndsOfStory(b, fs);
    assert es == [] <==> fs == [];
    if es != [] {
      EventsEnd(es);
      EventsEnd(fs);
      var n, m := |es| - 1, |fs| - 1;
      Assoc(a, EventsStory(es[..n]), EventStory(es[n]));
      Assoc(b, EventsStory(fs[..m]), EventStory(fs[m]));
      LastEvent(a + EventsStory(es[..n]), es[n], b + EventsStory(fs[..m]), fs[m]);
      SameEvents(a, es[..n], b, fs[..m]);
      assert es == es[..n] + [es[n]] && fs == fs[..m] + [fs[m]];
    }
  }

  lemma EventsEnd(es: seq<TurnEvent>)
    requires es != []
    ensures EventsStory(es) == EventsStory(es[..|es|-1]) + EventStory(es[|es|-1])
  {
    hide EventStory;
  }

  /** The story of events after a question ends in one only if there are none. */
  lemma EndsOfStory(a: seq<Atom>, es: seq<TurnEvent>)
    requires EndsInAsk(a)
    ensures EndsInAsk(a + EventsStory(es)) <==> es == []
    ensures es == [] ==> a + EventsStory(es) == a
  {
    if es != [] {
      var last, all := EventStory(es[|es|-1]), a + EventsStory(es);
      assert all[|all|-1] == last[|last|-1];
    }
  }

  lemma {:induction false} SameTurns(ts: seq<Turn>, us: seq<Turn>)
    requires TurnsStory(ts) == TurnsStory(us) && |ts| == |us|
    ensures ts == us
  {
    hide EventsStory;
    if ts != [] {
      var n := |ts| - 1;
      var a, b := TurnsStory(ts[..n]) + [Ask(ts[n].user)], TurnsStory(us[..n]) + [Ask(us[n].user)];
      SameEvents(a, ts[n].events, b, us[n].events);
      assert a[|a|-1] == b[|b|-1];
      assert TurnsStory(ts[..n]) == a[..|a|-1] && TurnsStory(us[..n]) == b[..|b|-1];
      SameTurns(ts[..n], us[..n]);
      assert ts == ts[..n] + [ts[n]] && us == us[..n] + [us[n]];
    }
  }

  /** There is only one way to fold a transcript. */
  lemma FoldedUnique(items: seq<Item>, ts: seq<Turn>, us: seq<Turn>)
    requires Folded(items, ts) && Folded(items, us)
    ensures ts == us
  {
    hide TurnsStory, ItemsStory, Merged;
    SameTurns(ts, us);
  }

  lemma FoldedNone()
    ensures Folded([], [])
  {
  }

  function AppendToLast(turns: seq<Turn>, e: TurnEvent): seq<Turn>
    requires turns != []
  {
    var n := |turns| - 1;
    turns[n := turns[n].(events := AppendEvent(turns[n].events, e))]
  }

  predicate ValidItem(item: Item) {
    match item
    case User(t) => ValidText(t)
    case Agent(t) => ValidText(t)
    case ToolCall(v) => ValidJson(v)
    case PlanUpdate(v) => ValidJson(v)
    case Hidden => true
  }

  predicate ValidItems(items: seq<Item>) {
    forall i :: 0 <= i < |items| ==> ValidItem(items[i])
  }

  lemma NoTurnsValid()
    ensures ValidTurns([])
  {
  }

  lemma AskValid(turns: seq<Turn>, content: Text)
    ensures ValidTurns(turns) && ValidItem(User(content)) ==> ValidTurns(turns + [Turn(UserText(content), [])])
  {
    hide ValidText, IsSyntheticHandoff;
    PlaceholderValid();
  }

  lemma PlaceholderValid()
    ensures ValidText(Placeholder())
  {
  }

  lemma TellValid(turns: seq<Turn>, e: TurnEvent)
    requires turns != []
    ensures ValidTurns(turns) && ValidEvent(e) ==> ValidTurns(AppendToLast(turns, e))
  {
    hide ValidText, ValidJson;
    var n := |turns| - 1;
    var es := turns[n].events;
    if ValidTurns(turns) && ValidEvent(e) {
      assert ValidTurn(turns[n]);
      if e.Assistant? && es != [] && es[|es|-1].Assistant? {
        assert ValidEvent(es[|es|-1]);
        ValidConcat(es[|es|-1].text, e.text);
      }
      assert ValidTurn(turns[n].(events := AppendEvent(es, e)));
    }
  }

  method TurnsFromSnapshot(items: seq<Item>) returns (r: Outcome<seq<Turn>>)
    ensures !r.Failed?
    ensures r.OrphanHistory? <==> HasOrphan(items)
    ensures r.NoUserTurns? <==> Users(items) == 0 && !HasOrphan(items)
    ensures r.Done? ==> r.value != [] && Folded(items, r.value)
    ensures r.Done? && ValidItems(items) ==> ValidTurns(r.value)
  {
    hide TurnsStory, ItemsStory, Merged, UserText, AppendEvent, Said, ValidTurns, ValidText, ValidJson, AppendToLast;
    NoTurnsValid();
    var turns: seq<Turn> := [];
    assert Folded(items[..0], turns) by { FoldedNone(); }
    for k := 0 to |items|
      invariant Folded(items[..k], turns)
      invariant forall i :: 0 <= i < k ==> !Orphan(items, i)
      invariant ValidItems(items) ==> ValidTurns(turns)
    {
      assert items[..k+1] == items[..k] + [items[k]];
      match items[k]
      case User(content) =>
        FoldUser(items[..k], turns, content);
        AskValid(turns, content);
        turns := turns + [Turn(UserText(content), [])];
      case Agent(content) =>
        if turns == [] {
          assert Orphan(items, k);
          r := OrphanHistory;
          return;
        }
        FoldEvent(items[..k], turns, items[k], Assistant(content));
        TellValid(turns, Assistant(content));
        turns := AppendToLast(turns, Assistant(content));
      case ToolCall(call) =>
        if turns != [] {
          FoldEvent(items[..k], turns, items[k], Tool(call));
          TellValid(turns, Tool(call));
          turns := AppendToLast(turns, Tool(call));
        } else {
          FoldNothing(items[..k], turns, items[k]);
        }
      case PlanUpdate(plan) =>
        if turns == [] {
          assert Orphan(items, k);
          r := OrphanHistory;
          return;
        }
        FoldEvent(items[..k], turns, items[k], Plan(plan));
        TellValid(turns, Plan(plan));
        turns := AppendToLast(turns, Plan(plan));
      case Hidden =>
        FoldNothing(items[..k], turns, items[k]);
    }
    assert items[..|items|] == items;
    r := if turns == [] then NoUserTurns else Done(turns);
  }

  // ----- Every item is in the text -----

  datatype Span = Span(start: nat, end: nat)

  function Slice(text: Text, s: Span): Text {
    if s.start <= s.end <= |text| then text[s.start..s.end] else []
  }

  function TextBefore(text: Text, s: Span): Text {
    if s.start <= |text| then text[..s.start] else []
  }

  /** Item `i` stands in the text: a user's words under the number of their turn,
      or the placeholder for an earlier handoff; assistant text; a tool call, if
      any user spoke before, as it was or with its finished output cleared; a
      plan. */
  ghost predicate ItemStands(items: seq<Item>, i: nat, text: Text, s: Span)
    requires i < |items|
  {
    && s.start <= s.end <= |text|
    && match items[i]
       case User(t) =>
         && Slice(text, s) == (if Preamble() <= TrimStart(t) || LegacyPreamble() <= TrimStart(t) then Placeholder() else t)
         && EndsIn(TextBefore(text, s), Lead(Ask(t), Users(items[..i]) + 1))
       case Agent(t) => Slice(text, s) == t
       case ToolCall(v) =>
         Users(items[..i]) > 0 ==>
           && EndsIn(TextBefore(text, s), Lead(Call(v), 0))
           && exists u :: (u == v || Blanked(v, u)) && Slice(text, s) == JsonText(u)
       case PlanUpdate(v) => Slice(text, s) == JsonText(v) && EndsIn(TextBefore(text, s), Lead(Show(v), 0))
       case Hidden => true
  }

  /** Every item stands in the text, in order and apart from the others. */
  ghost predicate ItemsStand(items: seq<Item>, text: Text, spans: seq<Span>) {
    && |spans| == |items|
    && (forall i :: 0 <= i < |items| ==> ItemStands(items, i, text, spans[i]))
    && forall i, j :: 0 <= i < j < |items| ==> spans[i].end <= spans[j].start
  }

  ghost predicate Retold(items: seq<Item>, text: Text) {
    exists spans :: ItemsStand(items, text, spans)
  }

  /** Atoms told for the first `n` items. */
  function Cut(items: seq<Item>, n: nat): nat
    requires n <= |items|
  {
    |ItemsStory(items[..n])|
  }

  function AtomsOf(items: seq<Item>, i: nat): seq<Atom>
    requires i < |items|
  {
    ItemStory(items[i], Users(items[..i]) > 0, Speaking(items[..i]))
  }

  lemma StoryStep(items: seq<Item>, i: nat)
    requires i < |items|
    ensures ItemsStory(items[..i+1]) == ItemsStory(items[..i]) + AtomsOf(items, i)
    ensures Cut(items, i + 1) == Cut(items, i) + |AtomsOf(items, i)|
  {
    hide ItemStory, UserText, IsSyntheticHandoff, Placeholder, Preamble, LegacyPreamble;
    assert items[..i+1][..i] == items[..i];
  }

  lemma {:induction false} StoryPrefix(items: seq<Item>, n: nat)
    requires n <= |items|
    ensures ItemsStory(items[..n]) <= ItemsStory(items)
    decreases |items| - n
  {
    hide UserText, IsSyntheticHandoff, Placeholder, Preamble, LegacyPreamble;
    if n == |items| {
      assert items[..n] == items;
    } else {
      StoryStep(items, n);
      StoryPrefix(items, n + 1);
    }
  }

  lemma {:induction false} UsersAsk(items: seq<Item>)
    ensures Asks(ItemsStory(items)) == Users(items)
  {
    hide UserText, IsSyntheticHandoff;
    if items != [] {
      var front, last := items[..|items|-1], items[|items|-1];
      UsersAsk(front);
      AsksAppend(ItemsStory(front), ItemStory(last, Users(front) > 0, Speaking(front)));
      OneItemAsks(last, Users(front) > 0, Speaking(front));
    }
  }

  lemma OneItemAsks(item: Item, started: bool, speaking: bool)
    ensures Asks(ItemStory(item, started, speaking)) == if item.User? then 1 else 0
  {
    hide UserText;
    match item
    case User(t) => AskOnce(UserText(t));
    case Agent(t) =>
      SaidAsksNothing(t);
      AsksAppend([Speak], Said(t));
      assert [] + Said(t) == Said(t);
    case _ =>
  }

  lemma {:induction false} FadedAsks(a: seq<Atom>, b: seq<Atom>)
    requires FadesTo(a, b)
    ensures Asks(a) == Asks(b)
  {
    hide Blanked;
    if a != [] {
      FadedAsks(a[..|a|-1], b[..|b|-1]);
    }
  }

  lemma FadesSlice(a: seq<Atom>, b: seq<Atom>, lo: nat, hi: nat)
    requires FadesTo(a, b) && lo <= hi <= |a|
    ensures hi <= |b| && FadesTo(a[lo..hi], b[lo..hi])
  {
    hide Fades;
    forall k | 0 <= k < hi - lo
      ensures Fades(a[lo..hi][k], b[lo..hi][k])
    {
      assert Fades(a[lo + k], b[lo + k]);
    }
  }

  /** The atoms of item `i` in a faded telling, and the number of the turn. */
  lemma AtomsTold(items: seq<Item>, told: seq<Atom>, i: nat)
    requires i < |items| && FadesTo(ItemsStory(items), told)
    ensures Cut(items, i + 1) == Cut(items, i) + |AtomsOf(items, i)| <= |told|
    ensures FadesTo(AtomsOf(items, i), told[Cut(items, i)..Cut(items, i + 1)])
    ensures Asks(told[..Cut(items, i)]) == Users(items[..i])
  {
    hide AtomsOf, Asks, Users, FadesTo, ItemsStory, UserText, IsSyntheticHandoff, Placeholder, Preamble, LegacyPreamble;
    var all, k, m := ItemsStory(items), Cut(items, i), Cut(items, i + 1);
    StoryStep(items, i);
    StoryPrefix(items, i);
    StoryPrefix(items, i + 1);
    assert all[..k] == ItemsStory(items[..i]) && all[k..m] == AtomsOf(items, i);
    FadesSlice(all, told, k, m);
    FadesSlice(all, told, 0, k);
    assert all[0..k] == all[..k] && told[0..k] == told[..k];
    FadedAsks(all[..k], told[..k]);
    UsersAsk(items[..i]);
  }

  lemma EndsWithin(text: Text, told: seq<Atom>, at: seq<nat>, k: nat)
    requires ToldAt(text, told, 1, at) && k <= |told|
    ensures |at| == |told| && EndOf(told, at, k) <= |text|
  {
    hide ToldAt, Lead, Body, Asks;
    Stood(text, told, 1, at);
    if k > 0 {
      Stands(text, told, 1, at, k - 1);
    }
  }

  lemma SayStands(text: Text, told: seq<Atom>, at: seq<nat>, k: nat)
    requires ToldAt(text, told, 1, at) && k < |told| && told[k].Say?
    ensures |at| == |told| && EndOf(told, at, k + 1) == EndOf(told, at, k) + 1 <= |text| && text[EndOf(told, at, k)] == told[k].b
  {
    hide ToldAt, Lead, Asks;
    Stands(text, told, 1, at, k);
    assert text[at[k]..at[k] + 1] == [told[k].b];
  }

  /** Assistant text told byte by byte stands in one piece. */
  lemma {:induction false} SpeechStands(text: Text, told: seq<Atom>, at: seq<nat>, k: nat, t: Text)
    requires ToldAt(text, told, 1, at) && k + |t| <= |told| && told[k..k + |t|] == Said(t)
    ensures |at| == |told| && EndOf(told, at, k) + |t| == EndOf(told, at, k + |t|) <= |text|
    ensures text[EndOf(told, at, k)..EndOf(told, at, k + |t|)] == t
    decreases |t|
  {
    hide ToldAt, EndOf;
    EndsWithin(text, told, at, k);
    if t != [] {
      var n := |t| - 1;
      assert told[k + n] == told[k..k + |t|][n] == Said(t)[n];
      SayStands(text, told, at, k + n);
      assert told[k..k + n] == Said(t)[..n] == Said(t[..n]);
      SpeechStands(text, told, at, k, t[..n]);
      assert t == t[..n] + [t[n]];
    }
  }

  /** An atom that is not part of assistant text stands under its lead. */
  lemma AtomSpan(text: Text, told: seq<Atom>, at: seq<nat>, k: nat) returns (s: Span)
    requires ToldAt(text, told, 1, at) && k < |told|
    ensures |at| == |told| && EndOf(told, at, k) <= s.start <= s.end == EndOf(told, at, k + 1) <= |text|
    ensures Slice(text, s) == Body(told[k]) && EndsIn(TextBefore(text, s), Lead(told[k], 1 + Asks(told[..k])))
  {
    hide ToldAt, Lead, Body, Asks;
    Stands(text, told, 1, at, k);
    s := Span(at[k], at[k] + |Body(told[k])|);
    var lead, before := Lead(told[k], 1 + Asks(told[..k])), text[..at[k]];
    assert before[|before| - |lead|..] == text[at[k] - |lead|..at[k]];
  }

  lemma UserStands(items: seq<Item>, i: nat, text: Text, told: seq<Atom>, at: seq<nat>) returns (s: Span)
    requires i < |items| && items[i].User? && ToldAt(text, told, 1, at) && FadesTo(ItemsStory(items), told)
    ensures Cut(items, i) < Cut(items, i + 1) <= |told| == |at|
    ensures ItemStands(items, i, text, s)
    ensures EndOf(told, at, Cut(items, i)) <= s.start <= s.end == EndOf(told, at, Cut(items, i + 1))
  {
    hide ToldAt, Asks, Users, Ascii, Decimal, EndOf, EndsIn, Slice, TextBefore, Placeholder, IsSyntheticHandoff, Cut,
      FadesTo, ItemsStory, Speaking, ItemStands;
    AtomsTold(items, told, i);
    var k := Cut(items, i);
    OneAtom(AtomsOf(items, i), told, k);
    s := AtomSpan(text, told, at, k);
    UserIsItem(items, i, text, s);
  }

  lemma UserIsItem(items: seq<Item>, i: nat, text: Text, s: Span)
    requires i < |items| && items[i].User? && s.start <= s.end <= |text|
    requires Slice(text, s) == UserText(items[i].content)
    requires EndsIn(TextBefore(text, s), Lead(Ask(items[i].content), Users(items[..i]) + 1))
    ensures ItemStands(items, i, text, s)
  {
    hide JsonText, Slice, TextBefore, EndsIn, Lead, Users, Placeholder, Preamble, LegacyPreamble, TrimStart, Blanked;
  }

  /** One atom that pruning leaves alone. */
  lemma OneAtom(atoms: seq<Atom>, told: seq<Atom>, k: nat)
    requires |atoms| == 1 && k + 1 <= |told| && FadesTo(atoms, told[k..k + 1])
    ensures Fades(atoms[0], told[k])
  {
    hide Fades;
    assert Fades(atoms[0], told[k..k + 1][0]);
  }

  lemma PlanStands(items: seq<Item>, i: nat, text: Text, told: seq<Atom>, at: seq<nat>) returns (s: Span)
    requires i < |items| && items[i].PlanUpdate? && ToldAt(text, told, 1, at) && FadesTo(ItemsStory(items), told)
    ensures Cut(items, i) < Cut(items, i + 1) <= |told| == |at|
    ensures ItemStands(items, i, text, s)
    ensures EndOf(told, at, Cut(items, i)) <= s.start <= s.end == EndOf(told, at, Cut(items, i + 1))
  {
    hide ToldAt, Asks, Users, Ascii, Decimal, EndOf, EndsIn, Slice, TextBefore, Cut, FadesTo, JsonText, ItemsStory,
      Speaking, ItemStands, UserText, IsSyntheticHandoff, Placeholder, Preamble, LegacyPreamble;
    AtomsTold(items, told, i);
    var k := Cut(items, i);
    OneAtom(AtomsOf(items, i), told, k);
    s := AtomSpan(text, told, at, k);
    PlanIsItem(items, i, text, s);
  }

  lemma PlanIsItem(items: seq<Item>, i: nat, text: Text, s: Span)
    requires i < |items| && items[i].PlanUpdate? && s.start <= s.end <= |text|
    requires Slice(text, s) == JsonText(items[i].plan) && EndsIn(TextBefore(text, s), Lead(Show(items[i].plan), 0))
    ensures ItemStands(items, i, text, s)
  {
    hide JsonText, Slice, TextBefore, EndsIn, Lead, IsSyntheticHandoff, Placeholder, Preamble, LegacyPreamble, Users;
  }

  lemma CallStands(items: seq<Item>, i: nat, text: Text, told: seq<Atom>, at: seq<nat>) returns (s: Span)
    requires i < |items| && items[i].ToolCall? && Users(items[..i]) > 0
    requires ToldAt(text, told, 1, at) && FadesTo(ItemsStory(items), told)
    ensures Cut(items, i) < Cut(items, i + 1) <= |told| == |at|
    ensures ItemStands(items, i, text, s)
    ensures EndOf(told, at, Cut(items, i)) <= s.start <= s.end == EndOf(told, at, Cut(items, i + 1))
  {
    hide ToldAt, Asks, Users, Ascii, Decimal, EndOf, EndsIn, Slice, TextBefore, Cut, FadesTo, JsonText, Blanked,
      ItemsStory, Speaking, ItemStands, UserText, IsSyntheticHandoff, Placeholder, Preamble, LegacyPreamble;
    AtomsTold(items, told, i);
    var k := Cut(items, i);
    OneAtom(AtomsOf(items, i), told, k);
    s := AtomSpan(text, told, at, k);
    CallIsItem(items, i, text, s, told[k].call);
  }

  lemma CallIsItem(items: seq<Item>, i: nat, text: Text, s: Span, u: Json)
    requires i < |items| && items[i].ToolCall? && s.start <= s.end <= |text| && (u == items[i].call || Blanked(items[i].call, u))
    requires Slice(text, s) == JsonText(u) && EndsIn(TextBefore(text, s), Lead(Call(items[i].call), 0))
    ensures ItemStands(items, i, text, s)
  {
    hide JsonText, Slice, TextBefore, EndsIn, Lead, Blanked, Users, IsSyntheticHandoff, Placeholder, Preamble, LegacyPreamble;
  }

  lemma AgentStands(items: seq<Item>, i: nat, text: Text, told: seq<Atom>, at: seq<nat>) returns (s: Span)
    requires i < |items| && items[i].Agent? && ToldAt(text, told, 1, at) && FadesTo(ItemsStory(items), told)
    ensures Cut(items, i) <= Cut(items, i + 1) <= |told| == |at|
    ensures ItemStands(items, i, text, s)
    ensures EndOf(told, at, Cut(items, i)) <= s.start <= s.end == EndOf(told, at, Cut(items, i + 1))
  {
    hide ToldAt, Asks, Users, EndOf, Cut, FadesTo, Said, ItemsStory, Speaking, ItemStands, AtomsOf, UserText,
      IsSyntheticHandoff, Placeholder, Preamble, LegacyPreamble;
    AgentAtoms(items, i);
    AtomsTold(items, told, i);
    SpeechUnfaded(AtomsOf(items, i), told[Cut(items, i)..Cut(items, i + 1)], items[i].content, Speaking(items[..i]));
    s := SpeechSpan(text, told, at, Cut(items, i), Cut(items, i + 1), items[i].content, Speaking(items[..i]));
    SpeechIsItem(items, i, text, s);
  }

  lemma SpeechSpan(text: Text, told: seq<Atom>, at: seq<nat>, k: nat, m: nat, t: Text, speaking: bool) returns (s: Span)
    requires ToldAt(text, told, 1, at) && k <= m <= |told| && m == k + |t| + (if speaking then 0 else 1)
    requires if speaking then told[k..m] == Said(t) else told[k..m][1..] == Said(t)
    ensures |at| == |told| && EndOf(told, at, k) <= s.start <= s.end == EndOf(told, at, m) <= |text|
    ensures text[s.start..s.end] == t
  {
    hide ToldAt, Asks, EndOf, Said, Lead, Body;
    if speaking {
      SpeechStands(text, told, at, k, t);
      s := Span(EndOf(told, at, k), EndOf(told, at, m));
    } else {
      assert told[k + 1..m] == told[k..m][1..];
      var lead := AtomSpan(text, told, at, k);
      SpeechStands(text, told, at, k + 1, t);
      s := Span(EndOf(told, at, k + 1), EndOf(told, at, m));
    }
  }

  lemma AgentAtoms(items: seq<Item>, i: nat)
    requires i < |items| && items[i].Agent?
    ensures AtomsOf(items, i) == (if Speaking(items[..i]) then [] else [Speak]) + Said(items[i].content)
  {
    hide Users, Speaking, Said, UserText, IsSyntheticHandoff, Placeholder, Preamble, LegacyPreamble;
  }

  lemma SpeechIsItem(items: seq<Item>, i: nat, text: Text, s: Span)
    requires i < |items| && items[i].Agent? && s.start <= s.end <= |text| && text[s.start..s.end] == items[i].content
    ensures ItemStands(items, i, text, s)
  {
    hide JsonText, TextBefore, EndsIn, Lead, Users, IsSyntheticHandoff, Placeholder, Preamble, LegacyPreamble, Blanked;
  }

  /** Pruning leaves assistant text alone. */
  lemma SpeechUnfaded(atoms: seq<Atom>, told: seq<Atom>, t: Text, speaking: bool)
    requires FadesTo(atoms, told) && atoms == (if speaking then [] else [Speak]) + Said(t)
    ensures |told| == |t| + (if speaking then 0 else 1)
    ensures if speaking then told == Said(t) else told[1..] == Said(t)
  {
    forall k | 0 <= k < |atoms|
      ensures told[k] == atoms[k]
    {
      assert Fades(atoms[k], told[k]);
    }
    assert told == atoms;
  }

  lemma UntoldStands(items: seq<Item>, i: nat, text: Text, told: seq<Atom>, at: seq<nat>) returns (s: Span)
    requires i < |items| && (items[i].Hidden? || (items[i].ToolCall? && Users(items[..i]) == 0))
    requires ToldAt(text, told, 1, at) && FadesTo(ItemsStory(items), told)
    ensures Cut(items, i) <= Cut(items, i + 1) <= |told| == |at|
    ensures ItemStands(items, i, text, s)
    ensures EndOf(told, at, Cut(items, i)) <= s.start <= s.end == EndOf(told, at, Cut(items, i + 1))
  {
    hide ToldAt, Asks, Users, EndOf, Cut, FadesTo, ItemsStory, ItemStands, Speaking, UserText, IsSyntheticHandoff,
      Placeholder;
    AtomsTold(items, told, i);
    EndsWithin(text, told, at, Cut(items, i));
    s := Span(EndOf(told, at, Cut(items, i)), EndOf(told, at, Cut(items, i)));
    UntoldIsItem(items, i, text, s);
  }

  lemma UntoldIsItem(items: seq<Item>, i: nat, text: Text, s: Span)
    requires i < |items| && (items[i].Hidden? || (items[i].ToolCall? && Users(items[..i]) == 0)) && s.start <= s.end <= |text|
    ensures ItemStands(items, i, text, s)
  {
    hide JsonText, Slice, TextBefore, EndsIn, Lead, Users, IsSyntheticHandoff, Placeholder, Preamble, LegacyPreamble, Blanked;
  }

  lemma OneStands(items: seq<Item>, i: nat, text: Text, told: seq<Atom>, at: seq<nat>) returns (s: Span)
    requires i < |items| && ToldAt(text, told, 1, at) && FadesTo(ItemsStory(items), told)
    ensures Cut(items, i) <= Cut(items, i + 1) <= |told| == |at|
    ensures ItemStands(items, i, text, s)
    ensures EndOf(told, at, Cut(items, i)) <= s.start <= s.end == EndOf(told, at, Cut(items, i + 1))
  {
    hide ToldAt, Users, EndOf, Cut, FadesTo, ItemsStory, ItemStands, UserText, IsSyntheticHandoff, Placeholder, Preamble, LegacyPreamble;
    match items[i]
    case User(_) => s := UserStands(items, i, text, told, at);
    case Agent(_) => s := AgentStands(items, i, text, told, at);
    case PlanUpdate(_) => s := PlanStands(items, i, text, told, at);
    case ToolCall(_) =>
      if Users(items[..i]) > 0 {
        s := CallStands(items, i, text, told, at);
      } else {
        s := UntoldStands(items, i, text, told, at);
      }
    case Hidden => s := UntoldStands(items, i, text, told, at);
  }

  lemma {:induction false} AllStand(items: seq<Item>, n: nat, text: Text, told: seq<Atom>, at: seq<nat>) returns (spans: seq<Span>)
    requires n <= |items| && ToldAt(text, told, 1, at) && FadesTo(ItemsStory(items), told)
    ensures |spans| == n && Cut(items, n) <= |told| == |at|
    ensures forall i :: 0 <= i < n ==> ItemStands(items, i, text, spans[i]) && spans[i].end <= EndOf(told, at, Cut(items, n))
    ensures forall i, j :: 0 <= i < j < n ==> spans[i].end <= spans[j].start
    decreases n
  {
    hide ToldAt, ItemStands, EndOf, FadesTo, ItemsStory, UserText, IsSyntheticHandoff, Placeholder, Preamble, LegacyPreamble;
    Stood(text, told, 1, at);
    if n == 0 {
      NothingCut(items);
      spans := [];
    } else {
      spans := AllStand(items, n - 1, text, told, at);
      var last := OneStands(items, n - 1, text, told, at);
      spans := spans + [last];
    }
  }

  lemma NothingCut(items: seq<Item>)
    ensures Cut(items, 0) == 0
  {
    hide UserText, IsSyntheticHandoff, Placeholder, Preamble, LegacyPreamble;
  }

  /** What is rendered of folded and pruned turns holds every item. */
  lemma ItemsRetold(items: seq<Item>, turns: seq<Turn>, pruned: seq<Turn>)
    requires Folded(items, turns) && IsPruned(turns, pruned)
    ensures Retold(items, TurnsText(pruned, 0))
  {
    hide ToldAt, FadesTo, ItemsStory, TurnsStory, IsPruned, ItemStands, Merged, TurnText, RenderAll, UserText,
      IsSyntheticHandoff, Placeholder, Preamble, LegacyPreamble;
    var at := TurnsTold(pruned, 0);
    PrunedFades(turns, pruned);
    var spans := AllStand(items, |items|, TurnsText(pruned, 0), TurnsStory(pruned), at);
    assert ItemsStand(items, TurnsText(pruned, 0), spans);
  }

  /** A 64-bit machine can hold the transcript. */
  ghost predicate MemoryHolds(w: Wording, items: seq<Item>) {
    forall turns :: Folded(items, turns) ==> FitsMemory(w, turns)
  }

  lemma MemoryFor(w: Wording, items: seq<Item>, turns: seq<Turn>)
    requires MemoryHolds(w, items) && Folded(items, turns)
    ensures FitsMemory(w, turns)
  {
    hide Folded, FitsMemory;
  }

  /** The same end, as compaction sees it. */
  function AsResult(r: Outcome<Text>): Result<Text>
    requires r.Done? || r.Failed?
  {
    match r
    case Done(text) => Ok(text)
    case Failed(error) => Err(error)
  }

  /** From a transcript to a handoff, for every transcript, budget and backend,
      and for every wording that leaves room, as the source's own does. Once the
      items fold into turns, `whole` is what is passed on: every item stands in
      it, and `Conveys` says where it went. `Justified` says what is returned and
      why. */
  method CompactSnapshot(requests: Requests, items: seq<Item>, contextBytes: nat)
      returns (r: Outcome<Text>, ghost turns: seq<Turn>, ghost pruned: seq<Turn>, ghost lineage: Lineage, ghost impasse: Impasse,
               ghost whole: Text)
    requires Reasonable(requests.w) && PageOverhead(requests.w) > 0 && contextBytes <= USIZE_MAX
    requires requests.log == [] && requests.sent == []
    requires ValidItems(items) && MemoryHolds(requests.w, items)
    modifies requests
    ensures NothingAfterFatal(requests.backend, requests.log) && Within(requests.log, contextBytes)
    ensures Frugal(requests.log, requests.sent)
    ensures requests.AllExplained() && SentWell(requests.sent, whole)
    ensures contextBytes < MIN_CONTEXT_BYTES <==> r == Failed(ContextTooSmall)
    ensures contextBytes >= MIN_CONTEXT_BYTES ==> (r.OrphanHistory? <==> HasOrphan(items))
    ensures contextBytes >= MIN_CONTEXT_BYTES ==> (r.NoUserTurns? <==> Users(items) == 0 && !HasOrphan(items))
    ensures contextBytes >= MIN_CONTEXT_BYTES && (r.Done? || r.Failed?) ==>
      && Folded(items, turns) && |pruned| == |turns| && IsPruned(turns, pruned)
      && Justified(requests.w, requests.backend, requests.log, contextBytes, turns, pruned, lineage, impasse, AsResult(r))
      && Retold(items, whole) && Conveys(requests.w, requests.log, turns, lineage, whole, AsResult(r))
  {
    hide Folded, HasOrphan, Users, FitsMemory, ValidItems, ValidTurns, IsPruned, Justified, Reasonable, MemoryHolds, PageOverhead,
      NothingAfterFatal, Within, UserText, Explained, SentWell, TurnText, RenderAll, Retold, Conveys;
    turns, pruned, lineage, impasse, whole := [], [], NoLineage, NoImpasse, [];
    NothingSent(requests.w, requests.backend, contextBytes);
    if contextBytes < MIN_CONTEXT_BYTES {
      r := Failed(ContextTooSmall);
      return;
    }
    var folded := TurnsFromSnapshot(items);
    match folded
    case NoUserTurns => r := NoUserTurns;
    case OrphanHistory => r := OrphanHistory;
    case Done(ts) =>
      turns := ts;
      MemoryFor(requests.w, items, ts);
      var result, kept;
      result, kept, lineage, impasse := CompactTurns(requests, contextBytes, ts);
      pruned, whole := kept, TurnsText(kept, 0);
      ItemsRetold(items, turns, pruned);
      NotTooSmall(requests, contextBytes, turns, pruned, lineage, impasse, result);
      r := match result case Ok(text) => Done(text) case Err(error) => Failed(error);
  }

  lemma NotTooSmall(requests: Requests, contextBytes: nat, turns: seq<Turn>, pruned: seq<Turn>, lineage: Lineage, impasse: Impasse,
                    r: Result<Text>)
    requires |pruned| == |turns| && contextBytes >= MIN_CONTEXT_BYTES
    requires Justified(requests.w, requests.backend, requests.log, contextBytes, turns, pruned, lineage, impasse, r)
    ensures r != Err(ContextTooSmall)
  {
    hide Delivered, FailsFor, SettledAtOnce, UserIndex;
  }

  lemma NothingSent(w: Wording, b: Backend, contextBytes: nat)
    ensures NothingAfterFatal(b, []) && Within([], contextBytes) && Explained(w, b, [], [])
    ensures SentWell([], [])
  {
    hide TurnText;
  }
}
