/** User turns and their rendering, as compaction sends them to a model. */
module Transcript {
  import opened Text

  /** One member of a JSON object: its key, the key as serialized, and the
      serialized value. */
  datatype Member = Member(key: Text, shown: Text, value: Text)

  /** A JSON value in compact serialized form; only objects are looked into.
      Members are kept in key order, as `serde_json::Map` does. */
  datatype Json =
    | Object(members: seq<Member>)
    | Other(text: Text)

  datatype TurnEvent =
    | Assistant(text: Text)
    | Tool(call: Json)
    | Plan(plan: Json)

  datatype Turn = Turn(user: Text, events: seq<TurnEvent>)

  const EXACT_TAIL_TURNS: nat := 2

  // ----- JSON -----

  function Members(ms: seq<Member>): Text {
    if ms == [] then []
    else if |ms| == 1 then ms[0].shown + Ascii(":") + ms[0].value
    else ms[0].shown + Ascii(":") + ms[0].value + Ascii(",") + Members(ms[1..])
  }

  /** `Value::to_string`. */
  function JsonText(v: Json): Text {
    match v
    case Object(ms) => Ascii("{") + Members(ms) + Ascii("}")
    case Other(t) => t
  }

  function MemberTexts(ms: seq<Member>): seq<Text> {
    if ms == [] then [] else [ms[0].shown, ms[0].value] + MemberTexts(ms[1..])
  }

  /** An object's text holds every key and value, in order. */
  lemma {:induction false} MembersQuoted(ms: seq<Member>)
    ensures Quotes(Members(ms), MemberTexts(ms))
  {
    hide Quotes;
    if ms == [] {
      QuotesNothing(Members(ms));
    } else {
      var one := ms[0].shown + Ascii(":") + ms[0].value;
      var comma := if |ms| == 1 then [] else Ascii(",");
      MembersQuoted(ms[1..]);
      QuotesTwo([], ms[0].shown, Ascii(":"), ms[0].value, comma);
      assert [] + ms[0].shown + Ascii(":") + ms[0].value + comma == one + comma;
      QuotesAppend(one + comma, [ms[0].shown, ms[0].value], Members(ms[1..]), MemberTexts(ms[1..]));
      assert Members(ms) == one + comma + Members(ms[1..]);
    }
  }

  lemma JsonQuoted(v: Json)
    ensures v.Object? ==> Quotes(JsonText(v), MemberTexts(v.members))
    ensures v.Other? ==> JsonText(v) == v.text
  {
    hide Quotes, Members, MemberTexts;
    if v.Object? {
      MembersQuoted(v.members);
      QuotesNothing(Ascii("{"));
      QuotesNothing(Ascii("}"));
      var inner := MemberTexts(v.members);
      QuotesAppend(Ascii("{"), [], Members(v.members), inner);
      QuotesAppend(Ascii("{") + Members(v.members), [] + inner, Ascii("}"), []);
      assert [] + inner + [] == inner;
    }
  }

  predicate ValidMembers(ms: seq<Member>) {
    forall i :: 0 <= i < |ms| ==> ValidText(ms[i].shown) && ValidText(ms[i].value)
  }

  predicate ValidJson(v: Json) {
    match v
    case Object(ms) => ValidMembers(ms)
    case Other(t) => ValidText(t)
  }

  lemma {:induction false} MembersValid(ms: seq<Member>)
    requires ValidMembers(ms)
    ensures ValidText(Members(ms))
  {
    if ms != [] {
      ValidConcat(ms[0].shown, Ascii(":"));
      ValidConcat(ms[0].shown + Ascii(":"), ms[0].value);
      if |ms| > 1 {
        MembersValid(ms[1..]);
        ValidConcat(ms[0].shown + Ascii(":") + ms[0].value, Ascii(","));
        ValidConcat(ms[0].shown + Ascii(":") + ms[0].value + Ascii(","), Members(ms[1..]));
      }
    }
  }

  lemma JsonValid(v: Json)
    requires ValidJson(v)
    ensures ValidText(JsonText(v))
  {
    if v.Object? {
      MembersValid(v.members);
      ValidConcat(Ascii("{"), Members(v.members));
      ValidConcat(Ascii("{") + Members(v.members), Ascii("}"));
    }
  }

  function Find(ms: seq<Member>, key: Text): Option<Text> {
    if ms == [] then None
    else if ms[0].key == key then Some(ms[0].value)
    else Find(ms[1..], key)
  }

  /** `value.get(key)`, in serialized form. */
  function Get(v: Json, key: Text): Option<Text> {
    if v.Object? then Find(v.members, key) else None
  }

  // ----- Rendering -----

  predicate ValidEvent(e: TurnEvent) {
    match e
    case Assistant(t) => ValidText(t)
    case Tool(v) => ValidJson(v)
    case Plan(v) => ValidJson(v)
  }

  predicate ValidTurn(t: Turn) {
    && ValidText(t.user)
    && forall i :: 0 <= i < |t.events| ==> ValidEvent(t.events[i])
  }

  predicate ValidTurns(ts: seq<Turn>) {
    forall i :: 0 <= i < |ts| ==> ValidTurn(ts[i])
  }

  function OpenText(turn: Turn, index: nat): Text {
    Ascii("<turn number=\"") + Decimal(index + 1) + Ascii("\">\n<user>\n") + turn.user + Ascii("\n</user>\n")
  }

  function CloseText(): Text {
    Ascii("</turn>\n\n")
  }

  function Wrapped(open: string, body: Text, close: string): Text {
    Ascii(open) + body + Ascii(close)
  }

  function EventText(e: TurnEvent): Text {
    match e
    case Assistant(t) => Wrapped("<assistant>\n", t, "\n</assistant>\n")
    case Tool(v) => Wrapped("<tool_event>\n", JsonText(v), "\n</tool_event>\n")
    case Plan(v) => Wrapped("<plan_event>\n", JsonText(v), "\n</plan_event>\n")
  }

  function EventsText(es: seq<TurnEvent>): Text {
    JoinAll(EventText, es)
  }

  function TurnText(turn: Turn, index: nat): Text {
    OpenText(turn, index) + EventsText(turn.events) + CloseText()
  }

  /** The rendering of `turns`, numbered from `offset`. */
  function TurnsText(turns: seq<Turn>, offset: nat): Text {
    RenderAll(TurnText, turns, offset)
  }

  lemma WrappedValid(open: string, body: Text, close: string)
    requires ValidText(body)
    ensures ValidText(Wrapped(open, body, close))
  {
    ValidConcat(Ascii(open), body);
    ValidConcat(Ascii(open) + body, Ascii(close));
  }

  lemma EventValid(e: TurnEvent)
    requires ValidEvent(e)
    ensures ValidText(EventText(e))
  {
    match e
    case Assistant(t) => WrappedValid("<assistant>\n", t, "\n</assistant>\n");
    case Tool(v) =>
      JsonValid(v);
      WrappedValid("<tool_event>\n", JsonText(v), "\n</tool_event>\n");
    case Plan(v) =>
      JsonValid(v);
      WrappedValid("<plan_event>\n", JsonText(v), "\n</plan_event>\n");
  }

  lemma OpenValid(turn: Turn, index: nat)
    requires ValidText(turn.user)
    ensures ValidText(OpenText(turn, index)) && OpenText(turn, index) != []
  {
    var a, b, c, d, e := Ascii("<turn number=\""), Decimal(index + 1), Ascii("\">\n<user>\n"), turn.user, Ascii("\n</user>\n");
    ValidConcat(a, b);
    ValidConcat(a + b, c);
    ValidConcat(a + b + c, d);
    ValidConcat(a + b + c + d, e);
  }

  lemma TurnNonempty(turn: Turn, index: nat)
    ensures |TurnText(turn, index)| >= |OpenText(turn, index)| + 9 > 9
  {
  }

  // ----- The exact tail -----

  /** Turns from `k` on may be kept exactly: at most two, within a third of the
      budget. */
  predicate Fits(turns: seq<Turn>, k: nat, contextBytes: nat) {
    && k <= |turns| <= k + EXACT_TAIL_TURNS
    && |TurnsText(turns[k..], k)| <= contextBytes / 3
  }

  lemma RenderNone(offset: nat)
    ensures TurnsText([], offset) == []
  {
  }

  /** The longest suffix that fits, unless that is the whole transcript: with
      no summarized head there is nothing to keep a tail for. */
  method ExactTailStart(turns: seq<Turn>, contextBytes: nat) returns (start: nat)
    requires |TurnsText(turns, 0)| <= USIZE_MAX
    ensures Fits(turns, 0, contextBytes) ==> start == |turns|
    ensures !Fits(turns, 0, contextBytes) ==>
              0 < start && Fits(turns, start, contextBytes) && !Fits(turns, start - 1, contextBytes)
  {
    hide TurnText, RenderAll;
    assert TurnsText([], |turns|) == [] by { RenderNone(|turns|); }
    var limit := contextBytes / 3;
    var used := 0;
    start := |turns|;
    assert turns[|turns|..] == [];
    var index := |turns|;
    while index > 0 && |turns| - index < EXACT_TAIL_TURNS
      invariant index == start <= |turns|
      invariant used == |TurnsText(turns[start..], start)|
      invariant Fits(turns, start, contextBytes)
    {
      RenderCons(TurnText, turns, index - 1);
      RenderSuffix(TurnText, turns, index - 1);
      var size := |TurnText(turns[index - 1], index - 1)|;
      if SatAdd(used, size) > limit {
        break;
      }
      used := used + size;
      index := index - 1;
      start := index;
    }
    if start == 0 {
      start := |turns|;
    } else {
      FitsUpward(turns, start - 1, contextBytes);
    }
  }

  lemma FitsUpward(turns: seq<Turn>, k: nat, contextBytes: nat)
    requires k <= |turns|
    ensures Fits(turns, 0, contextBytes) ==> Fits(turns, k, contextBytes)
  {
    assert turns[0..] == turns;
    RenderSuffix(TurnText, turns, k);
  }
}
