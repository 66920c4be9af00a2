/** Which session updates of one ACP connection reach the durable relay. */
module RelayGate {

  datatype Update =
    | ToolCall(id: string)
    | ToolCallUpdate(id: string, blank: bool)
    | OtherUpdate

  /** What arrives on a connection. `scratch` marks an update of a compaction's
      scratch session; `Loaded` is the response to `session/load`. */
  datatype Input =
    | Notified(update: Update, scratch: bool)
    | Loaded

  // ----- What should be relayed -----

  /** A resumed session replays its history until the load response. */
  predicate Live(resumed: bool, inputs: seq<Input>, k: nat) {
    resumed ==> exists j :: 0 <= j < k && j < |inputs| && inputs[j].Loaded?
  }

  predicate Candidate(resumed: bool, inputs: seq<Input>, k: nat) {
    k < |inputs| && inputs[k].Notified? && !inputs[k].scratch && Live(resumed, inputs, k)
  }

  predicate Creates(resumed: bool, inputs: seq<Input>, k: nat, id: string) {
    Candidate(resumed, inputs, k) && inputs[k].update == ToolCall(id)
  }

  predicate Relayable(resumed: bool, inputs: seq<Input>, k: nat) {
    && Candidate(resumed, inputs, k)
    && match inputs[k].update
       case ToolCall(_) => true
       case ToolCallUpdate(id, blank) => !blank && exists j: nat :: j < k && Creates(resumed, inputs, j, id)
       case OtherUpdate => true
  }

  lemma NothingBeforeLoad(inputs: seq<Input>, k: nat)
    requires Relayable(true, inputs, k)
    ensures LoadedBefore(inputs, k)
  {
  }

  /** A relayed tool update follows a relayed creation of the same call. */
  lemma UpdateFollowsCreation(resumed: bool, inputs: seq<Input>, k: nat)
    requires Relayable(resumed, inputs, k) && inputs[k].update.ToolCallUpdate?
    ensures exists j: nat :: j < k && Relayable(resumed, inputs, j) && inputs[j].update == ToolCall(inputs[k].update.id)
  {
    var j: nat :| j < k && Creates(resumed, inputs, j, inputs[k].update.id);
    assert Relayable(resumed, inputs, j);
  }

  // ----- The handler -----

  class Gate {
    var enabled: bool
    var liveToolCalls: set<string>

    constructor (resumed: bool)
      ensures enabled == !resumed && liveToolCalls == {}
    {
      enabled, liveToolCalls := !resumed, {};
    }

    /** `session_update_is_relay_visible`. */
    method IsVisible(update: Update) returns (visible: bool)
      modifies this`liveToolCalls
      ensures liveToolCalls == old(liveToolCalls) + (if update.ToolCall? then {update.id} else {})
      ensures visible == match update
                         case ToolCall(_) => true
                         case ToolCallUpdate(id, blank) => !blank && id in old(liveToolCalls)
                         case OtherUpdate => true
    {
      match update
      case ToolCall(id) =>
        liveToolCalls := liveToolCalls + {id};
        visible := true;
      case ToolCallUpdate(id, blank) =>
        visible := !blank && id in liveToolCalls;
      case OtherUpdate =>
        visible := true;
    }

    method OnInput(input: Input) returns (relayed: bool)
      modifies this
      ensures enabled == (old(enabled) || input.Loaded?)
      ensures liveToolCalls == old(liveToolCalls)
              + (if input.Notified? && !input.scratch && old(enabled) && input.update.ToolCall? then {input.update.id} else {})
      ensures relayed <==> input.Notified? && !input.scratch && old(enabled) &&
                           match input.update
                           case ToolCall(_) => true
                           case ToolCallUpdate(id, blank) => !blank && id in old(liveToolCalls)
                           case OtherUpdate => true
    {
      relayed := false;
      if input.Loaded? {
        enabled := true;
      } else if !input.scratch && enabled {
        relayed := IsVisible(input.update);
      }
    }

    /** A whole connection: exactly the relayable inputs are relayed, in order. */
    method Connection(resumed: bool, inputs: seq<Input>) returns (relayed: seq<nat>)
      requires enabled == !resumed && liveToolCalls == {}
      modifies this
      ensures forall k: nat :: k in relayed <==> Relayable(resumed, inputs, k)
      ensures forall i, j :: 0 <= i < j < |relayed| ==> relayed[i] < relayed[j]
      // nothing is relayed of a resumed session before its load response
      ensures resumed ==> forall i :: 0 <= i < |relayed| ==> LoadedBefore(inputs, relayed[i])
      // and every relayed tool update comes after the creation that was relayed
      ensures forall i :: 0 <= i < |relayed| ==> Grounded(inputs, relayed, i)
    {
      relayed := [];
      for n := 0 to |inputs|
        invariant enabled == Live(resumed, inputs, n)
        invariant forall id :: id in liveToolCalls <==> exists j: nat :: j < n && Creates(resumed, inputs, j, id)
        invariant forall k: nat :: k in relayed <==> k < n && Relayable(resumed, inputs, k)
        invariant forall i, j :: 0 <= i < j < |relayed| ==> relayed[i] < relayed[j]
      {
        ghost var created := liveToolCalls;
        var yes := OnInput(inputs[n]);
        CreatedStep(resumed, inputs, n, created, liveToolCalls);
        LiveStep(resumed, inputs, n);
        assert yes <==> Relayable(resumed, inputs, n);
        ghost var was := relayed;
        if yes {
          assert forall i :: 0 <= i < |relayed| ==> relayed[i] in relayed;
          relayed := relayed + [n];
        }
        assert forall k: nat :: k in relayed <==> k in was || (yes && k == n);
      }
      forall i | 0 <= i < |relayed|
        ensures resumed ==> LoadedBefore(inputs, relayed[i])
        ensures Grounded(inputs, relayed, i)
      {
        assert relayed[i] in relayed;
        if resumed {
          NothingBeforeLoad(inputs, relayed[i]);
        }
        RelayedGrounded(resumed, inputs, relayed, i);
      }
    }
  }

  predicate LoadedBefore(inputs: seq<Input>, k: nat) {
    exists j :: 0 <= j < k && j < |inputs| && inputs[j].Loaded?
  }

  /** If the `i`-th relayed message is a tool update, the creation of that call
      was relayed before it. */
  predicate Grounded(inputs: seq<Input>, relayed: seq<nat>, i: nat)
    requires i < |relayed|
  {
    (relayed[i] < |inputs| && inputs[relayed[i]].Notified? && inputs[relayed[i]].update.ToolCallUpdate?) ==>
      exists h :: 0 <= h < i && IsCreation(inputs, relayed[h], inputs[relayed[i]].update.id)
  }

  predicate IsCreation(inputs: seq<Input>, k: nat, id: string) {
    k < |inputs| && inputs[k].Notified? && inputs[k].update == ToolCall(id)
  }

  lemma RelayedGrounded(resumed: bool, inputs: seq<Input>, relayed: seq<nat>, i: nat)
    requires i < |relayed| && (forall k: nat :: k in relayed <==> Relayable(resumed, inputs, k))
    requires forall i, j :: 0 <= i < j < |relayed| ==> relayed[i] < relayed[j]
    ensures Grounded(inputs, relayed, i)
  {
    assert relayed[i] in relayed;
    if inputs[relayed[i]].update.ToolCallUpdate? {
      UpdateFollowsCreation(resumed, inputs, relayed[i]);
      var j: nat :| j < relayed[i] && Relayable(resumed, inputs, j) && inputs[j].update == ToolCall(inputs[relayed[i]].update.id);
      assert j in relayed;
      var h :| 0 <= h < |relayed| && relayed[h] == j;
      assert h < i;
      assert IsCreation(inputs, relayed[h], inputs[relayed[i]].update.id);
    }
  }

  lemma LiveStep(resumed: bool, inputs: seq<Input>, n: nat)
    requires n < |inputs|
    ensures Live(resumed, inputs, n + 1) == (Live(resumed, inputs, n) || inputs[n].Loaded?)
  {
  }

  lemma CreatedStep(resumed: bool, inputs: seq<Input>, n: nat, before: set<string>, after: set<string>)
    requires n < |inputs|
    requires forall id :: id in before <==> exists j: nat :: j < n && Creates(resumed, inputs, j, id)
    requires forall id :: id in after <==> id in before || Creates(resumed, inputs, n, id)
    ensures forall id :: id in after <==> exists j: nat :: j < n + 1 && Creates(resumed, inputs, j, id)
  {
  }
}
