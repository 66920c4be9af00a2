/** The persistent Codex usage client: request ids, initialization, and which
    failures let a process be reused. */
module UsageClient {
  import opened Text

  const U64_MAX: nat := 0xFFFF_FFFF_FFFF_FFFF
  const METHOD_NOT_FOUND: int := -32601

  datatype Method = Initialize | ReadAccount | ReadRateLimits

  /** What a response carries, as far as the client looks at it. */
  datatype Payload = Payload(account: Account, hasReport: bool)
  datatype Account = SignedOut | ChatGpt | OtherAccount

  /** A JSON message: its id when that is an unsigned number, its error when it
      has one, with a code when that is a number, and its result. */
  datatype Message = Message(id: Option<nat>, error: Option<Option<int>>, result: Option<Payload>)

  /** What the process does next on its output. */
  datatype Incoming = Line(message: Message) | NotJson | FramingFailed | EndOfOutput

  datatype WriteOutcome = Written | WriteFailed | WriteHung

  datatype QueryError = NotInstalled | LaunchFailed | NotSignedIn | UnsupportedAccount | Unsupported | NoData | Protocol

  /** A step of an exchange; `Hung` waits until the request timeout. */
  datatype Step<+T> = Done(value: T) | Failed(error: QueryError) | Hung

  datatype Parsed = Skip | Answer(payload: Payload) | Refused(error: QueryError)

  function ParseResponse(m: Message, expected: nat): Parsed {
    if m.id != Some(expected) then Skip
    else if m.error.Some? then Refused(if m.error.value == Some(METHOD_NOT_FOUND) then Unsupported else Protocol)
    else if m.result.Some? then Answer(m.result.value)
    else Refused(Protocol)
  }

  /** Ids count up from one and stop at the largest unsigned number. */
  function IdOf(k: nat): nat {
    Min(k + 1, U64_MAX)
  }

  class Client {
    /** Everything the process will write, and how each write to it ends. */
    const incoming: seq<Incoming>
    const writes: nat -> WriteOutcome
    var nextId: nat
    var initialized: bool
    var read: nat
    var written: nat
    /** Requests sent on this process, in order. */
    var sent: seq<Method>
    /** Which of them have been answered by an accepted result. */
    ghost var answered: seq<nat>

    constructor (incoming: seq<Incoming>, writes: nat -> WriteOutcome)
      ensures Valid() && fresh(this) && sent == [] && !initialized
    {
      this.incoming, this.writes := incoming, writes;
      nextId, initialized, read, written, sent, answered := 1, false, 0, 0, [], [];
    }

    /** Request `k` has id `k + 1`; results were accepted one request at a time
        and in order; only the first request initializes. */
    ghost predicate Valid()
      reads this
    {
      && nextId == IdOf(|sent|)
      && read <= |incoming|
      && |sent| - 1 <= |answered| <= |sent|
      && (forall k :: 0 <= k < |answered| ==> answered[k] == k)
      && (forall k :: 0 <= k < |sent| ==> (sent[k].Initialize? <==> k == 0))
      && (initialized ==> answered != [])
    }

    /** Initialize is the first request and no other. */
    ghost predicate OneInitialize()
      reads this
    {
      forall k :: 0 <= k < |sent| ==> (sent[k].Initialize? <==> k == 0)
    }

    /** Safe to keep between refreshes: initialized, and no request is
        unanswered. */
    ghost predicate Reusable()
      reads this
    {
      Valid() && initialized && |answered| == |sent|
    }

    method WriteMessage() returns (r: Step<()>)
      modifies this`written
      ensures r.Failed? ==> r.error.Protocol?
    {
      match writes(written)
      case Written => r := Done(());
      case WriteFailed => r := Failed(Protocol);
      case WriteHung => r := Hung;
      written := written + 1;
    }

    method SendRequest(what: Method) returns (r: Step<nat>)
      requires Valid() && |answered| == |sent| && (what.Initialize? <==> sent == [])
      modifies this
      ensures Valid() && sent == old(sent) + [what] && answered == old(answered) && initialized == old(initialized)
      ensures r.Done? ==> r.value == IdOf(|sent| - 1)
      ensures r.Failed? ==> r.error.Protocol?
    {
      var id := nextId;
      nextId := Min(nextId + 1, U64_MAX);
      sent := sent + [what];
      var wrote := WriteMessage();
      match wrote
      case Done(_) => r := Done(id);
      case Failed(e) => r := Failed(e);
      case Hung => r := Hung;
    }

    /** Read until the answer to `expected` comes. A message accepted as the
        answer carries the id of the request just sent, which no earlier request
        on this process had. */
    method ReadResult(expected: nat) returns (r: Step<Payload>)
      requires Valid() && |answered| + 1 == |sent| && expected == IdOf(|sent| - 1)
      modifies this
      ensures Valid() && sent == old(sent) && initialized == old(initialized)
      ensures r.Done? ==> |answered| == |sent|
      ensures !r.Done? ==> answered == old(answered)
      ensures r.Failed? ==> r.error.Protocol? || r.error.Unsupported?
      ensures r.Done? ==> 0 < read && incoming[read-1].Line? && incoming[read-1].message.id == Some(expected)
      // the result handed out is the one in that message, which is no error
      ensures r.Done? ==> incoming[read-1].message.error.None? && incoming[read-1].message.result == Some(r.value)
      ensures r.Failed? ==>
        && old(read) < read
        && (incoming[read-1].Line? ==> incoming[read-1].message.id == Some(expected))
        && (r.error.Unsupported? <==>
              && incoming[read-1].Line? && incoming[read-1].message.id == Some(expected)
              && incoming[read-1].message.error == Some(Some(-32601)))
      // whatever was read before it is a message for another id
      ensures forall k :: old(read) <= k < (if r.Hung? then read else read - 1) ==>
        incoming[k].Line? && incoming[k].message.id != Some(expected)
      ensures r.Hung? ==> read == |incoming|
      ensures r.Done? && |sent| <= U64_MAX ==> forall k :: 0 <= k < |sent| - 1 ==> IdOf(k) != expected
    {
      while read < |incoming|
        invariant Valid() && sent == old(sent) && initialized == old(initialized) && answered == old(answered)
        invariant old(read) <= read && forall k :: old(read) <= k < read ==> incoming[k].Line? && incoming[k].message.id != Some(expected)
        decreases |incoming| - read
      {
        var next := incoming[read];
        read := read + 1;
        if !next.Line? {
          return Failed(Protocol);
        }
        match ParseResponse(next.message, expected)
        case Skip =>
        case Refused(e) =>
          return Failed(e);
        case Answer(payload) =>
          answered := answered + [|answered|];
          return Done(payload);
      }
      return Hung;
    }

    method EnsureInitialized() returns (r: Step<()>)
      requires Valid() && |answered| == |sent| && (initialized || sent == [])
      modifies this
      ensures Valid()
      ensures r.Done? ==> Reusable()
      ensures r.Done? && old(initialized) ==> sent == old(sent)
      ensures r.Failed? ==> r.error.Protocol? || r.error.Unsupported?
    {
      if initialized {
        return Done(());
      }
      var id := SendRequest(Initialize);
      if !id.Done? {
        return if id.Hung? then Hung else Failed(id.error);
      }
      var result := ReadResult(id.value);
      if !result.Done? {
        return if result.Hung? then Hung else Failed(result.error);
      }
      r := WriteMessage();
      if r.Done? {
        initialized := true;
      } else if r.Failed? {
        r := Failed(Protocol);
      }
    }

    method Query() returns (r: Step<()>)
      requires Reusable()
      modifies this
      ensures Valid()
      ensures r.Done? ==> Reusable()
      ensures r.Failed? && Retained(r.error) ==> Reusable()
      ensures old(sent) < sent && |sent| <= |old(sent)| + 2
    {
      var id := SendRequest(ReadAccount);
      if !id.Done? {
        return if id.Hung? then Hung else Failed(id.error);
      }
      var account := ReadResult(id.value);
      if !account.Done? {
        return if account.Hung? then Hung else Failed(account.error);
      }
      match account.value.account
      case SignedOut => return Failed(NotSignedIn);
      case OtherAccount => return Failed(UnsupportedAccount);
      case ChatGpt =>
      id := SendRequest(ReadRateLimits);
      if !id.Done? {
        return if id.Hung? then Hung else Failed(id.error);
      }
      var limits := ReadResult(id.value);
      if !limits.Done? {
        return if limits.Hung? then Hung else Failed(limits.error);
      }
      return if limits.value.hasReport then Done(()) else Failed(NoData);
    }
  }

  /** Failures after which `refresh` keeps the process. */
  predicate Retained(e: QueryError) {
    !e.Protocol? && !e.Unsupported?
  }

  /** What a spawn meets: no program, a failed launch, or a process. */
  datatype Spawn = Missing | Refuses | Process(incoming: seq<Incoming>, writes: nat -> WriteOutcome)

  /** One refresh; `used` is the process it talked to, kept or not. */
  method Refresh(client: Client?, spawn: Spawn) returns (client': Client?, r: Step<()>, ghost used: Client?)
    requires client != null ==> client.Reusable()
    modifies client
    ensures client' != null ==> client'.Reusable() && client' == used
    ensures client != null ==> used == client
    ensures used != null ==> used.Valid() && (used == client || fresh(used))
    // a kept process is not initialized again, and gets one or two new requests
    ensures client != null && client' == client ==>
              old(client.sent) < client.sent && |client.sent| <= |old(client.sent)| + 2
    ensures r.Done? ==> client' != null
    ensures r.Hung? ==> client' == null
    ensures r.Failed? && !Retained(r.error) ==> client' == null
  {
    client', used := client, client;
    if client' == null {
      match spawn
      case Missing =>
        r := Failed(NotInstalled);
        return;
      case Refuses =>
        r := Failed(LaunchFailed);
        return;
      case Process(incoming, writes) =>
        client' := new Client(incoming, writes);
        used := client';
    }
    r := client'.EnsureInitialized();
    if r.Done? {
      r := client'.Query();
    }
    if r.Hung? || (r.Failed? && !Retained(r.error)) {
      client' := null;
    }
  }

  /** Any number of refreshes: between any two of them a kept process is
      initialized and owes no answer, and every process ever used, kept or
      dropped, got one initialize, before anything else. */
  method Refreshes(spawns: seq<Spawn>) returns (client: Client?, ghost used: seq<Client>)
    ensures client != null ==> client.Reusable() && client in used
    ensures forall i :: 0 <= i < |used| ==> fresh(used[i]) && used[i].OneInitialize()
  {
    client, used := null, [];
    for n := 0 to |spawns|
      invariant client != null ==> client.Reusable() && client in used
      invariant forall p :: p in used ==> fresh(p) && p.Valid()
    {
      var r;
      ghost var process;
      client, r, process := Refresh(client, spawns[n]);
      if process != null {
        used := used + [process];
      }
    }
    assert forall i :: 0 <= i < |used| ==> used[i] in used;
  }

  /** Exactly the requests past the largest id reuse an earlier id. */
  lemma IdReusedIff(k: nat)
    ensures (exists j: nat :: j < k && IdOf(j) == IdOf(k)) <==> k >= U64_MAX
  {
    if k >= U64_MAX {
      assert IdOf(U64_MAX - 1) == IdOf(k);
    }
  }
}
