/** The command loop of one ACP session: prompts, cancels, steering,
    compaction and close, with every answer accounted for. */
module AcpSession {
  import opened Text

  /** What an answer is addressed to: a request id, or the one-shot channel of
      a command that has none. */
  datatype Id = Request(name: string) | Channel(number: nat)

  datatype Command =
    | Prompt(id: Id, hasContent: bool)
    | SetConfig(id: Id, modelChange: bool)
    | SetSessionMode(id: Id)
    | Compact(id: Id)
    | ResolveElicitation(id: Id)
    | Cancel(id: Id, steering: Option<string>)
    | Close(id: Id)

  datatype SteerOutcome = Injected | StartedNewTurn | OtherOutcome

  /** Something the loop wakes up for, with whatever the agent and the
      connection do about it. `notified` is whether a cancel notification could
      be sent, `accepted` whether the agent took the request, `lost` whether its
      answer to a model change was lost. */
  datatype Stimulus =
    | Received(command: Option<Command>, notified: bool, accepted: bool, lost: bool)
    | PromptSettled(failed: bool, silent: bool, steerReply: Option<SteerOutcome>, notified: bool)
    | DeadlineElapsed
    | SteerSettled(outcome: SteerOutcome, notified: bool)
    | CompactionSettled

  /** What the loop sends: answers to commands, and the other messages whose
      order matters. `TurnStarted` is the prompt request itself. */
  datatype Effect =
    | PromptFinished(id: Id)
    | ConfigApplied(id: Id)
    | SessionModeApplied(id: Id)
    | CommandRejected(id: Id)
    | CommandInterrupted(id: Id)
    | CancelApplied(id: Id)
    | SteerApplied(id: Id, queued: string)
    | CloseApplied(id: Id)
    | Replied(id: Id)
    | Warning
    | TurnStarted
    | CancelNotified(sent: bool)
    | SteerStarted

  predicate IsAnswer(e: Effect) {
    !e.Warning? && !e.TurnStarted? && !e.CancelNotified? && !e.SteerStarted?
  }

  function AnswerTo(e: Effect): multiset<Id> {
    if IsAnswer(e) then multiset{e.id} else multiset{}
  }

  /** Every answer given, with repetitions; whether a cancel went to the agent
      since the current turn started; and whether every steer so far was started
      in a turn with no cancel before it. */
  datatype Book = Book(answers: multiset<Id>, cancelSent: bool, steersOrderly: bool)

  function Entered(b: Book, e: Effect): Book {
    Book(b.answers + AnswerTo(e),
         e.CancelNotified? || (b.cancelSent && !e.TurnStarted?),
         b.steersOrderly && (e.SteerStarted? ==> !b.cancelSent))
  }

  function Books(trace: seq<Effect>): Book {
    if trace == [] then Book(multiset{}, false, true) else Entered(Books(trace[..|trace|-1]), trace[|trace|-1])
  }

  lemma BooksSnoc(trace: seq<Effect>, e: Effect)
    ensures Books(trace + [e]) == Entered(Books(trace), e)
  {
    assert (trace + [e])[..|trace|] == trace;
  }

  /** A steer waiting for the agent: the cancel command that asked for it and
      the queued prompt it carries. */
  datatype Steer = Steer(id: Id, queued: string)

  function SteerId(s: Option<Steer>): Option<Id> {
    match s
    case None => None
    case Some(x) => Some(x.id)
  }

  /** What is not answered yet: the running prompt or compaction, a pending
      steer, and the command just taken. */
  datatype Owed = Owed(running: Option<Id>, steer: Option<Id>, current: Option<Id>)

  const NOTHING := Owed(None, None, None)

  datatype Role = Running | Steering | Current

  function One(id: Option<Id>): multiset<Id> {
    match id
    case None => multiset{}
    case Some(x) => multiset{x}
  }

  function Ids(o: Owed): multiset<Id> {
    One(o.running) + One(o.steer) + One(o.current)
  }

  function Holder(o: Owed, role: Role): Option<Id> {
    match role
    case Running => o.running
    case Steering => o.steer
    case Current => o.current
  }

  function Without(o: Owed, role: Role): Owed {
    match role
    case Running => o.(running := None)
    case Steering => o.(steer := None)
    case Current => o.(current := None)
  }

  lemma SettleOne(o: Owed, role: Role)
    ensures Ids(o) == Ids(Without(o, role)) + One(Holder(o, role))
  {
  }

  /** Where the loop stopped or waits. */
  datatype Rest =
    | Idle
    | InTurn(prompt: Id, steer: Option<Id>)
    | InCompaction(compaction: Id)
    | Restarting(abandonedSteer: Option<Id>)
    | Closed(abandonedSteer: Option<Id>)
    | Broken(unanswered: Owed)

  /** What is unanswered there. */
  function Outstanding(r: Rest): Owed {
    match r
    case Idle => NOTHING
    case InTurn(p, s) => Owed(Some(p), s, None)
    case InCompaction(c) => Owed(Some(c), None, None)
    case Restarting(s) => Owed(None, s, None)
    case Closed(s) => Owed(None, s, None)
    case Broken(o) => o
  }

  /** Ids of the commands among the first `n` stimuli after `first`. */
  function Taken(script: seq<Stimulus>, first: nat, n: nat): seq<Id>
    requires first <= n <= |script|
    decreases n
  {
    if n == first then []
    else Taken(script, first, n - 1) + CommandId(script[n-1])
  }

  function CommandId(s: Stimulus): seq<Id> {
    if s.Received? && s.command.Some? then [s.command.value.id] else []
  }

  /** `id` is a cancel among the first `n` stimuli that carried a steering
      prompt. */
  predicate AskedToSteer(script: seq<Stimulus>, n: nat, id: Option<Id>) {
    id.Some? ==> exists k :: 0 <= k < n && k < |script| && IsSteeringCancel(script[k], id.value)
  }

  /** What else than a cut-off channel ends a session in the middle: the answer
      to a model change is lost, or the command channel ends and the running
      work cannot be cancelled. */
  predicate Breaks(s: Stimulus) {
    && s.Received?
    && match s.command
       case None => !s.notified
       case Some(c) => c.SetConfig? && c.modelChange && !s.accepted && s.lost
  }

  predicate IsSteeringCancel(s: Stimulus, id: Id) {
    s.Received? && s.command.Some? && s.command.value.Cancel? && s.command.value.id == id && s.command.value.steering.Some?
  }

  lemma TakenNone(script: seq<Stimulus>, first: nat)
    requires first <= |script|
    ensures Taken(script, first, first) == []
  {
  }

  lemma TakenStep(script: seq<Stimulus>, first: nat, n: nat)
    requires first <= n < |script|
    ensures Taken(script, first, n + 1) == Taken(script, first, n) + CommandId(script[n])
  {
  }

  lemma NotAsked(script: seq<Stimulus>)
    ensures forall n: nat :: AskedToSteer(script, n, None)
  {
  }

  lemma Asked(script: seq<Stimulus>, k: nat, id: Id)
    requires k < |script| && IsSteeringCancel(script[k], id)
    ensures AskedToSteer(script, k + 1, Some(id))
  {
  }

  lemma AskedBefore(script: seq<Stimulus>, n: nat, id: Option<Id>)
    requires AskedToSteer(script, n, id)
    ensures AskedToSteer(script, n + 1, id)
  {
    hide IsSteeringCancel;
  }

  // ----- Which answer each command gets -----

  datatype Setup = Setup(steering: bool, restart: bool)

  /** What the session is doing between two stimuli. */
  datatype Phase =
    | Waiting
    | Turning(prompt: Id, steer: Option<Steer>, cancelled: bool)
    | Compacting(compaction: Id)
    | Over(restarting: bool, unsettled: Option<Id>)

  predicate Closes(s: Stimulus) {
    s.Received? && (s.command.None? || s.command.value.Close?)
  }

  /** A cancel that is tried as a steer first. */
  predicate StartsSteer(u: Setup, p: Phase, c: Command) {
    u.steering && p.Turning? && p.steer.None? && !p.cancelled && c.Cancel? && c.steering.Some?
  }

  function After(u: Setup, p: Phase, s: Stimulus): Phase {
    match p
    case Over(_, _) => p
    case Waiting =>
      if !s.Received? then p
      else if Closes(s) || Breaks(s) then Over(false, None)
      else if s.command.value.Prompt? && s.command.value.hasContent then Turning(s.command.value.id, None, false)
      else if s.command.value.Compact? then Compacting(s.command.value.id)
      else p
    case Compacting(_) =>
      if s.CompactionSettled? then Waiting else if Closes(s) then Over(false, None) else p
    case Turning(prompt, steer, cancelled) =>
      match s
      case PromptSettled(_, _, _, _) => if cancelled && u.restart then Over(true, None) else Waiting
      case DeadlineElapsed => if cancelled then Over(true, SteerId(steer)) else p
      case SteerSettled(outcome, _) =>
        if steer.None? then p else Turning(prompt, None, cancelled || !outcome.Injected?)
      case CompactionSettled => p
      case Received(command, _, _, _) =>
        if Closes(s) then Over(false, SteerId(steer))
        else if StartsSteer(u, p, command.value) then Turning(prompt, Some(Steer(command.value.id, command.value.steering.value)), false)
        else if command.value.Cancel? then Turning(prompt, steer, true)
        else p
  }

  /** The phase a script leads to. */
  function PhaseAt(u: Setup, script: seq<Stimulus>, n: nat): Phase
    requires n <= |script|
  {
    if n == 0 then Waiting else After(u, PhaseAt(u, script, n - 1), script[n-1])
  }

  predicate Asks(s: Stimulus, c: Command) {
    s.Received? && s.command == Some(c)
  }

  predicate Cancels(s: Stimulus, id: Id) {
    s.Received? && s.command.Some? && s.command.value.Cancel? && s.command.value.id == id
  }

  predicate Configures(s: Stimulus, id: Id) {
    s.Received? && s.command.Some? && s.command.value.SetConfig? && s.command.value.id == id
  }

  predicate Prompts(s: Stimulus, id: Id) {
    s.Received? && s.command.Some? && s.command.value.Prompt? && s.command.value.id == id
  }

  /** The agent took up the text of a pending steer, or did not and the cancel
      was delivered or not after all. When the turn is over and no new one was
      started there is nothing to cancel any more. */
  predicate SteerTaken(s: Stimulus) {
    || (s.SteerSettled? && s.outcome.Injected?)
    || (s.PromptSettled? && s.steerReply == Some(Injected))
  }

  predicate SteerCancelled(s: Stimulus, delivered: bool) {
    || (s.SteerSettled? && !s.outcome.Injected? && s.notified == delivered)
    || (s.PromptSettled? && s.steerReply == Some(StartedNewTurn) && s.notified == delivered)
    || (s.PromptSettled? && (s.steerReply.None? || s.steerReply == Some(OtherOutcome)) && delivered)
  }

  /** The cancel `id` was delivered or not, at once or after a steer. */
  predicate CancelEnds(u: Setup, p: Phase, s: Stimulus, id: Id, delivered: bool) {
    || (!p.Over? && Cancels(s, id) && !StartsSteer(u, p, s.command.value) && s.notified == delivered)
    || (p.Turning? && SteerId(p.steer) == Some(id) && SteerCancelled(s, delivered))
  }

  predicate Busy(p: Phase) {
    p.Turning? || p.Compacting?
  }

  /** The answer `e` is due when `s` meets a session in phase `p`. */
  predicate Earned(u: Setup, p: Phase, s: Stimulus, e: Effect) {
    match e
    case PromptFinished(id) => p.Turning? && p.prompt == id && s.PromptSettled?
    case CommandInterrupted(id) => p.Turning? && p.prompt == id && (Closes(s) || (s.DeadlineElapsed? && p.cancelled))
    case ConfigApplied(id) => p.Waiting? && Configures(s, id) && s.accepted
    case SessionModeApplied(id) => p.Waiting? && Asks(s, SetSessionMode(id)) && s.accepted
    case CloseApplied(id) => !p.Over? && Asks(s, Close(id)) && s.accepted
    case CancelApplied(id) => CancelEnds(u, p, s, id, true)
    case SteerApplied(id, queued) => p.Turning? && p.steer == Some(Steer(id, queued)) && SteerTaken(s)
    case CommandRejected(id) =>
      || CancelEnds(u, p, s, id, false)
      || (Busy(p) && (Prompts(s, id) || Configures(s, id) || Asks(s, SetSessionMode(id))))
      || (p.Waiting? && Asks(s, Prompt(id, false)))
      || (p.Waiting? && Configures(s, id) && !s.accepted && !Breaks(s))
      || (p.Waiting? && Asks(s, SetSessionMode(id)) && !s.accepted)
      || (!p.Over? && Asks(s, Close(id)) && !s.accepted)
    case Replied(id) =>
      || (p.Compacting? && p.compaction == id && (s.CompactionSettled? || Closes(s)))
      || (Busy(p) && Asks(s, Compact(id)))
      || (!p.Over? && Asks(s, ResolveElicitation(id)))
    case _ => false
  }

  // ----- Everything sent, stimulus by stimulus -----

  function CancelEffects(id: Id, notified: bool): seq<Effect> {
    [CancelNotified(notified), if notified then CancelApplied(id) else CommandRejected(id)]
  }

  function SteerEffects(steer: Steer, outcome: SteerOutcome, notified: bool, turnRunning: bool): seq<Effect> {
    if outcome.Injected? then [SteerApplied(steer.id, steer.queued)]
    else if turnRunning || outcome.StartedNewTurn? then CancelEffects(steer.id, notified)
    else [CancelApplied(steer.id)]
  }

  function LateSteerEffects(steer: Option<Steer>, s: Stimulus): seq<Effect>
    requires s.PromptSettled?
  {
    if steer.None? then []
    else if s.steerReply.None? then [CancelApplied(steer.value.id)]
    else SteerEffects(steer.value, s.steerReply.value, s.notified, false)
  }

  function FinishEffects(prompt: Id, steer: Option<Steer>, s: Stimulus): seq<Effect>
    requires s.PromptSettled?
  {
    LateSteerEffects(steer, s) + (if s.failed || s.silent then [Warning] else []) + [PromptFinished(prompt)]
  }

  function CloseEffects(close: Option<Id>, accepted: bool): seq<Effect> {
    if close.None? then [] else [if accepted then CloseApplied(close.value) else CommandRejected(close.value)]
  }

  function InterruptEffects(prompt: Id, warned: bool, notified: bool): seq<Effect> {
    if warned then [CancelNotified(notified), Warning, CommandInterrupted(prompt)]
    else [CancelNotified(notified), CommandInterrupted(prompt)]
  }

  function CloseTurnEffects(prompt: Id, close: Option<Id>, notified: bool, accepted: bool): seq<Effect> {
    InterruptEffects(prompt, close.Some? && !notified, notified) + CloseEffects(close, accepted)
  }

  function LeaveEffects(compaction: Id, closing: bool, notified: bool): seq<Effect> {
    if !closing then [Replied(compaction), CancelNotified(notified)]
    else if notified then [Replied(compaction), CancelNotified(notified), Warning]
    else [Replied(compaction), CancelNotified(notified), Warning, Warning]
  }

  function CloseCompactionEffects(compaction: Id, close: Option<Id>, notified: bool, accepted: bool): seq<Effect> {
    LeaveEffects(compaction, close.Some?, notified) + CloseEffects(close, accepted)
  }

  function BusyEffects(c: Command, notified: bool): seq<Effect> {
    match c
    case Cancel(id, _) => CancelEffects(id, notified)
    case Compact(id) => [Replied(id)]
    case ResolveElicitation(id) => [Replied(id)]
    case Close(_) => []
    case _ => [CommandRejected(c.id)]
  }

  function IdleEffects(s: Stimulus): seq<Effect>
    requires s.Received? && s.command.Some?
  {
    match s.command.value
    case Prompt(id, content) => if content then [TurnStarted] else [CommandRejected(id)]
    case SetConfig(id, _) => if Breaks(s) then [] else if s.accepted then [ConfigApplied(id)] else [CommandRejected(id)]
    case SetSessionMode(id) => if s.accepted then [SessionModeApplied(id)] else [CommandRejected(id)]
    case Compact(_) => []
    case ResolveElicitation(id) => [Replied(id)]
    case Cancel(id, _) => CancelEffects(id, s.notified)
    case Close(id) => CloseEffects(Some(id), s.accepted)
  }

  function CloseId(s: Stimulus): Option<Id>
    requires Closes(s)
  {
    if s.command.None? then None else Some(s.command.value.id)
  }

  function Effects(u: Setup, p: Phase, s: Stimulus): seq<Effect> {
    match p
    case Over(_, _) => []
    case Waiting => if s.Received? && s.command.Some? then IdleEffects(s) else []
    case Compacting(id) =>
      if s.CompactionSettled? then [Replied(id)]
      else if Closes(s) then CloseCompactionEffects(id, CloseId(s), s.notified, s.accepted)
      else if s.Received? then BusyEffects(s.command.value, s.notified)
      else []
    case Turning(prompt, steer, cancelled) =>
      match s
      case PromptSettled(_, _, _, _) => FinishEffects(prompt, steer, s)
      case DeadlineElapsed => if cancelled then [Warning, CommandInterrupted(prompt)] else []
      case SteerSettled(outcome, notified) =>
        if steer.None? then [] else SteerEffects(steer.value, outcome, notified, true)
      case CompactionSettled => []
      case Received(command, notified, accepted, _) =>
        if Closes(s) then CloseTurnEffects(prompt, CloseId(s), notified, accepted)
        else if StartsSteer(u, p, command.value) then [SteerStarted]
        else BusyEffects(command.value, notified)
  }

  /** Everything the first `n` stimuli make the session send. */
  function Sent(u: Setup, script: seq<Stimulus>, n: nat): seq<Effect>
    requires n <= |script|
  {
    if n == 0 then [] else Sent(u, script, n - 1) + Effects(u, PhaseAt(u, script, n - 1), script[n-1])
  }

  /** `planned` was sent, or only a beginning of it. */
  predicate Advances(before: seq<Effect>, after: seq<Effect>, planned: seq<Effect>, all: bool) {
    before <= after <= before + planned && (all ==> after == before + planned)
  }

  lemma AdvancesTwice(a: seq<Effect>, b: seq<Effect>, c: seq<Effect>, first: seq<Effect>, second: seq<Effect>, all: bool)
    requires Advances(a, b, first, true) && Advances(b, c, second, all)
    ensures Advances(a, c, first + second, all)
  {
    Assoc(a, first, second);
  }

  lemma AdvancesBy(before: seq<Effect>, after: seq<Effect>, planned: seq<Effect>, n: nat)
    requires n <= |planned| && after == before + planned[..n]
    ensures Advances(before, after, planned, n == |planned|)
  {
    assert planned == planned[..n] + planned[n..];
    Assoc(before, planned[..n], planned[n..]);
  }

  /** When the command channel ended there is no close to answer. */
  lemma NothingElse(a: seq<Effect>, b: seq<Effect>, first: seq<Effect>, accepted: bool, all: bool)
    requires Advances(a, b, first, true)
    ensures Advances(a, b, first + CloseEffects(None, accepted), all)
  {
    assert first + [] == first;
  }

  lemma AdvancesShort(a: seq<Effect>, b: seq<Effect>, first: seq<Effect>, second: seq<Effect>)
    requires Advances(a, b, first, false)
    ensures Advances(a, b, first + second, false)
  {
    Assoc(a, first, second);
  }

  lemma ScriptStep(u: Setup, script: seq<Stimulus>, n: nat)
    requires n < |script|
    ensures PhaseAt(u, script, n + 1) == After(u, PhaseAt(u, script, n), script[n])
    ensures Sent(u, script, n + 1) == Sent(u, script, n) + Effects(u, PhaseAt(u, script, n), script[n])
  {
  }

  predicate RestFits(rest: Rest, p: Phase) {
    match rest
    case Idle => p.Waiting?
    case InTurn(prompt, steer) => p.Turning? && p.prompt == prompt && SteerId(p.steer) == steer
    case InCompaction(compaction) => p == Compacting(compaction)
    case Restarting(steer) => p == Over(true, steer)
    case Closed(steer) => p == Over(false, steer)
    case Broken(_) => true
  }

  /** Since `base`, exactly what the first `next` stimuli call for was sent, and
      the session is where they lead; or it broke, and all but some of what the
      last of them calls for was sent. */
  ghost predicate Traced(u: Setup, base: seq<Effect>, trace: seq<Effect>, script: seq<Stimulus>, next: nat, rest: Rest)
    requires next <= |script|
  {
    if rest.Broken? then
      && next > 0
      && Advances(base + Sent(u, script, next - 1), trace, Effects(u, PhaseAt(u, script, next - 1), script[next-1]), false)
    else
      trace == base + Sent(u, script, next) && RestFits(rest, PhaseAt(u, script, next))
  }

  lemma TracedHere(u: Setup, base: seq<Effect>, trace: seq<Effect>, script: seq<Stimulus>, next: nat, rest: Rest)
    requires next <= |script| && !rest.Broken? && trace == base + Sent(u, script, next) && RestFits(rest, PhaseAt(u, script, next))
    ensures Traced(u, base, trace, script, next, rest)
  {
  }

  lemma TracedStep(u: Setup, base: seq<Effect>, before: seq<Effect>, trace: seq<Effect>, script: seq<Stimulus>, n: nat, rest: Rest)
    requires n < |script| && before == base + Sent(u, script, n)
    requires Advances(before, trace, Effects(u, PhaseAt(u, script, n), script[n]), !rest.Broken?)
    requires RestFits(rest, After(u, PhaseAt(u, script, n), script[n]))
    ensures Traced(u, base, trace, script, n + 1, rest)
    ensures !rest.Broken? ==> trace == base + Sent(u, script, n + 1)
  {
    hide Effects, After, RestFits;
    ScriptStep(u, script, n);
    Assoc(base, Sent(u, script, n), Effects(u, PhaseAt(u, script, n), script[n]));
  }

  /** The answers sent are exactly the earned ones. */
  lemma EarnedIff(u: Setup, p: Phase, s: Stimulus, e: Effect)
    requires IsAnswer(e)
    ensures e in Effects(u, p, s) <==> Earned(u, p, s, e)
  {
    match p
    case Over(_, _) =>
    case Waiting => EarnedIdle(u, s, e);
    case Compacting(_) => EarnedCompacting(u, p, s, e);
    case Turning(_, _, _) => EarnedTurning(u, p, s, e);
  }

  lemma EarnedIdle(u: Setup, s: Stimulus, e: Effect)
    requires IsAnswer(e)
    ensures e in Effects(u, Waiting, s) <==> Earned(u, Waiting, s, e)
  {
  }

  lemma EarnedCompacting(u: Setup, p: Phase, s: Stimulus, e: Effect)
    requires IsAnswer(e) && p.Compacting?
    ensures e in Effects(u, p, s) <==> Earned(u, p, s, e)
  {
  }

  lemma EarnedTurning(u: Setup, p: Phase, s: Stimulus, e: Effect)
    requires IsAnswer(e) && p.Turning?
    ensures e in Effects(u, p, s) <==> Earned(u, p, s, e)
  {
    if s.PromptSettled? {
      EarnedFinishing(u, p, s, e);
    }
  }

  lemma EarnedFinishing(u: Setup, p: Phase, s: Stimulus, e: Effect)
    requires IsAnswer(e) && p.Turning? && s.PromptSettled?
    ensures e in FinishEffects(p.prompt, p.steer, s) <==> Earned(u, p, s, e)
  {
  }

  class Session {
    const steeringSupported: bool
    const restartAfterCancel: bool
    /** Everything sent to the coordinator, to one-shot channels and, for turns,
        cancels and steers, to the agent. */
    var trace: seq<Effect>
    /** Ids of the commands taken from the channel, in order. */
    var received: seq<Id>
    /** How many more events reach the coordinator before this bridge is cut
        off: its channel closes, or the process is killed mid-step. */
    var capacity: nat
    /** Commands that earlier bridges of this runtime took and never answered. */
    ghost var abandoned: multiset<Id>

    constructor (steeringSupported: bool, restartAfterCancel: bool, capacity: nat)
      ensures this.steeringSupported == steeringSupported && this.restartAfterCancel == restartAfterCancel
      ensures trace == [] && received == [] && this.capacity == capacity && abandoned == multiset{} && Balanced(NOTHING)
    {
      this.steeringSupported, this.restartAfterCancel := steeringSupported, restartAfterCancel;
      trace, received, this.capacity, abandoned := [], [], capacity, multiset{};
    }

    function Options(): Setup {
      Setup(steeringSupported, restartAfterCancel)
    }

    /** Received is answered, abandoned by an earlier bridge, or owed; and steers
        are orderly. */
    ghost predicate Balanced(o: Owed)
      reads this
    {
      && multiset(received) == Books(trace).answers + abandoned + Ids(o)
      && Books(trace).steersOrderly
    }

    method Record(e: Effect)
      modifies this`trace
      ensures trace == old(trace) + [e]
      ensures Books(trace) == Entered(Books(old(trace)), e)
    {
      BooksSnoc(trace, e);
      trace := trace + [e];
    }

    method Emit(e: Effect) returns (ok: bool)
      modifies this`trace, this`capacity
      ensures Books(trace) == if ok then Entered(Books(old(trace)), e) else Books(old(trace))
      ensures trace == if ok then old(trace) + [e] else old(trace)
      ensures !ok ==> capacity == 0
    {
      hide Books, Entered;
      ok := capacity > 0;
      if ok {
        capacity := capacity - 1;
        Record(e);
      }
    }

    /** Take a command off the channel. */
    method Take(id: Id, ghost o: Owed)
      requires Balanced(o) && o.current.None?
      modifies this`received
      ensures received == old(received) + [id]
      ensures Balanced(o.(current := Some(id)))
    {
      hide Books, Ids;
      SettleOne(o.(current := Some(id)), Current);
      assert Without(o.(current := Some(id)), Current) == o;
      received := received + [id];
    }

    /** Emit an answer to the command holding `role`. */
    method Answer(e: Effect, ghost o: Owed, ghost role: Role) returns (ok: bool)
      requires IsAnswer(e) && Holder(o, role) == Some(e.id) && Balanced(o)
      modifies this`trace, this`capacity
      ensures Balanced(if ok then Without(o, role) else o) && (!ok ==> capacity == 0)
      ensures Books(trace).cancelSent == Books(old(trace)).cancelSent
      ensures trace == if ok then old(trace) + [e] else old(trace)
    {
      hide Books, Ids;
      SettleOne(o, role);
      ok := Emit(e);
    }

    method Warn(ghost o: Owed) returns (ok: bool)
      requires Balanced(o)
      modifies this`trace, this`capacity
      ensures Balanced(o) && Books(trace).cancelSent == Books(old(trace)).cancelSent && (!ok ==> capacity == 0)
      ensures trace == if ok then old(trace) + [Warning] else old(trace)
    {
      hide Books, Ids;
      ok := Emit(Warning);
    }

    /** Send on a one-shot channel; a receiver already gone is not an error. */
    method Reply(id: Id, ghost o: Owed, ghost role: Role)
      requires Holder(o, role) == Some(id) && Balanced(o)
      modifies this`trace
      ensures Balanced(Without(o, role)) && Books(trace).cancelSent == Books(old(trace)).cancelSent
      ensures trace == old(trace) + [Replied(id)]
    {
      hide Books, Ids;
      SettleOne(o, role);
      Record(Replied(id));
    }

    method BeginTurn(ghost o: Owed)
      requires Balanced(o)
      modifies this`trace
      ensures Balanced(o) && !Books(trace).cancelSent && trace == old(trace) + [TurnStarted]
    {
      hide Books, Ids;
      Record(TurnStarted);
    }

    method NotifyCancel(notified: bool, ghost o: Owed)
      requires Balanced(o)
      modifies this`trace
      ensures Balanced(o) && Books(trace).cancelSent && trace == old(trace) + [CancelNotified(notified)]
    {
      hide Books, Ids;
      Record(CancelNotified(notified));
    }

    /** Steering a turn that was already cancelled is a precondition error. */
    method StartSteer(ghost prompt: Id, ghost id: Id)
      requires Balanced(Owed(Some(prompt), None, Some(id))) && !Books(trace).cancelSent
      modifies this`trace
      ensures Balanced(Owed(Some(prompt), Some(id), None)) && !Books(trace).cancelSent
      ensures trace == old(trace) + [SteerStarted]
    {
      hide Books;
      assert Ids(Owed(Some(prompt), Some(id), None)) == Ids(Owed(Some(prompt), None, Some(id)));
      Record(SteerStarted);
    }

    method ApplyCancel(id: Id, notified: bool, ghost o: Owed, ghost role: Role) returns (ok: bool)
      requires Holder(o, role) == Some(id) && Balanced(o)
      modifies this`trace, this`capacity
      ensures Balanced(if ok then Without(o, role) else o) && (!ok ==> capacity == 0)
      ensures Books(trace).cancelSent
      ensures Advances(old(trace), trace, CancelEffects(id, notified), ok)
    {
      hide Books, Ids;
      NotifyCancel(notified, o);
      ok := Answer(if notified then CancelApplied(id) else CommandRejected(id), o, role);
    }

    /** Finish a steer; `cancelled` says it fell back to a cancel. */
    method SettleSteer(id: Id, queued: string, outcome: SteerOutcome, notified: bool, turnRunning: bool, ghost o: Owed)
      returns (ok: bool, cancelled: bool)
      requires o.steer == Some(id) && Balanced(o)
      modifies this`trace, this`capacity
      ensures Balanced(if ok then o.(steer := None) else o) && (!ok ==> capacity == 0)
      ensures Books(trace).cancelSent == (cancelled || Books(old(trace)).cancelSent)
      ensures cancelled <==> !outcome.Injected? && (turnRunning || outcome.StartedNewTurn?)
      ensures Advances(old(trace), trace, SteerEffects(Steer(id, queued), outcome, notified, turnRunning), ok)
    {
      hide Books, Ids;
      cancelled := false;
      if outcome.Injected? {
        ok := Answer(SteerApplied(id, queued), o, Steering);
      } else if turnRunning || outcome.StartedNewTurn? {
        ok := ApplyCancel(id, notified, o, Steering);
        cancelled := true;
      } else {
        ok := Answer(CancelApplied(id), o, Steering);
      }
    }

    // ----- A turn -----

    /** A steer still pending when the prompt's response arrives. */
    method LateSteer(steer: Option<Steer>, settled: Stimulus, ghost o: Owed) returns (ok: bool)
      requires settled.PromptSettled? && o.steer == SteerId(steer) && Balanced(o)
      modifies this`trace, this`capacity
      ensures Balanced(if ok then o.(steer := None) else o) && (!ok ==> capacity == 0)
      ensures Books(old(trace)).cancelSent ==> Books(trace).cancelSent
      ensures Advances(old(trace), trace, LateSteerEffects(steer, settled), ok)
    {
      hide Books, Balanced, SteerEffects;
      ok := true;
      if steer.None? {
        assert o.(steer := None) == o;
        assert trace + [] == trace;
      } else if settled.steerReply.Some? {
        var detached;
        ok, detached := SettleSteer(steer.value.id, steer.value.queued, settled.steerReply.value, settled.notified, false, o);
      } else {
        ok := Answer(CancelApplied(steer.value.id), o, Steering);
      }
    }

    /** The prompt's response arrived: settle a pending steer, then report. */
    method FinishTurn(prompt: Id, steer: Option<Steer>, armed: bool, settled: Stimulus) returns (rest: Rest)
      requires settled.PromptSettled?
      requires Balanced(Owed(Some(prompt), SteerId(steer), None))
      requires armed ==> Books(trace).cancelSent
      modifies this`trace, this`capacity
      ensures Balanced(Outstanding(rest))
      ensures if rest.Broken? then capacity == 0 else rest == if armed && restartAfterCancel then Restarting(None) else Idle
      ensures rest.Restarting? ==> Books(trace).cancelSent
      ensures Advances(old(trace), trace, FinishEffects(prompt, steer, settled), !rest.Broken?)
    {
      hide Books, Balanced, SteerEffects, LateSteerEffects, Advances;
      ghost var o := Owed(Some(prompt), SteerId(steer), None);
      var ok := LateSteer(steer, settled, o);
      ghost var late, begun := LateSteerEffects(steer, settled), trace;
      ghost var report := (if settled.failed || settled.silent then [Warning] else []) + [PromptFinished(prompt)];
      assert FinishEffects(prompt, steer, settled) == late + report;
      if !ok {
        AdvancesShort(old(trace), trace, late, report);
        rest := Broken(Owed(Some(prompt), SteerId(steer), None));
        return;
      }
      o := Owed(Some(prompt), None, None);
      if settled.failed || settled.silent {
        ok := Warn(o);
        if !ok {
          AdvancesBy(begun, trace, report, 0);
          AdvancesTwice(old(trace), begun, trace, late, report, false);
          rest := Broken(Owed(Some(prompt), None, None));
          return;
        }
      }
      ok := Answer(PromptFinished(prompt), o, Running);
      AdvancesBy(begun, trace, report, if ok then |report| else |report| - 1);
      AdvancesTwice(old(trace), begun, trace, late, report, ok);
      if !ok {
        rest := Broken(Owed(Some(prompt), None, None));
      } else if armed && restartAfterCancel {
        rest := Restarting(None);
      } else {
        rest := Idle;
      }
    }

    /** The agent never acknowledged a cancel: give the turn up. */
    method GiveUpTurn(prompt: Id, steer: Option<Id>) returns (rest: Rest)
      requires Balanced(Owed(Some(prompt), steer, None))
      modifies this`trace, this`capacity
      ensures Balanced(Outstanding(rest)) && Books(trace).cancelSent == Books(old(trace)).cancelSent
      ensures if rest.Broken? then capacity == 0 else rest == Restarting(steer)
      ensures Advances(old(trace), trace, [Warning, CommandInterrupted(prompt)], !rest.Broken?)
    {
      hide Books, Balanced;
      ghost var o := Owed(Some(prompt), steer, None);
      var ok := Warn(o);
      if ok {
        ok := Answer(CommandInterrupted(prompt), o, Running);
      }
      assert [Warning, CommandInterrupted(prompt)] == [Warning] + [CommandInterrupted(prompt)];
      rest := if ok then Restarting(steer) else Broken(Owed(Some(prompt), steer, None));
    }

    /** Cancel the running prompt for good. */
    method InterruptTurn(prompt: Id, warned: bool, notified: bool, ghost o: Owed) returns (ok: bool)
      requires o.running == Some(prompt) && Balanced(o)
      modifies this`trace, this`capacity
      ensures Balanced(if ok then o.(running := None) else o) && (!ok ==> capacity == 0)
      ensures Advances(old(trace), trace, InterruptEffects(prompt, warned, notified), ok)
    {
      hide Books, Balanced;
      NotifyCancel(notified, o);
      ok := true;
      if warned {
        ok := Warn(o);
      }
      if ok {
        ok := Answer(CommandInterrupted(prompt), o, Running);
      }
    }

    method AnswerClose(close: Id, accepted: bool, ghost o: Owed) returns (ok: bool)
      requires o.current == Some(close) && Balanced(o)
      modifies this`trace, this`capacity
      ensures Balanced(if ok then o.(current := None) else o) && (!ok ==> capacity == 0)
      ensures Advances(old(trace), trace, CloseEffects(Some(close), accepted), ok)
    {
      hide Books, Balanced;
      ok := Answer(if accepted then CloseApplied(close) else CommandRejected(close), o, Current);
    }

    /** Close, or the end of the command channel, while a prompt runs. */
    method CloseDuringTurn(prompt: Id, steer: Option<Id>, close: Option<Id>, notified: bool, accepted: bool) returns (rest: Rest)
      requires Balanced(Owed(Some(prompt), steer, close))
      modifies this`trace, this`capacity
      ensures Balanced(Outstanding(rest))
      ensures if rest.Broken? then capacity == 0 || (close.None? && !notified) else rest == Closed(steer)
      ensures Advances(old(trace), trace, CloseTurnEffects(prompt, close, notified, accepted), !rest.Broken?)
    {
      hide Books, Balanced, CloseEffects, InterruptEffects, Advances;
      ghost var o := Owed(Some(prompt), steer, close);
      ghost var first := InterruptEffects(prompt, close.Some? && !notified, notified);
      var ok := InterruptTurn(prompt, close.Some? && !notified, notified, o);
      if !ok {
        AdvancesShort(old(trace), trace, first, CloseEffects(close, accepted));
        rest := Broken(Owed(Some(prompt), steer, close));
        return;
      }
      if close.None? {
        NothingElse(old(trace), trace, first, accepted, notified);
        rest := if notified then Closed(steer) else Broken(Owed(None, steer, None));
        return;
      }
      ghost var midway := trace;
      ok := AnswerClose(close.value, accepted, o.(running := None));
      AdvancesTwice(old(trace), midway, trace, first, CloseEffects(close, accepted), ok);
      rest := if ok then Closed(steer) else Broken(Owed(None, steer, close));
    }

    /** Any other command while a prompt runs. A cancel starts a steer where it
        can, and otherwise cancels and arms the acknowledgement deadline. */
    method CommandDuringTurn(prompt: Id, steer: Option<Steer>, armed: bool, command: Command, notified: bool,
                             ghost accepted: bool, ghost lost: bool)
      returns (ok: bool, steer': Option<Steer>, armed': bool)
      requires !command.Close?
      requires Balanced(Owed(Some(prompt), SteerId(steer), Some(command.id)))
      requires armed == Books(trace).cancelSent
      modifies this`trace, this`capacity
      ensures Balanced(if ok then Owed(Some(prompt), SteerId(steer'), None)
                       else Owed(Some(prompt), SteerId(steer), Some(command.id)))
      ensures !ok ==> steer' == steer && capacity == 0
      ensures ok ==> armed' == Books(trace).cancelSent && (armed ==> armed')
      ensures steer' == steer
              || (steer.None? && !armed && steeringSupported && command.Cancel? && command.steering.Some?
                  && steer' == Some(Steer(command.id, command.steering.value)))
      ensures ok ==>
                Turning(prompt, steer', armed') ==
                After(Options(), Turning(prompt, steer, armed), Received(Some(command), notified, accepted, lost))
      ensures Advances(old(trace), trace,
                       Effects(Options(), Turning(prompt, steer, armed), Received(Some(command), notified, accepted, lost)), ok)
    {
      hide Books, Balanced;
      steer', armed' := steer, armed;
      ghost var o := Owed(Some(prompt), SteerId(steer), Some(command.id));
      match command
      case Cancel(id, steering) =>
        if steeringSupported && steer.None? && !armed && steering.Some? {
          steer' := Some(Steer(id, steering.value));
          StartSteer(prompt, id);
          ok := true;
        } else {
          ok := ApplyCancel(id, notified, o, Current);
          armed' := true;
        }
      case Prompt(id, _) => ok := Answer(CommandRejected(id), o, Current);
      case SetConfig(id, _) => ok := Answer(CommandRejected(id), o, Current);
      case SetSessionMode(id) => ok := Answer(CommandRejected(id), o, Current);
      case Compact(id) =>
        Reply(id, o, Current);
        ok := true;
      case ResolveElicitation(id) =>
        Reply(id, o, Current);
        ok := true;
    }

    /** A command, or the end of the command channel, while a prompt runs. */
    method ReceiveDuringTurn(prompt: Id, steer: Option<Steer>, armed: bool, s: Stimulus)
      returns (rest: Rest, steer': Option<Steer>, armed': bool)
      requires s.Received? && Balanced(Owed(Some(prompt), SteerId(steer), None)) && armed == Books(trace).cancelSent
      modifies this`trace, this`received, this`capacity
      ensures received == old(received) + CommandId(s)
      ensures Balanced(Outstanding(rest))
      ensures Advances(old(trace), trace, Effects(Options(), Turning(prompt, steer, armed), s), !rest.Broken?)
      ensures RestFits(rest, After(Options(), Turning(prompt, steer, armed), s))
      ensures rest.InTurn? || rest.Broken? || rest == Closed(SteerId(steer))
      ensures rest.InTurn? ==>
                && rest == InTurn(prompt, SteerId(steer')) && armed' == Books(trace).cancelSent
                && Turning(prompt, steer', armed') == After(Options(), Turning(prompt, steer, armed), s)
      ensures steer' == steer || (steer'.Some? && IsSteeringCancel(s, steer'.value.id))
      ensures rest.Broken? ==> capacity == 0 || Breaks(s)
    {
      hide Books, Balanced, CloseTurnEffects, BusyEffects, Advances;
      steer', armed' := steer, armed;
      if s.command.None? {
        rest := CloseDuringTurn(prompt, SteerId(steer), None, s.notified, s.accepted);
        return;
      }
      var c := s.command.value;
      Take(c.id, Owed(Some(prompt), SteerId(steer), None));
      if c.Close? {
        rest := CloseDuringTurn(prompt, SteerId(steer), Some(c.id), s.notified, s.accepted);
        return;
      }
      var ok;
      ok, steer', armed' := CommandDuringTurn(prompt, steer, armed, c, s.notified, s.accepted, s.lost);
      rest := if ok then InTurn(prompt, SteerId(steer')) else Broken(Owed(Some(prompt), SteerId(steer), Some(c.id)));
    }

    /** One turn, from the prompt request to whatever ends it. A stimulus the
        turn is not waiting for leaves it waiting. */
    method ServeTurn(script: seq<Stimulus>, first: nat, prompt: Id, ghost base: seq<Effect>) returns (next: nat, rest: Rest)
      requires first <= |script| && Balanced(Owed(Some(prompt), None, None))
      requires PhaseAt(Options(), script, first) == Turning(prompt, None, false)
      requires trace + [TurnStarted] == base + Sent(Options(), script, first)
      modifies this`trace, this`received, this`capacity
      ensures first <= next <= |script|
      ensures received == old(received) + Taken(script, first, next)
      ensures Balanced(Outstanding(rest))
      ensures Traced(Options(), base, trace, script, next, rest)
      ensures rest.Broken? ==> first < next && (capacity == 0 || Breaks(script[next-1]))
      ensures !rest.InCompaction?
      ensures rest.InTurn? ==> rest.prompt == prompt && next == |script| && AskedToSteer(script, next, rest.steer)
      ensures rest.Restarting? ==> Books(trace).cancelSent && AskedToSteer(script, next, rest.abandonedSteer)
      ensures rest.Closed? ==> AskedToSteer(script, next, rest.abandonedSteer)
    {
      hide Books, Balanced, Taken, AskedToSteer, PhaseAt, Sent, Traced, Advances, FinishEffects, SteerEffects, CloseTurnEffects,
        BusyEffects, StartsSteer;
      TakenNone(script, first);
      NotAsked(script);
      BeginTurn(Owed(Some(prompt), None, None));
      var armed := false;
      var steer: Option<Steer> := None;
      next := first;
      while next < |script|
        invariant first <= next <= |script|
        invariant received == old(received) + Taken(script, first, next)
        invariant Balanced(Owed(Some(prompt), SteerId(steer), None))
        invariant armed == Books(trace).cancelSent
        invariant AskedToSteer(script, next, SteerId(steer))
        invariant PhaseAt(Options(), script, next) == Turning(prompt, steer, armed)
        invariant trace == base + Sent(Options(), script, next)
      {
        var stimulus := script[next];
        ghost var at, before := next, trace;
        ScriptStep(Options(), script, at);
        TakenStep(script, first, next);
        AskedBefore(script, next, SteerId(steer));
        next := next + 1;
        match stimulus
        case PromptSettled(_, _, _, _) =>
          rest := FinishTurn(prompt, steer, armed, stimulus);
          TracedStep(Options(), base, before, trace, script, at, rest);
          return;
        case DeadlineElapsed =>
          if armed {
            rest := GiveUpTurn(prompt, SteerId(steer));
            TracedStep(Options(), base, before, trace, script, at, rest);
            return;
          }
        case SteerSettled(outcome, notified) =>
          if steer.Some? {
            var ok, cancelled := SettleSteer(steer.value.id, steer.value.queued, outcome, notified, true,
                                             Owed(Some(prompt), SteerId(steer), None));
            rest := if ok then InTurn(prompt, None) else Broken(Owed(Some(prompt), SteerId(steer), None));
            TracedStep(Options(), base, before, trace, script, at, rest);
            if !ok {
              return;
            }
            steer := None;
            armed := armed || cancelled;
          }
        case CompactionSettled =>
        case Received(_, _, _, _) =>
          ghost var was := steer;
          rest, steer, armed := ReceiveDuringTurn(prompt, steer, armed, stimulus);
          TracedStep(Options(), base, before, trace, script, at, rest);
          if !rest.InTurn? {
            return;
          }
          if steer != was {
            Asked(script, at, steer.value.id);
          }
      }
      rest := InTurn(prompt, SteerId(steer));
      TracedHere(Options(), base, trace, script, next, rest);
    }

    // ----- A compaction -----

    /** Answer the compaction, and try to cancel its work. */
    method LeaveCompaction(compaction: Id, closing: bool, notified: bool, ghost o: Owed) returns (ok: bool)
      requires o.running == Some(compaction) && Balanced(o)
      modifies this`trace, this`capacity
      ensures Balanced(o.(running := None)) && (!ok ==> capacity == 0) && (!closing ==> ok)
      ensures Advances(old(trace), trace, LeaveEffects(compaction, closing, notified), ok)
    {
      hide Books, Balanced;
      Reply(compaction, o, Running);
      NotifyCancel(notified, o.(running := None));
      ok := true;
      if closing {
        if !notified {
          ok := Warn(o.(running := None));
        }
        if ok {
          ok := Warn(o.(running := None));
        }
      }
    }

    method CloseDuringCompaction(compaction: Id, close: Option<Id>, notified: bool, accepted: bool) returns (rest: Rest)
      requires Balanced(Owed(Some(compaction), None, close))
      modifies this`trace, this`capacity
      ensures Balanced(Outstanding(rest))
      ensures if rest.Broken? then capacity == 0 || (close.None? && !notified) else rest == Closed(None)
      ensures Advances(old(trace), trace, CloseCompactionEffects(compaction, close, notified, accepted), !rest.Broken?)
    {
      hide Books, Balanced, CloseEffects, LeaveEffects, Advances;
      ghost var o := Owed(Some(compaction), None, close);
      ghost var first := LeaveEffects(compaction, close.Some?, notified);
      var ok := LeaveCompaction(compaction, close.Some?, notified, o);
      if close.None? {
        NothingElse(old(trace), trace, first, accepted, notified);
        rest := if notified then Closed(None) else Broken(NOTHING);
        return;
      }
      if !ok {
        AdvancesShort(old(trace), trace, first, CloseEffects(close, accepted));
        rest := Broken(Owed(None, None, close));
        return;
      }
      ghost var midway := trace;
      ok := AnswerClose(close.value, accepted, o.(running := None));
      AdvancesTwice(old(trace), midway, trace, first, CloseEffects(close, accepted), ok);
      rest := if ok then Closed(None) else Broken(Owed(None, None, close));
    }

    method CommandDuringCompaction(compaction: Id, command: Command, notified: bool) returns (ok: bool)
      requires !command.Close?
      requires Balanced(Owed(Some(compaction), None, Some(command.id)))
      modifies this`trace, this`capacity
      ensures Balanced(Owed(Some(compaction), None, if ok then None else Some(command.id))) && (!ok ==> capacity == 0)
      ensures Advances(old(trace), trace, BusyEffects(command, notified), ok)
    {
      hide Books, Balanced;
      ghost var o := Owed(Some(compaction), None, Some(command.id));
      match command
      case Cancel(id, _) => ok := ApplyCancel(id, notified, o, Current);
      case Prompt(id, _) => ok := Answer(CommandRejected(id), o, Current);
      case SetConfig(id, _) => ok := Answer(CommandRejected(id), o, Current);
      case SetSessionMode(id) => ok := Answer(CommandRejected(id), o, Current);
      case Compact(id) =>
        Reply(id, o, Current);
        ok := true;
      case ResolveElicitation(id) =>
        Reply(id, o, Current);
        ok := true;
    }

    /** One compaction in its scratch session. */
    method ServeCompaction(script: seq<Stimulus>, first: nat, compaction: Id, ghost base: seq<Effect>) returns (next: nat, rest: Rest)
      requires first <= |script| && Balanced(Owed(Some(compaction), None, None))
      requires PhaseAt(Options(), script, first) == Compacting(compaction) && trace == base + Sent(Options(), script, first)
      modifies this`trace, this`received, this`capacity
      ensures first <= next <= |script|
      ensures received == old(received) + Taken(script, first, next)
      ensures Balanced(Outstanding(rest))
      ensures Traced(Options(), base, trace, script, next, rest)
      ensures rest.Idle? || rest.Broken? || rest == Closed(None) || (rest == InCompaction(compaction) && next == |script|)
      ensures rest.Broken? ==> first < next && (capacity == 0 || Breaks(script[next-1]))
    {
      hide Books, Balanced, Taken, PhaseAt, Sent, Traced, CloseCompactionEffects, BusyEffects;
      TakenNone(script, first);
      next := first;
      while next < |script|
        invariant first <= next <= |script|
        invariant received == old(received) + Taken(script, first, next)
        invariant Balanced(Owed(Some(compaction), None, None))
        invariant PhaseAt(Options(), script, next) == Compacting(compaction) && trace == base + Sent(Options(), script, next)
      {
        var stimulus := script[next];
        ghost var at, before := next, trace;
        ScriptStep(Options(), script, at);
        TakenStep(script, first, next);
        next := next + 1;
        if stimulus.CompactionSettled? {
          Reply(compaction, Owed(Some(compaction), None, None), Running);
          rest := Idle;
          TracedStep(Options(), base, before, trace, script, at, rest);
          return;
        } else if stimulus.Received? {
          if stimulus.command.None? {
            rest := CloseDuringCompaction(compaction, None, stimulus.notified, stimulus.accepted);
            TracedStep(Options(), base, before, trace, script, at, rest);
            return;
          }
          var c := stimulus.command.value;
          Take(c.id, Owed(Some(compaction), None, None));
          if c.Close? {
            rest := CloseDuringCompaction(compaction, Some(c.id), stimulus.notified, stimulus.accepted);
            TracedStep(Options(), base, before, trace, script, at, rest);
            return;
          }
          var ok := CommandDuringCompaction(compaction, c, stimulus.notified);
          rest := if ok then InCompaction(compaction) else Broken(Owed(Some(compaction), None, Some(c.id)));
          TracedStep(Options(), base, before, trace, script, at, rest);
          if !ok {
            return;
          }
        }
      }
      rest := InCompaction(compaction);
      TracedHere(Options(), base, trace, script, next, rest);
    }

    // ----- The session -----

    /** A command that neither runs a prompt nor a compaction, taken while idle. */
    method CommandWhileIdle(command: Command, notified: bool, accepted: bool, lost: bool) returns (rest: Rest)
      requires !command.Compact? && (command.Prompt? ==> !command.hasContent)
      requires Balanced(Owed(None, None, Some(command.id)))
      modifies this`trace, this`capacity
      ensures Balanced(Outstanding(rest))
      ensures if rest.Broken?
              then capacity == 0 || (command.SetConfig? && command.modelChange && !accepted && lost)
              else rest == if command.Close? then Closed(None) else Idle
      ensures rest.Broken? ==> rest == Broken(Owed(None, None, Some(command.id)))
      ensures Breaks(Received(Some(command), notified, accepted, lost)) ==> rest.Broken?
      ensures Advances(old(trace), trace, IdleEffects(Received(Some(command), notified, accepted, lost)), !rest.Broken?)
    {
      hide Books, Balanced;
      ghost var o := Owed(None, None, Some(command.id));
      var ok := true;
      match command {
        case Prompt(id, _) => ok := Answer(CommandRejected(id), o, Current);
        case SetConfig(id, modelChange) =>
          if !accepted && modelChange && lost {
            ok := false;
          } else {
            ok := Answer(if accepted then ConfigApplied(id) else CommandRejected(id), o, Current);
          }
        case SetSessionMode(id) =>
          ok := Answer(if accepted then SessionModeApplied(id) else CommandRejected(id), o, Current);
        case ResolveElicitation(id) => Reply(id, o, Current);
        case Cancel(id, _) => ok := ApplyCancel(id, notified, o, Current);
        case Close(id) => ok := Answer(if accepted then CloseApplied(id) else CommandRejected(id), o, Current);
      }
      rest := if !ok then Broken(Owed(None, None, Some(command.id))) else if command.Close? then Closed(None) else Idle;
    }

    /** Serve one command taken while idle, to its end. */
    method ServeCommand(script: seq<Stimulus>, first: nat, c: Command, stimulus: Stimulus, ghost base: seq<Effect>)
        returns (next: nat, rest: Rest)
      requires 0 < first <= |script| && script[first-1] == stimulus && stimulus.Received? && stimulus.command == Some(c)
      requires Balanced(Owed(None, None, Some(c.id)))
      requires PhaseAt(Options(), script, first - 1).Waiting? && trace == base + Sent(Options(), script, first - 1)
      modifies this`trace, this`received, this`capacity
      ensures first <= next <= |script|
      ensures received == old(received) + Taken(script, first, next)
      ensures Balanced(Outstanding(rest))
      ensures Traced(Options(), base, trace, script, next, rest)
      ensures rest.InTurn? || rest.InCompaction? ==> next == |script|
      ensures rest.Broken? ==> capacity == 0 || Breaks(script[next-1])
      ensures rest.InTurn? ==> AskedToSteer(script, next, rest.steer)
      ensures rest.Restarting? ==> Books(trace).cancelSent && AskedToSteer(script, next, rest.abandonedSteer)
      ensures rest.Closed? ==> AskedToSteer(script, next, rest.abandonedSteer)
    {
      hide Books, Balanced, Taken, AskedToSteer, PhaseAt, Sent, Traced, Advances;
      NotAsked(script);
      ghost var before := trace;
      ScriptStep(Options(), script, first - 1);
      Assoc(base, Sent(Options(), script, first - 1), Effects(Options(), Waiting, stimulus));
      if c.Prompt? && c.hasContent {
        StartRunning(c.id);
        next, rest := ServeTurn(script, first, c.id, base);
      } else if c.Compact? {
        StartRunning(c.id);
        next, rest := ServeCompaction(script, first, c.id, base);
      } else {
        TakenNone(script, first);
        assert stimulus == Received(Some(c), stimulus.notified, stimulus.accepted, stimulus.lost);
        rest := CommandWhileIdle(c, stimulus.notified, stimulus.accepted, stimulus.lost);
        TracedStep(Options(), base, before, trace, script, first - 1, rest);
        next := first;
      }
    }

    /** The session's command loop over any script of stimuli. It stops where
        the script does, so every point at which a session waits is the end of
        some script. */
    method ServeSession(script: seq<Stimulus>) returns (next: nat, rest: Rest)
      requires Balanced(NOTHING)
      modifies this`trace, this`received, this`capacity
      ensures next <= |script| && received == old(received) + Taken(script, 0, next)
      ensures Balanced(Outstanding(rest))
      // with distinct ids nothing is answered twice, and what is not answered is
      // what `rest` says or what an earlier bridge abandoned
      ensures OnceEach(received, Books(trace).answers, abandoned + Ids(Outstanding(rest)))
      ensures rest.Idle? || rest.InTurn? || rest.InCompaction? ==> next == |script|
      // what was sent is what the stimuli call for
      ensures Traced(Options(), old(trace), trace, script, next, rest)
      ensures Verdicts(Options(), old(trace), trace, script, next, rest)
      // it breaks only when cut off or when a stimulus breaks it
      ensures rest.Broken? ==> 0 < next && (capacity == 0 || Breaks(script[next-1]))
      ensures rest.InTurn? ==> AskedToSteer(script, next, rest.steer)
      ensures rest.Restarting? ==> Books(trace).cancelSent && AskedToSteer(script, next, rest.abandonedSteer)
      ensures rest.Closed? ==> AskedToSteer(script, next, rest.abandonedSteer)
    {
      hide Books, Balanced, Taken, AskedToSteer, OnceEach, Ids, PhaseAt, Sent, Traced, Verdicts, IdleEffects;
      TakenNone(script, 0);
      NotAsked(script);
      ScriptStart(Options(), script, trace);
      ghost var base := trace;
      next, rest := 0, Idle;
      while next < |script|
        invariant next <= |script| && received == old(received) + Taken(script, 0, next)
        invariant Balanced(NOTHING) && rest == Idle
        invariant Traced(Options(), base, trace, script, next, Idle)
      {
        var stimulus := script[next];
        TakenStep(script, 0, next);
        TracedIdle(Options(), base, trace, script, next);
        if !stimulus.Received? || stimulus.command.None? {
          assert trace + [] == trace;
          TracedStep(Options(), base, trace, trace, script, next, if stimulus.Received? then Closed(None) else Idle);
        }
        next := next + 1;
        if stimulus.Received? {
          if stimulus.command.None? {
            rest := Closed(None);
            Accounted(Outstanding(rest));
            SentIsEarned(Options(), base, trace, script, next, rest);
            return;
          }
          ghost var before := next;
          Take(stimulus.command.value.id, NOTHING);
          next, rest := ServeCommand(script, next, stimulus.command.value, stimulus, base);
          TakenJoin(script, 0, before, next);
          if !rest.Idle? {
            Accounted(Outstanding(rest));
            SentIsEarned(Options(), base, trace, script, next, rest);
            return;
          }
        }
      }
      Accounted(NOTHING);
      SentIsEarned(Options(), base, trace, script, next, rest);
    }

    lemma Conserved()
      requires Balanced(NOTHING)
      ensures multiset(received) == Books(trace).answers + abandoned
    {
      hide Books;
    }

    lemma AllAccounted()
      requires Balanced(NOTHING)
      ensures OnceEach(received, Books(trace).answers, abandoned)
    {
      hide Books, OnceEach, Session.Balanced;
      Accounted(NOTHING);
      assert abandoned + Ids(NOTHING) == abandoned;
    }

    lemma Accounted(o: Owed)
      requires Balanced(o)
      ensures OnceEach(received, Books(trace).answers, abandoned + Ids(o))
    {
      hide Books, Ids;
      var answers, unanswered := Books(trace).answers, abandoned + Ids(o);
      assert multiset(received) == answers + unanswered;
      if Distinct(received) {
        forall id
          ensures answers[id] <= 1 && (answers[id] == 1 <==> id in received && id !in unanswered)
          ensures id in unanswered ==> id in received
        {
          AnsweredOnce(received, answers, unanswered, id);
        }
      }
    }

    /** A new bridge reaches the coordinator until it is cut off. */
    method Limit(capacity: nat)
      requires Balanced(NOTHING)
      modifies this`capacity
      ensures this.capacity == capacity && Balanced(NOTHING)
    {
      this.capacity := capacity;
    }

    /** A bridge ended: what it still owed is left to the coordinator. */
    ghost method Abandon(o: Owed)
      requires Balanced(o)
      modifies this`abandoned
      ensures Balanced(NOTHING) && abandoned == old(abandoned) + Ids(o)
    {
      hide Books;
      abandoned := abandoned + Ids(o);
    }

    /** The command just taken becomes the running one. */
    lemma StartRunning(id: Id)
      requires Balanced(Owed(None, None, Some(id)))
      ensures Balanced(Owed(Some(id), None, None))
    {
      assert Ids(Owed(Some(id), None, None)) == Ids(Owed(None, None, Some(id)));
    }
  }

  lemma {:induction false} TakenJoin(script: seq<Stimulus>, first: nat, mid: nat, n: nat)
    requires first <= mid <= n <= |script|
    ensures Taken(script, first, n) == Taken(script, first, mid) + Taken(script, mid, n)
    decreases n
  {
    if n > mid {
      TakenJoin(script, first, mid, n - 1);
    }
  }

  // ----- What the trace means -----

  ghost predicate EarnedBefore(u: Setup, script: seq<Stimulus>, n: nat, e: Effect)
    requires n <= |script|
  {
    exists k :: 0 <= k < n && Earned(u, PhaseAt(u, script, k), script[k], e)
  }

  /** Every answer sent since `base` is one that some stimulus earned, and unless
      the session broke every earned answer was sent. */
  ghost predicate Verdicts(u: Setup, base: seq<Effect>, trace: seq<Effect>, script: seq<Stimulus>, next: nat, rest: Rest)
    requires next <= |script|
  {
    && base <= trace
    && forall e :: IsAnswer(e) ==>
         && (e in trace[|base|..] ==> EarnedBefore(u, script, next, e))
         && (EarnedBefore(u, script, if rest.Broken? && next > 0 then next - 1 else next, e) ==> e in trace[|base|..])
  }

  lemma {:induction false} SentIff(u: Setup, script: seq<Stimulus>, n: nat, e: Effect)
    requires n <= |script| && IsAnswer(e)
    ensures e in Sent(u, script, n) <==> EarnedBefore(u, script, n, e)
  {
    hide Effects, Earned, PhaseAt;
    if n > 0 {
      SentIff(u, script, n - 1, e);
      EarnedIff(u, PhaseAt(u, script, n - 1), script[n-1], e);
    }
  }

  lemma SentIsEarned(u: Setup, base: seq<Effect>, trace: seq<Effect>, script: seq<Stimulus>, next: nat, rest: Rest)
    requires next <= |script| && Traced(u, base, trace, script, next, rest)
    ensures Verdicts(u, base, trace, script, next, rest)
  {
    hide Sent, PhaseAt, Earned, Effects, EarnedBefore;
    if rest.Broken? {
      ScriptStep(u, script, next - 1);
      Assoc(base, Sent(u, script, next - 1), Effects(u, PhaseAt(u, script, next - 1), script[next-1]));
      assert Sent(u, script, next - 1) <= trace[|base|..] <= Sent(u, script, next);
    } else {
      assert trace[|base|..] == Sent(u, script, next);
    }
    forall e | IsAnswer(e)
      ensures e in trace[|base|..] ==> EarnedBefore(u, script, next, e)
      ensures EarnedBefore(u, script, if rest.Broken? && next > 0 then next - 1 else next, e) ==> e in trace[|base|..]
    {
      SentIff(u, script, next, e);
      if rest.Broken? {
        SentIff(u, script, next - 1, e);
      }
    }
  }

  lemma ScriptStart(u: Setup, script: seq<Stimulus>, trace: seq<Effect>)
    ensures Traced(u, trace, trace, script, 0, Idle)
  {
  }

  lemma TracedIdle(u: Setup, base: seq<Effect>, trace: seq<Effect>, script: seq<Stimulus>, n: nat)
    requires n <= |script| && Traced(u, base, trace, script, n, Idle)
    ensures PhaseAt(u, script, n).Waiting? && trace == base + Sent(u, script, n)
  {
  }

  // ----- What balanced books mean -----

  /** With distinct command ids no command is answered twice, none is that was
      not received, and the unanswered ones are exactly `unanswered`. */
  ghost predicate OnceEach(received: seq<Id>, answers: multiset<Id>, unanswered: multiset<Id>) {
    Distinct(received) ==>
      forall id :: answers[id] <= 1 && (answers[id] == 1 <==> id in received && id !in unanswered) &&
                   (id in unanswered ==> id in received)
  }

  predicate Distinct(ids: seq<Id>) {
    forall i, j :: 0 <= i < j < |ids| ==> ids[i] != ids[j]
  }

  lemma {:induction false} DistinctOnce(ids: seq<Id>, id: Id)
    requires Distinct(ids)
    ensures multiset(ids)[id] == if id in ids then 1 else 0
  {
    if ids != [] {
      var front, last := ids[..|ids|-1], ids[|ids|-1];
      assert ids == front + [last];
      DistinctOnce(front, id);
    }
  }

  lemma AnsweredOnce(received: seq<Id>, answers: multiset<Id>, open: multiset<Id>, id: Id)
    requires Distinct(received) && multiset(received) == answers + open
    ensures answers[id] <= 1
    ensures answers[id] == 1 <==> id in received && id !in open
    ensures id in open ==> id in received
  {
    DistinctOnce(received, id);
    assert multiset(received)[id] == answers[id] + open[id];
  }
}
