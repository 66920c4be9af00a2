/** The optimistic prompt queue of a chat view: entries taken back into the
    composer stay hidden while their removal is still on its way. */
module QueueView {
  import opened Text

  datatype Queued = Queued(id: string, text: string)

  datatype QueueEvent =
    | Added(prompt: Queued)
    | Removed(id: string)
    | Promoted(id: string)
    | Cleared
    | OtherEvent

  /** What happens to a view, in any order. */
  datatype Op =
    | Project(queue: seq<Queued>, ordinal: nat)
    | EditLatest
    | RemovalFailed(prompt: Queued)
    | Apply(seqno: nat, event: QueueEvent)
    | Reset

  datatype View = View(queued: seq<Queued>, pending: set<string>, latest: nat)

  // ----- Specification -----

  function Ids(q: seq<Queued>): set<string> {
    set i | 0 <= i < |q| :: q[i].id
  }

  /** The entries of `q` whose id is not in `hidden`, in order. */
  function Except(q: seq<Queued>, hidden: set<string>): (r: seq<Queued>)
    ensures forall x :: x in r <==> x in q && x.id !in hidden
  {
    if q == [] then []
    else Except(q[..|q|-1], hidden) + if q[|q|-1].id in hidden then [] else [q[|q|-1]]
  }

  function AfterEvent(v: View, e: QueueEvent): View {
    match e
    case Added(p) => if p.id in v.pending then v else v.(queued := v.queued + [p])
    case Removed(id) => v.(queued := Except(v.queued, {id}), pending := v.pending - {id})
    case Promoted(id) => v.(queued := Except(v.queued, {id}), pending := v.pending - {id})
    case Cleared => v.(queued := [], pending := {})
    case OtherEvent => v
  }

  function Step(v: View, op: Op): View {
    match op
    case Project(queue, ordinal) => View(Except(queue, v.pending), v.pending * Ids(queue), ordinal)
    case EditLatest =>
      if v.queued == [] then v
      else v.(queued := v.queued[..|v.queued|-1], pending := v.pending + {v.queued[|v.queued|-1].id})
    case RemovalFailed(p) =>
      View(if p.id in Ids(v.queued) then v.queued else v.queued + [p], v.pending - {p.id}, v.latest)
    case Apply(seqno, e) => if seqno <= v.latest then v else AfterEvent(v, e).(latest := seqno)
    case Reset => v.(queued := [])
  }

  predicate UniqueIds(q: seq<Queued>) {
    forall i, j :: 0 <= i < j < |q| ==> q[i].id != q[j].id
  }

  /** Nothing is both shown and waiting to be removed, and nothing shown twice. */
  predicate Consistent(v: View) {
    UniqueIds(v.queued) && Ids(v.queued) !! v.pending
  }

  /** The operation does not bring in an id twice. */
  predicate KeepsIdsUnique(v: View, op: Op) {
    match op
    case Project(queue, _) => UniqueIds(queue)
    case Apply(seqno, Added(p)) => seqno > v.latest ==> p.id !in Ids(v.queued)
    case _ => true
  }

  lemma {:induction false} ExceptUnique(q: seq<Queued>, hidden: set<string>)
    requires UniqueIds(q)
    ensures UniqueIds(Except(q, hidden)) && Ids(Except(q, hidden)) == Ids(q) - hidden
  {
    hide Ids, UniqueIds;
    if q != [] {
      var front, last := q[..|q|-1], q[|q|-1];
      assert q == front + [last];
      IdsSnoc(front, last);
      UniqueSnoc(front, last);
      ExceptUnique(front, hidden);
      IdsSnoc(Except(front, hidden), last);
      UniqueSnoc(Except(front, hidden), last);
      assert Except(front, hidden) + [] == Except(front, hidden);
    } else {
      NoIds();
    }
  }

  lemma NoIds()
    ensures Ids([]) == {} && UniqueIds([])
  {
  }

  lemma UniqueSnoc(q: seq<Queued>, p: Queued)
    ensures UniqueIds(q + [p]) <==> UniqueIds(q) && p.id !in Ids(q)
  {
    var more := q + [p];
    if UniqueIds(more) {
      forall i | 0 <= i < |q| ensures q[i].id != p.id {
        assert more[i].id != more[|q|].id;
      }
      forall i, j | 0 <= i < j < |q| ensures q[i].id != q[j].id {
        assert more[i].id != more[j].id;
      }
    }
  }

  lemma IdsSnoc(q: seq<Queued>, p: Queued)
    ensures Ids(q + [p]) == Ids(q) + {p.id}
  {
    var more := q + [p];
    forall x ensures x in Ids(more) <==> x in Ids(q) || x == p.id {
      if x in Ids(q) {
        var i :| 0 <= i < |q| && q[i].id == x;
        assert more[i].id == x;
      }
      if x == p.id {
        assert more[|q|].id == x;
      }
      if x in Ids(more) {
        var i :| 0 <= i < |more| && more[i].id == x;
        if i < |q| {
          assert q[i].id == x;
        }
      }
    }
  }

  /** Every operation keeps the view consistent. */
  lemma StepConsistent(v: View, op: Op)
    requires Consistent(v) && KeepsIdsUnique(v, op)
    ensures Consistent(Step(v, op))
  {
    hide Ids, UniqueIds, Except;
    NoIds();
    match op
    case Project(queue, _) => ExceptUnique(queue, v.pending);
    case EditLatest =>
      if v.queued != [] {
        var front, last := v.queued[..|v.queued|-1], v.queued[|v.queued|-1];
        assert v.queued == front + [last];
        IdsSnoc(front, last);
        UniqueSnoc(front, last);
      }
    case RemovalFailed(p) =>
      IdsSnoc(v.queued, p);
      UniqueSnoc(v.queued, p);
    case Apply(_, e) =>
      match e {
        case Added(p) =>
          IdsSnoc(v.queued, p);
          UniqueSnoc(v.queued, p);
        case Removed(id) => ExceptUnique(v.queued, {id});
        case Promoted(id) => ExceptUnique(v.queued, {id});
        case _ =>
      }
    case Reset =>
  }

  /** What ends hiding `id`: a projection without it, its removal failing, or an
      event that removes, promotes or clears it. */
  predicate Releases(v: View, op: Op, id: string) {
    match op
    case Project(queue, _) => id !in Ids(queue)
    case RemovalFailed(p) => p.id == id
    case Apply(seqno, e) => seqno > v.latest && (e == Removed(id) || e == Promoted(id) || e == Cleared)
    case _ => false
  }

  lemma HiddenStep(v: View, op: Op, id: string)
    requires id in v.pending
    ensures id in Step(v, op).pending <==> !Releases(v, op, id)
  {
  }

  /** What puts `p` into the shown queue, and what takes it out. */
  predicate Brings(v: View, op: Op, p: Queued) {
    match op
    case Project(queue, _) => p in queue && p.id !in v.pending
    case RemovalFailed(prompt) => prompt == p && forall i :: 0 <= i < |v.queued| ==> v.queued[i].id != p.id
    case Apply(seqno, e) => seqno > v.latest && e == Added(p) && p.id !in v.pending
    case _ => false
  }

  predicate Drops(v: View, op: Op, p: Queued) {
    match op
    case Project(queue, _) => p !in queue || p.id in v.pending
    case EditLatest => v.queued != [] && v.queued[|v.queued|-1] == p
    case Apply(seqno, e) => seqno > v.latest && (e == Removed(p.id) || e == Promoted(p.id) || e == Cleared)
    case Reset => true
    case RemovalFailed(_) => false
  }

  lemma ShownStep(v: View, op: Op, p: Queued)
    requires Consistent(v)
    ensures p in Step(v, op).queued <==> Brings(v, op, p) || (p in v.queued && !Drops(v, op, p))
  {
    if op.EditLatest? && v.queued != [] {
      var front, last := v.queued[..|v.queued|-1], v.queued[|v.queued|-1];
      assert v.queued == front + [last];
      UniqueSnoc(front, last);
      if p in front {
        var i :| 0 <= i < |front| && front[i] == p;
        assert p.id in Ids(front);
      }
    }
  }

  /** Views after each prefix of a run. */
  function Run(v: View, ops: seq<Op>): View {
    if ops == [] then v else Step(Run(v, ops[..|ops|-1]), ops[|ops|-1])
  }

  predicate UniqueRun(v: View, ops: seq<Op>) {
    forall k :: 0 <= k < |ops| ==> KeepsIdsUnique(Run(v, ops[..k]), ops[k])
  }

  lemma {:induction false} RunConsistent(v: View, ops: seq<Op>)
    requires Consistent(v) && UniqueRun(v, ops)
    ensures Consistent(Run(v, ops))
  {
    if ops != [] {
      var front := ops[..|ops|-1];
      forall k | 0 <= k < |front| ensures KeepsIdsUnique(Run(v, front[..k]), front[k]) {
        assert front[..k] == ops[..k];
      }
      RunConsistent(v, front);
      StepConsistent(Run(v, front), ops[|ops|-1]);
    }
  }

  /** From the moment an entry is taken into the composer until something
      releases it, no view of the run shows it. */
  lemma {:induction false} HiddenUntilReleased(v: View, ops: seq<Op>, id: string)
    requires Consistent(v) && v.queued != [] && v.queued[|v.queued|-1].id == id
    requires UniqueRun(Step(v, EditLatest), ops)
    requires forall k :: 0 <= k < |ops| ==> !Releases(Run(Step(v, EditLatest), ops[..k]), ops[k], id)
    ensures id in Run(Step(v, EditLatest), ops).pending && id !in Ids(Run(Step(v, EditLatest), ops).queued)
  {
    hide Step, Releases, KeepsIdsUnique, Ids;
    var start := Step(v, EditLatest);
    EditUnique(v);
    StepConsistent(v, EditLatest);
    RunConsistent(start, ops);
    StillPending(v, ops, id);
  }

  lemma EditUnique(v: View)
    ensures KeepsIdsUnique(v, EditLatest)
  {
  }

  lemma {:induction false} StillPending(v: View, ops: seq<Op>, id: string)
    requires v.queued != [] && v.queued[|v.queued|-1].id == id
    requires forall k :: 0 <= k < |ops| ==> !Releases(Run(Step(v, EditLatest), ops[..k]), ops[k], id)
    ensures id in Run(Step(v, EditLatest), ops).pending
  {
    hide Releases, Ids;
    if ops != [] {
      var front := ops[..|ops|-1];
      forall k | 0 <= k < |front| ensures !Releases(Run(Step(v, EditLatest), front[..k]), front[k], id) {
        assert front[..k] == ops[..k];
      }
      StillPending(v, front, id);
      HiddenStep(Run(Step(v, EditLatest), front), ops[|ops|-1], id);
    }
  }

  /** `p` was shown from the start or brought in by the operation before `k`, and
      nothing from there on drops it. */
  predicate KeptSince(v: View, ops: seq<Op>, p: Queued, k: nat) {
    && k <= |ops|
    && (if k == 0 then p in v.queued else Brings(Run(v, ops[..k-1]), ops[k-1], p))
    && forall j :: k <= j < |ops| ==> !Drops(Run(v, ops[..j]), ops[j], p)
  }

  ghost predicate Kept(v: View, ops: seq<Op>, p: Queued) {
    exists k: nat :: KeptSince(v, ops, p, k)
  }

  /** A prompt is shown exactly when it was brought in and not dropped since. */
  lemma {:induction false} ShownIff(v: View, ops: seq<Op>, p: Queued)
    requires Consistent(v) && UniqueRun(v, ops)
    ensures p in Run(v, ops).queued <==> Kept(v, ops, p)
  {
    hide Step, Brings, Drops, UniqueRun, Consistent;
    if ops == [] {
      assert p in v.queued ==> KeptSince(v, ops, p, 0);
    } else {
      var n := |ops| - 1;
      PrefixUnique(v, ops, n);
      RunConsistent(v, ops[..n]);
      ShownIff(v, ops[..n], p);
      ShownStep(Run(v, ops[..n]), ops[n], p);
      if Brings(Run(v, ops[..n]), ops[n], p) {
        assert KeptSince(v, ops, p, n + 1);
      }
      if Kept(v, ops[..n], p) && !Drops(Run(v, ops[..n]), ops[n], p) {
        var k: nat :| KeptSince(v, ops[..n], p, k);
        KeptLonger(v, ops, p, k);
      }
      if Kept(v, ops, p) {
        var k: nat :| KeptSince(v, ops, p, k);
        KeptShorter(v, ops, p, k);
      }
    }
  }

  lemma KeptLonger(v: View, ops: seq<Op>, p: Queued, k: nat)
    requires ops != [] && KeptSince(v, ops[..|ops|-1], p, k) && !Drops(Run(v, ops[..|ops|-1]), ops[|ops|-1], p)
    ensures KeptSince(v, ops, p, k)
  {
    hide Run, Brings, Drops;
    var n := |ops| - 1;
    forall j | k <= j < |ops|
      ensures !Drops(Run(v, ops[..j]), ops[j], p)
    {
      if j < n {
        assert ops[..n][..j] == ops[..j];
      }
    }
    if k > 0 {
      assert ops[..n][..k-1] == ops[..k-1];
    }
  }

  lemma KeptShorter(v: View, ops: seq<Op>, p: Queued, k: nat)
    requires ops != [] && KeptSince(v, ops, p, k)
    ensures k <= |ops| - 1 ==> KeptSince(v, ops[..|ops|-1], p, k) && !Drops(Run(v, ops[..|ops|-1]), ops[|ops|-1], p)
    ensures k == |ops| ==> Brings(Run(v, ops[..|ops|-1]), ops[|ops|-1], p)
  {
    hide Run, Brings, Drops;
    var n := |ops| - 1;
    if k <= n {
      forall j | k <= j < n
        ensures !Drops(Run(v, ops[..n][..j]), ops[..n][j], p)
      {
        assert ops[..n][..j] == ops[..j];
      }
      if k > 0 {
        assert ops[..n][..k-1] == ops[..k-1];
      }
    }
  }

  // ----- The view -----

  class ChatState {
    var queuedPrompts: seq<Queued>
    var pendingRemovals: set<string>
    var latestSeq: nat
    var input: string

    constructor ()
      ensures Now() == View([], {}, 0) && Consistent(Now())
    {
      queuedPrompts, pendingRemovals, latestSeq, input := [], {}, 0, "";
    }

    ghost function Now(): View
      reads this
    {
      View(queuedPrompts, pendingRemovals, latestSeq)
    }

    method ApplyMaterialized(queue: seq<Queued>, ordinal: nat)
      modifies this`queuedPrompts, this`pendingRemovals, this`latestSeq
      ensures Now() == Step(old(Now()), Project(queue, ordinal))
    {
      latestSeq := ordinal;
      pendingRemovals := set id | id in pendingRemovals && id in Ids(queue);
      ghost var kept := pendingRemovals;
      assert kept == old(pendingRemovals) * Ids(queue);
      var shown: seq<Queued> := [];
      for k := 0 to |queue|
        invariant shown == Except(queue[..k], old(pendingRemovals))
        invariant pendingRemovals == kept
      {
        assert queue[..k+1][..k] == queue[..k];
        assert queue[k].id in Ids(queue);
        if queue[k].id !in pendingRemovals {
          shown := shown + [queue[k]];
        }
      }
      assert queue[..|queue|] == queue;
      queuedPrompts := shown;
    }

    method EditLatestQueuedPrompt() returns (edited: Option<Queued>)
      modifies this`queuedPrompts, this`pendingRemovals, this`input
      ensures Now() == Step(old(Now()), EditLatest)
      ensures edited == if old(queuedPrompts) == [] then None else Some(old(queuedPrompts)[|old(queuedPrompts)|-1])
      ensures input == if edited.Some? then edited.value.text else old(input)
    {
      if queuedPrompts == [] {
        return None;
      }
      var n := |queuedPrompts| - 1;
      var queued := queuedPrompts[n];
      queuedPrompts := queuedPrompts[..n];
      pendingRemovals := pendingRemovals + {queued.id};
      input := queued.text;
      edited := Some(queued);
    }

    method FailQueuedPromptRemoval(prompt: Queued)
      modifies this`queuedPrompts, this`pendingRemovals
      ensures Now() == Step(old(Now()), RemovalFailed(prompt))
    {
      pendingRemovals := pendingRemovals - {prompt.id};
      if prompt.id !in Ids(queuedPrompts) {
        queuedPrompts := queuedPrompts + [prompt];
      }
    }

    method RetainOthers(id: string)
      modifies this`queuedPrompts
      ensures queuedPrompts == Except(old(queuedPrompts), {id})
    {
      var kept: seq<Queued> := [];
      for k := 0 to |queuedPrompts|
        invariant queuedPrompts == old(queuedPrompts) && kept == Except(queuedPrompts[..k], {id})
      {
        assert queuedPrompts[..k+1][..k] == queuedPrompts[..k];
        if queuedPrompts[k].id != id {
          kept := kept + [queuedPrompts[k]];
        }
      }
      assert queuedPrompts[..|queuedPrompts|] == queuedPrompts;
      queuedPrompts := kept;
    }

    method ApplyEvent(seqno: nat, event: QueueEvent)
      modifies this`queuedPrompts, this`pendingRemovals, this`latestSeq
      ensures Now() == Step(old(Now()), Apply(seqno, event))
    {
      if seqno <= latestSeq {
        return;
      }
      match event {
        case Added(prompt) =>
          if prompt.id !in pendingRemovals {
            queuedPrompts := queuedPrompts + [prompt];
          }
        case Removed(id) =>
          RetainOthers(id);
          pendingRemovals := pendingRemovals - {id};
        case Promoted(id) =>
          RetainOthers(id);
          pendingRemovals := pendingRemovals - {id};
        case Cleared =>
          queuedPrompts, pendingRemovals := [], {};
        case OtherEvent =>
      }
      latestSeq := seqno;
    }

    method ResetInteraction()
      modifies this`queuedPrompts
      ensures Now() == Step(old(Now()), Reset)
    {
      queuedPrompts := [];
    }

    method Do(op: Op)
      modifies this
      ensures Now() == Step(old(Now()), op)
    {
      match op
      case Project(queue, ordinal) => ApplyMaterialized(queue, ordinal);
      case EditLatest => var edited := EditLatestQueuedPrompt();
      case RemovalFailed(prompt) => FailQueuedPromptRemoval(prompt);
      case Apply(seqno, event) => ApplyEvent(seqno, event);
      case Reset => ResetInteraction();
    }

    /** Any run of the view: it stays consistent, it shows exactly the prompts
        brought in and not dropped since, and whatever was taken into the composer
        and not released since is not shown. */
    method Play(ops: seq<Op>)
      modifies this
      ensures Now() == Run(old(Now()), ops)
      ensures old(Consistent(Now())) && UniqueRun(old(Now()), ops) ==>
        && Consistent(Now())
        && (forall p :: p in queuedPrompts <==> Kept(old(Now()), ops, p))
        && forall k, id :: TakenAt(old(Now()), ops, k, id) && NotReleasedSince(old(Now()), ops, k, id) ==>
             id in pendingRemovals && id !in Ids(queuedPrompts)
    {
      hide Step, Consistent, UniqueRun, TakenAt, NotReleasedSince, Kept;
      for n := 0 to |ops|
        invariant Now() == Run(old(Now()), ops[..n])
      {
        assert ops[..n+1][..n] == ops[..n];
        Do(ops[n]);
      }
      assert ops[..|ops|] == ops;
      ghost var v := old(Now());
      if Consistent(v) && UniqueRun(v, ops) {
        RunConsistent(v, ops);
        forall p
          ensures p in Run(v, ops).queued <==> Kept(v, ops, p)
        {
          ShownIff(v, ops, p);
        }
        forall k, id | TakenAt(v, ops, k, id) && NotReleasedSince(v, ops, k, id)
          ensures id in Run(v, ops).pending && id !in Ids(Run(v, ops).queued)
        {
          TakenStaysHidden(v, ops, k, id);
        }
      }
    }
  }

  /** Step `k` of the run takes the entry `id` into the composer. */
  predicate TakenAt(v: View, ops: seq<Op>, k: int, id: string) {
    && 0 <= k < |ops| && ops[k] == EditLatest
    && var before := Run(v, ops[..k]);
    before.queued != [] && before.queued[|before.queued|-1].id == id
  }

  predicate NotReleasedSince(v: View, ops: seq<Op>, k: int, id: string) {
    forall j :: 0 <= k < j < |ops| ==> !Releases(Run(v, ops[..j]), ops[j], id)
  }

  lemma {:induction false} RunSplit(v: View, a: seq<Op>, b: seq<Op>)
    ensures Run(v, a + b) == Run(Run(v, a), b)
  {
    hide Step;
    if b == [] {
      assert a + b == a;
    } else {
      assert (a + b)[..|a + b|-1] == a + b[..|b|-1];
      RunSplit(v, a, b[..|b|-1]);
    }
  }

  /** Where the rest of a run stands in the whole run. */
  lemma RestOfRun(v: View, ops: seq<Op>, k: nat, j: nat)
    requires k <= |ops| && j <= |ops| - k
    ensures Run(Run(v, ops[..k]), ops[k..][..j]) == Run(v, ops[..k+j])
  {
    hide Run;
    assert ops[..k+j] == ops[..k] + ops[k..][..j];
    RunSplit(v, ops[..k], ops[k..][..j]);
  }

  lemma RestUnique(v: View, ops: seq<Op>, k: nat, id: string, start: View, rest: seq<Op>)
    requires k < |ops| && UniqueRun(v, ops) && NotReleasedSince(v, ops, k, id)
    requires start == Run(v, ops[..k+1]) && rest == ops[k+1..]
    ensures UniqueRun(start, rest)
    ensures forall j :: 0 <= j < |rest| ==> !Releases(Run(start, rest[..j]), rest[j], id)
  {
    hide Run, Releases, KeepsIdsUnique;
    forall j | 0 <= j < |rest|
      ensures KeepsIdsUnique(Run(start, rest[..j]), rest[j]) && !Releases(Run(start, rest[..j]), rest[j], id)
    {
      RestOfRun(v, ops, k + 1, j);
    }
  }

  lemma RunNext(v: View, ops: seq<Op>, k: nat)
    requires k < |ops|
    ensures Run(v, ops[..k+1]) == Step(Run(v, ops[..k]), ops[k])
  {
    hide Step;
    assert ops[..k+1][..k] == ops[..k];
  }

  lemma TakenStaysHidden(v: View, ops: seq<Op>, k: int, id: string)
    requires Consistent(v) && UniqueRun(v, ops) && TakenAt(v, ops, k, id) && NotReleasedSince(v, ops, k, id)
    ensures id in Run(v, ops).pending && id !in Ids(Run(v, ops).queued)
  {
    hide Step, Run, Releases, KeepsIdsUnique, Ids, UniqueIds, UniqueRun, NotReleasedSince;
    PrefixUnique(v, ops, k);
    RunConsistent(v, ops[..k]);
    RunNext(v, ops, k);
    RestUnique(v, ops, k, id, Run(v, ops[..k+1]), ops[k+1..]);
    HiddenUntilReleased(Run(v, ops[..k]), ops[k+1..], id);
    RestOfRun(v, ops, k + 1, |ops| - k - 1);
    assert ops[k+1..][..|ops| - k - 1] == ops[k+1..] && ops[..|ops|] == ops;
  }

  lemma PrefixUnique(v: View, ops: seq<Op>, k: nat)
    requires UniqueRun(v, ops) && k <= |ops|
    ensures UniqueRun(v, ops[..k])
  {
    hide KeepsIdsUnique, Run;
    forall j | 0 <= j < k
      ensures KeepsIdsUnique(Run(v, ops[..k][..j]), ops[..k][j])
    {
      assert ops[..k][..j] == ops[..j];
    }
  }
}
