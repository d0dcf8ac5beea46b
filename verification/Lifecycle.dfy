/**
 * Tickets moving along the transition table, agents claiming from the two lanes, terminal tickets going to
 * the archive, and exactly which tickets can still be handed out or brought to an end.
 */
module Lifecycle {
  import opened Domain
  import opened Radar
  import opened Validation

  // ---------------------------------------------------------------- lanes and moves

  /** `open_bug_candidates`: dependencies play no part. */
  predicate InBugLane(floor: Option<Priority>, t: Ticket) {
    t.kind.Bug? && (t.status.Open? || t.status.Ready? || t.status.Pending?) && !BelowFloor(floor, t.priority)
  }

  /** `ready_feature_candidates`: the DEV gate. */
  ghost predicate InFeatureLane(s: State, t: Ticket) {
    !t.kind.Bug? && t.status.Ready? && !GateRefuses(s, t)
  }

  /** An agent's claim of the ticket succeeds: a lane lists it and the table has the edge. */
  ghost predicate Claimable(s: State, floor: Option<Priority>, t: Ticket) {
    && (InBugLane(floor, t) || InFeatureLane(s, t))
    && !t.status.InProgress? && TransitionAllowed(t.kind, t.status, InProgress)
  }

  /** Where `release_claim` puts an abandoned ticket back. */
  function Requeued(kind: TicketType): Status {
    if kind.Bug? then Open else Ready
  }

  /** `reclaim_misfiled`: a bug in a feature status. */
  predicate Misfiled(t: Ticket) {
    t.kind.Bug? && (t.status.Pending? || t.status.Ready? || t.status.Done? || t.status.Documented?)
  }

  /** The status changes of the loop: table edges, claims only from a lane, plus the two repairs. */
  ghost predicate CanMove(s: State, t: Ticket, to: Status) {
    || (TransitionAllowed(t.kind, t.status, to)
        && (to.InProgress? && !t.status.InProgress? ==> exists floor :: Claimable(s, floor, t)))
    || (t.status.InProgress? && to == Requeued(t.kind))
    || (Misfiled(t) && to == Open)
  }

  function SetStatus(s: State, id: TicketId, to: Status): (r: State)
    ensures |r| == |s| && forall i :: 0 <= i < |s| ==> r[i] == if s[i].id == id then s[i].(status := to) else s[i]
  {
    seq(|s|, i requires 0 <= i < |s| => if s[i].id == id then s[i].(status := to) else s[i])
  }

  lemma {:induction false} LookupSet(s: State, id: TicketId, to: Status, x: TicketId)
    ensures var t := Lookup(s, x);
      Lookup(SetStatus(s, id, to), x) == if t.Some? && x == id then Some(t.value.(status := to)) else t
    decreases |s|
  {
    if s != [] {
      assert SetStatus(s, id, to)[1..] == SetStatus(s[1..], id, to);
      LookupSet(s[1..], id, to, x);
    }
  }

  // ---------------------------------------------------------------- the archive

  /** What no longer takes part in any lane, as the eviction sweep sees it. */
  predicate Terminal(status: Status) {
    status.Documented? || status.Verified? || status.Rejected?
  }

  /** A subtask of `x` that is not terminal yet. */
  predicate LiveChild(s: State, x: TicketId, c: TicketId) {
    var t := Lookup(s, c);
    t.Some? && t.value.parent == Some(x) && !Terminal(t.value.status)
  }

  ghost predicate HasLiveChild(s: State, x: TicketId) {
    exists c :: LiveChild(s, x, c)
  }

  /** With unique ids that is the sweep's own question: some ticket names it as parent and is not terminal. */
  lemma {:induction false} LiveChildIsAnyTicket(s: State, x: TicketId)
    requires UniqueIds(s)
    ensures HasLiveChild(s, x) <==> exists t :: t in s && t.parent == Some(x) && !Terminal(t.status)
  {
    forall t | t in s ensures Lookup(s, t.id) == Some(t) {
      var i :| 0 <= i < |s| && s[i] == t;
      LookupAt(s, i);
    }
    if t :| t in s && t.parent == Some(x) && !Terminal(t.status) {
      assert LiveChild(s, x, t.id);
    }
  }

  /** A dependency list without one id. */
  function Dropped(deps: seq<TicketId>, id: TicketId): (r: seq<TicketId>)
    ensures forall d :: d in r <==> d in deps && d != id
  {
    if deps == [] then []
    else
      var n := |deps| - 1;
      assert deps == deps[..n] + [deps[n]];
      Dropped(deps[..n], id) + if deps[n] == id then [] else [deps[n]]
  }

  /** The ticket leaves, and with it every edge to it. */
  function Archived(s: State, id: TicketId): State {
    if s == [] then []
    else if s[0].id == id then Archived(s[1..], id)
    else [s[0].(dependsOn := Dropped(s[0].dependsOn, id))] + Archived(s[1..], id)
  }

  lemma {:induction false} LookupArchived(s: State, id: TicketId, x: TicketId)
    ensures var t := Lookup(s, x);
      Lookup(Archived(s, id), x) ==
        if t.None? || x == id then None else Some(t.value.(dependsOn := Dropped(t.value.dependsOn, id)))
    decreases |s|
  {
    if s != [] {
      LookupArchived(s[1..], id, x);
      var rest := Archived(s[1..], id);
      var head := s[0].(dependsOn := Dropped(s[0].dependsOn, id));
      assert ([head] + rest)[0] == head && ([head] + rest)[1..] == rest;
    }
  }

  // ---------------------------------------------------------------- runs

  /** What can happen to a ticket. The last two are a person's doing and pass no gate. */
  datatype Event =
    | Move(id: TicketId, to: Status)
    | Archive(id: TicketId)
    | TakeOver(id: TicketId)
    | MergedByHand(id: TicketId)

  /** `cold` says whether there is a cold store, without which nothing is archived. */
  ghost predicate Allowed(cold: bool, s: State, e: Event) {
    var t := Lookup(s, e.id);
    t.Some? &&
    match e
    case Move(_, to) => CanMove(s, t.value, to)
    case Archive(id) => cold && Terminal(t.value.status) && !HasLiveChild(s, id)
    case TakeOver(_) => t.value.status == Requeued(t.value.kind)
    case MergedByHand(_) => t.value.status.InProgress? || t.value.status == Requeued(t.value.kind)
  }

  ghost function After(s: State, e: Event): State
    requires Lookup(s, e.id).Some?
  {
    match e
    case Move(id, to) => SetStatus(s, id, to)
    case Archive(id) => Archived(s, id)
    case TakeOver(id) => SetStatus(s, id, InProgress)
    case MergedByHand(id) => SetStatus(s, id, if Lookup(s, id).value.kind.Bug? then Fixed else Done)
  }

  /** A step of the loop that rejects nobody. */
  ghost predicate Calm(s: State, e: Event) {
    e.Archive? || (e.Move? && (e.to.Rejected? ==> Lookup(s, e.id).Some? && Lookup(s, e.id).value.status.Rejected?))
  }

  /** Is there a cold store, and do tickets get rejected, by people or by the loop's own clean-ups? */
  datatype Policy = Policy(cold: bool, rejecting: bool)

  /** Everything the loop and its agents do: no take-over and no merge by hand. */
  function Everything(cold: bool): Policy {
    Policy(cold, true)
  }

  /** The same without rejections, where rejected tickets are archived; without a cold store it is everything. */
  function NoRejections(cold: bool): Policy {
    Policy(cold, !cold)
  }

  ghost predicate Unattended(pol: Policy, s: State, e: Event) {
    Calm(s, e) || (e.Move? && pol.rejecting)
  }

  /** One step under a policy. */
  ghost predicate LoopStep(pol: Policy, a: State, b: State) {
    exists e :: StepBy(pol, a, e, b)
  }

  ghost predicate StepBy(pol: Policy, a: State, e: Event, b: State) {
    Allowed(pol.cold, a, e) && Unattended(pol, a, e) && b == After(a, e)
  }

  /** States each one step after the one before. */
  ghost predicate Run(pol: Policy, run: seq<State>) {
    run != [] && forall i :: 0 <= i < |run| - 1 ==> LoopStep(pol, run[i], run[i + 1])
  }

  ghost predicate RunFrom(pol: Policy, run: seq<State>, a: State, b: State) {
    Run(pol, run) && run[0] == a && run[|run| - 1] == b
  }

  lemma RunThen(pol: Policy, run: seq<State>, a: State, b: State, more: seq<State>, c: State)
    requires RunFrom(pol, run, a, b) && RunFrom(pol, more, b, c)
    ensures RunFrom(pol, run + more[1..], a, c)
  {
    var all, n := run + more[1..], |run| - 1;
    assert forall k :: 0 <= k < |run| ==> all[k] == run[k];
    assert forall k :: 0 <= k < |more| ==> all[n + k] == more[k];
    forall i | 0 <= i < |all| - 1 ensures LoopStep(pol, all[i], all[i + 1]) {
      if i < n {
        assert LoopStep(pol, run[i], run[i + 1]);
      } else {
        assert LoopStep(pol, more[i - n], more[i - n + 1]);
      }
    }
  }

  lemma {:induction false} OneStep(pol: Policy, a: State, e: Event)
    requires Allowed(pol.cold, a, e) && Unattended(pol, a, e)
    ensures RunFrom(pol, [a, After(a, e)], a, After(a, e))
  {
    assert StepBy(pol, a, e, After(a, e));
  }

  // ---------------------------------------------------------------- what waits for what

  /** Only the gate can let this ticket through: a feature or chore still to be claimed. */
  predicate GatedTicket(t: Ticket) {
    !t.kind.Bug? && (t.status.Pending? || t.status.Ready? || t.status.OnHold?)
  }

  /** A feature or chore in a bug's status, which the table gives no way out of. */
  predicate StrayTicket(t: Ticket) {
    !t.kind.Bug? && (t.status.Open? || t.status.Fixed?)
  }

  predicate Gated(s: State, id: TicketId) {
    var t := Lookup(s, id);
    t.Some? && GatedTicket(t.value)
  }

  predicate Stray(s: State, id: TicketId) {
    var t := Lookup(s, id);
    t.Some? && StrayTicket(t.value)
  }

  predicate IsRejected(s: State, id: TicketId) {
    var t := Lookup(s, id);
    t.Some? && t.value.status.Rejected?
  }

  /** A gated ticket waits for its unsatisfied dependencies, a rejected one, to be archived, for its live children. */
  predicate Waits(s: State, x: TicketId, y: TicketId) {
    || (Gated(s, x) && Edge(s, x, y) && !Satisfied(s, y))
    || (IsRejected(s, x) && LiveChild(s, x, y))
  }

  /** Nothing ever comes of it: an unknown id, a stray ticket, or without a cold store a rejected one. */
  predicate Dead(cold: bool, s: State, y: TicketId) {
    y !in Ids(s) || Stray(s, y) || (!cold && IsRejected(s, y))
  }

  ghost predicate Trail(s: State, p: seq<TicketId>) {
    p != [] && forall i :: 0 <= i < |p| - 1 ==> Waits(s, p[i], p[i + 1])
  }

  /** Tickets each waiting for the next, up to a dead one or back into the trail. */
  ghost predicate Obstruction(cold: bool, s: State, p: seq<TicketId>) {
    |p| >= 2 && Trail(s, p) && (Dead(cold, s, p[|p| - 1]) || p[|p| - 1] in p[..|p| - 1])
  }

  ghost predicate Obstructed(cold: bool, s: State, id: TicketId) {
    exists p :: Obstruction(cold, s, p) && p[0] == id
  }

  // ---------------------------------------------------------------- obstructions stay

  /** Everything on an obstruction is dead, or waits for something. */
  ghost predicate Held(cold: bool, s: State, x: TicketId) {
    Dead(cold, s, x) || exists y :: Waits(s, x, y)
  }

  lemma {:induction false} AllHeld(cold: bool, s: State, p: seq<TicketId>, i: nat)
    requires Obstruction(cold, s, p) && i < |p|
    ensures Held(cold, s, p[i])
  {
    var n := |p| - 1;
    if i < n {
      assert Waits(s, p[i], p[i + 1]);
    } else if p[n] in p[..n] {
      var k :| 0 <= k < n && p[..n][k] == p[n];
      assert Waits(s, p[k], p[k + 1]);
    }
  }

  /** The four ways of being held. */
  predicate SameStand(a: State, b: State, x: TicketId) {
    && (x !in Ids(a) ==> x !in Ids(b)) && (Stray(a, x) ==> Stray(b, x))
    && (Gated(a, x) ==> Gated(b, x)) && (IsRejected(a, x) ==> IsRejected(b, x))
    && (Lookup(a, x).Some? && Lookup(b, x).Some? ==> Lookup(a, x).value.parent == Lookup(b, x).value.parent)
  }

  lemma {:induction false} RefusedWhileWaiting(s: State, x: TicketId, y: TicketId)
    requires Waits(s, x, y) && Gated(s, x)
    ensures GateRefuses(s, Lookup(s, x).value)
  {
    assert y in Lookup(s, x).value.dependsOn && !Satisfied(s, y);
  }

  lemma GatedMove(s: State, t: Ticket, to: Status)
    requires GatedTicket(t) && GateRefuses(s, t) && CanMove(s, t, to) && !to.Rejected?
    ensures GatedTicket(t.(status := to))
  {
  }

  lemma FixedMove(s: State, t: Ticket, to: Status)
    requires (StrayTicket(t) || t.status.Rejected?) && CanMove(s, t, to)
    ensures to == t.status
  {
  }

  /** What is held keeps its stand when a ticket moves, */
  lemma {:induction false} StandsThroughMove(cold: bool, s: State, id: TicketId, to: Status, x: TicketId)
    requires Held(cold, s, x) && Allowed(cold, s, Move(id, to)) && Calm(s, Move(id, to))
    ensures SameStand(s, SetStatus(s, id, to), x)
  {
    LookupSet(s, id, to, x);
    if x == id {
      var t := Lookup(s, x).value;
      if Gated(s, x) {
        var y :| Waits(s, x, y);
        RefusedWhileWaiting(s, x, y);
        GatedMove(s, t, to);
      } else {
        FixedMove(s, t, to);
      }
    }
  }

  /** and when one is archived. */
  lemma {:induction false} StandsThroughArchive(cold: bool, s: State, id: TicketId, x: TicketId)
    requires Held(cold, s, x) && Allowed(cold, s, Archive(id))
    ensures SameStand(s, Archived(s, id), x) && x != id
  {
    LookupArchived(s, id, x);
  }

  lemma {:induction false} StandsThrough(cold: bool, a: State, e: Event, x: TicketId)
    requires Held(cold, a, x) && Allowed(cold, a, e) && Calm(a, e)
    ensures SameStand(a, After(a, e), x)
    ensures forall z :: Edge(a, z, x) && z in Ids(After(a, e)) ==> Edge(After(a, e), z, x)
  {
    if e.Move? {
      StandsThroughMove(cold, a, e.id, e.to, x);
      forall z ensures DepsOf(After(a, e), z) == DepsOf(a, z) {
        LookupSet(a, e.id, e.to, z);
      }
    } else {
      StandsThroughArchive(cold, a, e.id, x);
      forall z | z in Ids(After(a, e)) && Edge(a, z, x) ensures Edge(After(a, e), z, x) {
        LookupArchived(a, e.id, z);
      }
    }
  }

  /** A held ticket that keeps its stand satisfies nobody, */
  lemma {:induction false} StillUnsatisfied(cold: bool, a: State, b: State, y: TicketId)
    requires Held(cold, a, y) && SameStand(a, b, y)
    ensures !Satisfied(b, y)
  {
  }

  /** and as a live child stays one. */
  lemma {:induction false} StillLive(cold: bool, a: State, b: State, x: TicketId, y: TicketId)
    requires Held(cold, a, y) && SameStand(a, b, y) && LiveChild(a, x, y)
    ensures LiveChild(b, x, y)
  {
  }

  /** So one ticket waits for the next as before. */
  lemma {:induction false} StillWaits(cold: bool, a: State, e: Event, x: TicketId, y: TicketId)
    requires Waits(a, x, y) && Held(cold, a, y) && Allowed(cold, a, e) && Calm(a, e)
    ensures Waits(After(a, e), x, y)
  {
    assert Held(cold, a, x);
    StandsThrough(cold, a, e, x);
    StandsThrough(cold, a, e, y);
    if Gated(a, x) {
      StillUnsatisfied(cold, a, After(a, e), y);
    } else {
      StillLive(cold, a, After(a, e), x, y);
    }
  }

  lemma {:induction false} TrailStays(cold: bool, a: State, e: Event, b: State, p: seq<TicketId>)
    requires Obstruction(cold, a, p) && StepBy(NoRejections(cold), a, e, b) && Calm(a, e)
    ensures Trail(b, p)
  {
    forall i | 0 <= i < |p| - 1 ensures Waits(b, p[i], p[i + 1]) {
      assert Waits(a, p[i], p[i + 1]);
      AllHeld(cold, a, p, i + 1);
      StillWaits(cold, a, e, p[i], p[i + 1]);
    }
  }

  lemma {:induction false} EndStays(cold: bool, a: State, e: Event, b: State, p: seq<TicketId>)
    requires Obstruction(cold, a, p) && StepBy(NoRejections(cold), a, e, b) && Calm(a, e)
    ensures Dead(cold, a, p[|p| - 1]) ==> Dead(cold, b, p[|p| - 1])
  {
    AllHeld(cold, a, p, |p| - 1);
    StandsThrough(cold, a, e, p[|p| - 1]);
  }

  /** Known, and dead or obstructed. */
  ghost predicate Stuck(cold: bool, s: State, id: TicketId) {
    id in Ids(s) && (Dead(cold, s, id) || Obstructed(cold, s, id))
  }

  /** The first rejected ticket of a trail, or its length. */
  ghost function FirstRejected(s: State, p: seq<TicketId>): (k: nat)
    ensures k <= |p| && (k < |p| ==> IsRejected(s, p[k])) && forall i :: 0 <= i < k ==> !IsRejected(s, p[i])
  {
    if p == [] || IsRejected(s, p[0]) then 0
    else
      var k := 1 + FirstRejected(s, p[1..]);
      assert forall i :: 1 <= i < |p| ==> p[i] == p[1..][i - 1];
      k
  }

  lemma {:induction false} RejectedOnly(a: State, id: TicketId, x: TicketId)
    requires Lookup(a, id).Some?
    ensures var b := SetStatus(a, id, Rejected);
      && (x != id ==> Lookup(b, x) == Lookup(a, x)) && DepsOf(b, x) == DepsOf(a, x)
      && (x in Ids(b) <==> x in Ids(a)) && IsRejected(b, id)
  {
    LookupSet(a, id, Rejected, x);
    LookupSet(a, id, Rejected, id);
  }

  lemma {:induction false} WaitsThroughRejection(a: State, id: TicketId, x: TicketId, y: TicketId)
    requires Lookup(a, id).Some? && Waits(a, x, y) && !IsRejected(SetStatus(a, id, Rejected), x)
    ensures Waits(SetStatus(a, id, Rejected), x, y)
  {
    RejectedOnly(a, id, x);
    RejectedOnly(a, id, y);
  }

  lemma {:induction false} DeadThroughRejection(a: State, id: TicketId, x: TicketId)
    requires Lookup(a, id).Some? && Dead(false, a, x)
    ensures Dead(false, SetStatus(a, id, Rejected), x)
  {
    RejectedOnly(a, id, x);
  }

  /** Up to the first rejected ticket a trail survives a rejection. */
  lemma {:induction false} TrailToRejected(a: State, id: TicketId, p: seq<TicketId>, k: nat)
    requires Lookup(a, id).Some? && Trail(a, p) && k < |p|
    requires forall i :: 0 <= i < k ==> !IsRejected(SetStatus(a, id, Rejected), p[i])
    ensures Trail(SetStatus(a, id, Rejected), p[..k + 1])
  {
    var q := p[..k + 1];
    forall i | 0 <= i < |q| - 1 ensures Waits(SetStatus(a, id, Rejected), q[i], q[i + 1]) {
      assert Waits(a, p[i], p[i + 1]);
      WaitsThroughRejection(a, id, p[i], p[i + 1]);
    }
  }

  lemma {:induction false} WholeTrail(a: State, id: TicketId, p: seq<TicketId>)
    requires Lookup(a, id).Some? && Trail(a, p)
    requires forall i :: 0 <= i < |p| ==> !IsRejected(SetStatus(a, id, Rejected), p[i])
    ensures Trail(SetStatus(a, id, Rejected), p)
  {
    TrailToRejected(a, id, p, |p| - 1);
    assert p[..|p|] == p;
  }

  lemma {:induction false} TrailUntouched(a: State, id: TicketId, b: State, p: seq<TicketId>)
    requires Lookup(a, id).Some? && b == SetStatus(a, id, Rejected) && Obstruction(false, a, p) && Trail(b, p)
    ensures Obstruction(false, b, p)
  {
    if Dead(false, a, p[|p| - 1]) {
      DeadThroughRejection(a, id, p[|p| - 1]);
    }
  }

  lemma {:induction false} TrailCutShort(a: State, id: TicketId, p: seq<TicketId>, k: nat)
    requires Lookup(a, id).Some? && Trail(a, p) && 0 < k < |p| && IsRejected(SetStatus(a, id, Rejected), p[k])
    requires forall i :: 0 <= i < k ==> !IsRejected(SetStatus(a, id, Rejected), p[i])
    ensures Obstructed(false, SetStatus(a, id, Rejected), p[0])
  {
    TrailToRejected(a, id, p, k);
    assert Obstruction(false, SetStatus(a, id, Rejected), p[..k + 1]);
  }

  /** Without a cold store a rejection only brings the dead end nearer. */
  lemma {:induction false} StuckThroughRejection(a: State, id: TicketId, p: seq<TicketId>)
    requires Lookup(a, id).Some? && Obstruction(false, a, p)
    ensures Stuck(false, SetStatus(a, id, Rejected), p[0])
  {
    assert Waits(a, p[0], p[1]);
    RejectedOnly(a, id, p[0]);
    var k := FirstRejected(SetStatus(a, id, Rejected), p);
    if k == |p| {
      WholeTrail(a, id, p);
      TrailUntouched(a, id, SetStatus(a, id, Rejected), p);
    } else if k > 0 {
      TrailCutShort(a, id, p, k);
    }
  }

  lemma {:induction false} DeadStays(cold: bool, a: State, e: Event, b: State, id: TicketId)
    requires Dead(cold, a, id) && StepBy(NoRejections(cold), a, e, b)
    ensures SameStand(a, b, id)
  {
    if Calm(a, e) {
      StandsThrough(cold, a, e, id);
    } else {
      LookupSet(a, e.id, e.to, id);
      if id == e.id {
        FixedMove(a, Lookup(a, id).value, e.to);
      }
    }
  }

  /** No step without rejections gets a stuck ticket out; without a cold store no step of the loop at all. */
  lemma {:induction false} StuckStays(cold: bool, a: State, e: Event, b: State, id: TicketId)
    requires Stuck(cold, a, id) && StepBy(NoRejections(cold), a, e, b)
    ensures Stuck(cold, b, id)
  {
    if Dead(cold, a, id) {
      DeadStays(cold, a, e, b, id);
    } else {
      var p :| Obstruction(cold, a, p) && p[0] == id;
      assert Waits(a, p[0], p[1]);
      if Calm(a, e) {
        TrailStays(cold, a, e, b, p);
        EndStays(cold, a, e, b, p);
        assert Obstruction(cold, b, p);
        assert Waits(b, p[0], p[1]);
      } else {
        StuckThroughRejection(a, e.id, p);
      }
    }
  }

  lemma {:induction false} StuckWithoutRejections(cold: bool, run: seq<State>, i: nat, id: TicketId)
    requires Run(NoRejections(cold), run) && i < |run| && Stuck(cold, run[0], id)
    ensures Stuck(cold, run[i], id)
    decreases i
  {
    if i > 0 {
      StuckWithoutRejections(cold, run, i - 1, id);
      assert LoopStep(NoRejections(cold), run[i - 1], run[i]);
      var e :| StepBy(NoRejections(cold), run[i - 1], e, run[i]);
      StuckStays(cold, run[i - 1], e, run[i], id);
    }
  }

  /** It is neither finished nor handed out. */
  lemma {:induction false} StuckMeans(cold: bool, s: State, id: TicketId)
    requires Stuck(cold, s, id)
    ensures Unfinished(s, id) && !InFeatureLane(s, Lookup(s, id).value)
  {
    if p :| Obstruction(cold, s, p) && p[0] == id {
      assert Waits(s, p[0], p[1]);
    }
  }

  // ---------------------------------------------------------------- finishing a ticket

  /** Nobody holds it up: not terminal, not stray, and if gated then let through. */
  ghost predicate Finishable(s: State, t: Ticket) {
    !Terminal(t.status) && !StrayTicket(t) && (GatedTicket(t) ==> !GateRefuses(s, t))
  }

  function FinalStatus(kind: TicketType): Status {
    if kind.Bug? then Verified else Documented
  }

  ghost function Finished(s: State, id: TicketId): State
    requires Lookup(s, id).Some?
  {
    SetStatus(s, id, FinalStatus(Lookup(s, id).value.kind))
  }

  lemma SetTwice(s: State, id: TicketId, a: Status, b: Status)
    ensures SetStatus(SetStatus(s, id, a), id, b) == SetStatus(s, id, b)
  {
  }

  /** The next status on the way to the end. */
  function NextStatus(t: Ticket): Status {
    if t.kind.Bug? then
      match t.status
      case Open => InProgress
      case InProgress => Fixed
      case Fixed => Verified
      case _ => Open
    else
      match t.status
      case Pending => Ready
      case Ready => InProgress
      case OnHold => Pending
      case InProgress => Done
      case _ => Documented
  }

  /** How many moves are left. */
  function MovesLeft(t: Ticket): nat {
    if t.kind.Bug? then
      match t.status
      case Open => 3
      case InProgress => 2
      case Fixed => 1
      case _ => 4
    else
      match t.status
      case OnHold => 5
      case Pending => 4
      case Ready => 3
      case InProgress => 2
      case _ => 1
  }

  lemma NextMove(s: State, t: Ticket)
    requires Finishable(s, t)
    ensures CanMove(s, t, NextStatus(t)) && !NextStatus(t).Rejected?
  {
    if t.kind.Bug? && t.status.Open? {
      assert Claimable(s, None, t);
    } else if t.status.Ready? && !t.kind.Bug? {
      assert Claimable(s, None, t);
    }
  }

  lemma NextIsNearer(t: Ticket)
    requires !Terminal(t.status) && !StrayTicket(t)
    ensures var t' := t.(status := NextStatus(t));
      if MovesLeft(t) == 1 then NextStatus(t) == FinalStatus(t.kind)
      else MovesLeft(t') < MovesLeft(t) && !Terminal(t'.status) && !StrayTicket(t') && (GatedTicket(t') ==> GatedTicket(t))
  {
  }

  /** A ticket that was let through is let through when it has moved itself. */
  lemma {:induction false} GateUnmoved(s: State, t: Ticket, to: Status)
    requires Lookup(s, t.id) == Some(t) && GatedTicket(t) && !GateRefuses(s, t)
    ensures !GateRefuses(SetStatus(s, t.id, to), t.(status := to))
  {
    forall d | d in t.dependsOn ensures Satisfied(SetStatus(s, t.id, to), d) {
      LookupSet(s, t.id, to, d);
      assert Satisfied(s, d);
    }
  }

  lemma {:induction false} StaysFinishable(s: State, t: Ticket)
    requires Lookup(s, t.id) == Some(t) && Finishable(s, t) && MovesLeft(t) > 1
    ensures Finishable(SetStatus(s, t.id, NextStatus(t)), t.(status := NextStatus(t)))
  {
    NextIsNearer(t);
    if GatedTicket(t) {
      GateUnmoved(s, t, NextStatus(t));
    }
  }

  /** Such a ticket can be finished by moves of its own alone. */
  lemma {:induction false} CanFinish(pol: Policy, s: State, t: Ticket) returns (run: seq<State>)
    requires Lookup(s, t.id) == Some(t) && Finishable(s, t)
    ensures RunFrom(pol, run, s, Finished(s, t.id))
    decreases MovesLeft(t)
  {
    var to := NextStatus(t);
    var next, t' := SetStatus(s, t.id, to), t.(status := to);
    NextMove(s, t);
    NextIsNearer(t);
    OneStep(pol, s, Move(t.id, to));
    run := [s, next];
    if MovesLeft(t) > 1 {
      LookupSet(s, t.id, to, t.id);
      StaysFinishable(s, t);
      SetTwice(s, t.id, to, FinalStatus(t.kind));
      var more := CanFinish(pol, next, t');
      RunThen(pol, run, s, next, more, Finished(s, t.id));
      run := run + more[1..];
    }
  }

  // ---------------------------------------------------------------- clearing the way

  /** Waits for nothing, and something can come of it: it can be finished, or if rejected archived. */
  ghost predicate Clearable(cold: bool, s: State, x: TicketId) {
    && !Dead(cold, s, x) && (forall y :: !Waits(s, x, y))
    && !(Lookup(s, x).value.status.Documented? || Lookup(s, x).value.status.Verified?)
  }

  /** The state with the ticket out of everybody's way. */
  ghost function Cleared(s: State, x: TicketId): State
    requires Lookup(s, x).Some?
  {
    if Lookup(s, x).value.status.Rejected? then Archived(s, x) else Finished(s, x)
  }

  lemma {:induction false} CanClear(cold: bool, s: State, x: TicketId) returns (run: seq<State>)
    requires Clearable(cold, s, x)
    ensures RunFrom(NoRejections(cold), run, s, Cleared(s, x))
  {
    var t := Lookup(s, x).value;
    if t.status.Rejected? {
      assert forall y :: LiveChild(s, x, y) ==> Waits(s, x, y);
      OneStep(NoRejections(cold), s, Archive(x));
      run := [s, Archived(s, x)];
    } else {
      assert forall d :: d in t.dependsOn && GatedTicket(t) && !Satisfied(s, d) ==> Waits(s, x, d);
      run := CanFinish(NoRejections(cold), s, t);
    }
  }

  /** What clearing one ticket leaves of another. */
  predicate Reduced(t: Option<Ticket>, t': Option<Ticket>) {
    && t.None? == t'.None?
    && (t.Some? ==> SameButEdges(t.value, t'.value))
  }

  predicate SameButEdges(t: Ticket, t': Ticket) {
    && t'.kind == t.kind && t'.status == t.status && t'.parent == t.parent
    && forall d :: d in t'.dependsOn ==> d in t.dependsOn
  }

  /** After that it is gone or ended, and everything else is as it was, less edges to it. */
  lemma {:induction false} AfterClearing(s: State, x: TicketId, y: TicketId)
    requires Lookup(s, x).Some?
    ensures var b := Cleared(s, x);
      if y != x then Reduced(Lookup(s, y), Lookup(b, y))
      else Lookup(b, x).None? || Lookup(b, x).value.status == FinalStatus(Lookup(s, x).value.kind)
    ensures Edge(Cleared(s, x), y, x) ==> x in Ids(Cleared(s, x))
  {
    if Lookup(s, x).value.status.Rejected? {
      LookupArchived(s, x, y);
      LookupArchived(s, x, x);
    } else {
      LookupSet(s, x, FinalStatus(Lookup(s, x).value.kind), y);
      LookupSet(s, x, FinalStatus(Lookup(s, x).value.kind), x);
    }
  }

  /** Nobody waits for it any more, nor does it wait. */
  lemma {:induction false} ClearedAside(s: State, x: TicketId, y: TicketId)
    requires Lookup(s, x).Some?
    ensures !Waits(Cleared(s, x), y, x) && !Waits(Cleared(s, x), x, y)
  {
    AfterClearing(s, x, x);
    AfterClearing(s, x, y);
  }

  lemma {:induction false} WaitedBefore(s: State, x: TicketId, u: TicketId, v: TicketId)
    requires Lookup(s, x).Some? && Waits(Cleared(s, x), u, v)
    ensures u != x && v != x && Waits(s, u, v)
  {
    ClearedAside(s, x, u);
    ClearedAside(s, x, v);
    AfterClearing(s, x, u);
    AfterClearing(s, x, v);
  }

  lemma {:induction false} ObstructedBefore(cold: bool, s: State, x: TicketId, p: seq<TicketId>)
    requires Lookup(s, x).Some? && Obstruction(cold, Cleared(s, x), p)
    ensures Obstruction(cold, s, p)
  {
    var b, n := Cleared(s, x), |p| - 1;
    forall i | 0 <= i < n ensures Waits(s, p[i], p[i + 1]) {
      assert Waits(b, p[i], p[i + 1]);
      WaitedBefore(s, x, p[i], p[i + 1]);
    }
    assert Waits(b, p[n - 1], p[n]);
    WaitedBefore(s, x, p[n - 1], p[n]);
    AfterClearing(s, x, p[n]);
  }

  lemma {:induction false} StaysUnobstructed(cold: bool, s: State, x: TicketId, root: TicketId)
    requires Lookup(s, x).Some? && !Obstructed(cold, s, root)
    ensures !Obstructed(cold, Cleared(s, x), root)
  {
    forall p | Obstruction(cold, Cleared(s, x), p) ensures p[0] != root {
      ObstructedBefore(cold, s, x, p);
    }
  }

  /** Tickets that have not come to a good end. */
  ghost function Unsettled(s: State): set<TicketId> {
    set x | x in Ids(s) && !Lookup(s, x).value.status.Documented? && !Lookup(s, x).value.status.Verified?
  }

  lemma {:induction false} FewerLeft(cold: bool, s: State, x: TicketId)
    requires Clearable(cold, s, x)
    ensures Unsettled(Cleared(s, x)) == Unsettled(s) - {x} && x in Unsettled(s)
  {
    forall y ensures y in Unsettled(Cleared(s, x)) <==> y in Unsettled(s) && y != x {
      AfterClearing(s, x, y);
      assert y in Ids(s) <==> Lookup(s, y).Some?;
    }
  }

  // ---------------------------------------------------------------- following the trail

  ghost function Members(p: seq<TicketId>): set<TicketId> {
    set x | x in p
  }

  lemma GrowsBy(p: seq<TicketId>, d: TicketId)
    ensures Members(p + [d]) == Members(p) + {d} && (d in Members(p) <==> d in p)
  {
  }

  /** What an unobstructed trail meets next is new and not dead. */
  lemma {:induction false} NextOnTrail(cold: bool, s: State, p: seq<TicketId>, y: TicketId)
    requires Trail(s, p) && Waits(s, p[|p| - 1], y) && !Obstructed(cold, s, p[0])
    ensures Trail(s, p + [y]) && y !in p && !Dead(cold, s, y)
  {
    var q := p + [y];
    assert Trail(s, q) && q[..|q| - 1] == p;
    assert !Obstruction(cold, s, q);
  }

  /** It ends at a ticket that can be cleared. */
  lemma {:induction false} FollowToClearable(cold: bool, s: State, p: seq<TicketId>, y: TicketId) returns (x: TicketId)
    requires Trail(s, p) && Waits(s, p[|p| - 1], y) && !Obstructed(cold, s, p[0])
    ensures Clearable(cold, s, x) && x !in p
    decreases Ids(s) - Members(p)
  {
    NextOnTrail(cold, s, p, y);
    x := y;
    if z :| Waits(s, y, z) {
      GrowsBy(p, y);
      x := FollowToClearable(cold, s, p + [y], z);
    }
  }

  /** Clearing what an unobstructed ticket waits for, one after the other, leaves it waiting for nothing. */
  lemma {:induction false} ClearTheWay(cold: bool, s: State, id: TicketId) returns (run: seq<State>, b: State)
    requires id in Ids(s) && !Obstructed(cold, s, id)
    ensures RunFrom(NoRejections(cold), run, s, b) && (forall y :: !Waits(b, id, y)) && Reduced(Lookup(s, id), Lookup(b, id))
    decreases Unsettled(s)
  {
    run, b := [s], s;
    if y :| Waits(s, id, y) {
      var x := FollowToClearable(cold, s, [id], y);
      var c := Cleared(s, x);
      var first := CanClear(cold, s, x);
      StaysUnobstructed(cold, s, x, id);
      FewerLeft(cold, s, x);
      AfterClearing(s, x, id);
      run, b := ClearTheWay(cold, c, id);
      RunThen(NoRejections(cold), first, s, c, run, b);
      run := first + run[1..];
    }
  }

  // ---------------------------------------------------------------- the exact conditions

  /** Some run brings the ticket to its end, or into the archive. */
  ghost predicate CanEnd(pol: Policy, s: State, id: TicketId) {
    exists run :: Run(pol, run) && run[0] == s && !Unfinished(run[|run| - 1], id)
  }

  /**
   * On every state, cyclic or not: an unfinished ticket is finished or archived in some run without
   * rejections exactly when it is not dead and no trail of waiting tickets leads from it to a dead one or into itself.
   */
  lemma {:induction false} EndsWithoutRejections(cold: bool, s: State, id: TicketId)
    requires Unfinished(s, id)
    ensures CanEnd(NoRejections(cold), s, id) <==> !Dead(cold, s, id) && !Obstructed(cold, s, id)
  {
    if Stuck(cold, s, id) {
      forall run | Run(NoRejections(cold), run) && run[0] == s ensures Unfinished(run[|run| - 1], id) {
        StuckWithoutRejections(cold, run, |run| - 1, id);
        StuckMeans(cold, run[|run| - 1], id);
      }
    } else {
      var run := EndIt(cold, s, id);
    }
  }

  lemma {:induction false} EndIt(cold: bool, s: State, id: TicketId) returns (run: seq<State>)
    requires Unfinished(s, id) && !Dead(cold, s, id) && !Obstructed(cold, s, id)
    ensures Run(NoRejections(cold), run) && run[0] == s && !Unfinished(run[|run| - 1], id)
  {
    var first, b := ClearTheWay(cold, s, id);
    var last := CanClear(cold, b, id);
    AfterClearing(b, id, id);
    RunThen(NoRejections(cold), first, s, b, last, Cleared(b, id));
    run := first + last[1..];
  }

  /** Ready, and not a bug: what the feature lane is for. */
  predicate ReadyWork(s: State, id: TicketId) {
    var t := Lookup(s, id);
    t.Some? && !t.value.kind.Bug? && t.value.status.Ready?
  }

  ghost predicate HandedOut(s: State, id: TicketId) {
    Lookup(s, id).Some? && InFeatureLane(s, Lookup(s, id).value)
  }

  /** The ticket is handed out in some run. */
  ghost predicate Releasable(pol: Policy, s: State, id: TicketId) {
    exists run :: Run(pol, run) && run[0] == s && HandedOut(run[|run| - 1], id)
  }

  /** And a Ready feature or chore is handed out in some such run exactly when nothing obstructs it. */
  lemma {:induction false} ReleasableWithoutRejections(cold: bool, s: State, id: TicketId)
    requires ReadyWork(s, id)
    ensures Releasable(NoRejections(cold), s, id) <==> !Obstructed(cold, s, id)
  {
    if Obstructed(cold, s, id) {
      forall run | Run(NoRejections(cold), run) && run[0] == s ensures !HandedOut(run[|run| - 1], id) {
        StuckWithoutRejections(cold, run, |run| - 1, id);
        StuckMeans(cold, run[|run| - 1], id);
      }
    } else {
      var run, b := ClearTheWay(cold, s, id);
      var t := Lookup(b, id).value;
      assert forall d :: d in t.dependsOn && !Satisfied(b, d) ==> Waits(b, id, d);
      assert HandedOut(b, id);
    }
  }

  // ---------------------------------------------------------------- validated states

  lemma NoWayBack(s: State, p: seq<TicketId>)
    requires Acyclic(s) && |p| >= 2 && Walk(s, p)
    ensures p[|p| - 1] !in p[..|p| - 1]
  {
    var n := |p| - 1;
    forall i: nat | i < n ensures p[i] != p[n] {
      WalkFrom(s, p, i);
      var q := p[i..];
      assert q[0] == p[i] && q[|q| - 1] == p[n] && |q| >= 2;
      assert Reaches(s, p[i], p[n]);
      assert !OnCycle(s, p[n]);
    }
  }

  /** What validation leaves to obstruct: a dead ticket, or a rejected one on a closed trail. */
  ghost predicate Snag(cold: bool, s: State, p: seq<TicketId>) {
    && |p| >= 2 && Trail(s, p)
    && (|| Stray(s, p[|p| - 1]) || (!cold && IsRejected(s, p[|p| - 1]))
        || (p[|p| - 1] in p[..|p| - 1] && exists i :: 0 <= i < |p| - 1 && IsRejected(s, p[i])))
  }

  lemma {:induction false} SnagsOnly(cold: bool, s: State, p: seq<TicketId>)
    requires WellFormed(s) && Obstruction(cold, s, p)
    ensures Snag(cold, s, p)
  {
    var n := |p| - 1;
    assert Waits(s, p[n - 1], p[n]);
    if Edge(s, p[n - 1], p[n]) {
      EdgeOfTicket(s, p[n - 1], p[n]);
    }
    assert p[n] in Ids(s);
    if forall i :: 0 <= i < n ==> !IsRejected(s, p[i]) {
      forall i | 0 <= i < n ensures Edge(s, p[i], p[i + 1]) {
        assert Waits(s, p[i], p[i + 1]);
      }
      NoWayBack(s, p);
    }
  }

  /**
   * Once a state is validated, only these keep a Ready ticket from being handed out in any run without
   * rejections: a stray ticket or, without a cold store, a rejected one upstream, or a trail that closes
   * through a rejected ticket's subtask.
   */
  lemma {:induction false} ValidatedWithoutRejections(cold: bool, s: State, id: TicketId)
    requires WellFormed(s) && ReadyWork(s, id)
    ensures Releasable(NoRejections(cold), s, id) <==> !exists p :: Snag(cold, s, p) && p[0] == id
  {
    ReleasableWithoutRejections(cold, s, id);
    if p :| Snag(cold, s, p) && p[0] == id {
      assert Obstruction(cold, s, p);
    }
    if p :| Obstruction(cold, s, p) && p[0] == id {
      SnagsOnly(cold, s, p);
    }
  }

  /** In particular nothing is stuck where archiving is on and no rejected ticket has a subtask under way. */
  lemma {:induction false} NeverStuckWithoutRejections(s: State, id: TicketId)
    requires WellFormed(s) && ReadyWork(s, id)
    requires forall x :: !Stray(s, x) && (IsRejected(s, x) ==> !HasLiveChild(s, x))
    ensures Releasable(NoRejections(true), s, id)
  {
    forall p | Trail(s, p) && |p| >= 2 ensures !Snag(true, s, p) {
      forall i | 0 <= i < |p| - 1 ensures !IsRejected(s, p[i]) {
        assert Waits(s, p[i], p[i + 1]);
        assert LiveChild(s, p[i], p[i + 1]) ==> HasLiveChild(s, p[i]);
      }
    }
    ValidatedWithoutRejections(true, s, id);
  }

  // ---------------------------------------------------------------- a rejected dependency

  lemma TrailGoesOn(s: State, p: seq<TicketId>, i: nat)
    requires Trail(s, p) && i < |p| - 1
    ensures exists y :: Waits(s, p[i], y)
  {
    assert Waits(s, p[i], p[i + 1]);
  }

  /** A ticket waiting for one other only, which waits for nothing and is not dead, is not obstructed. */
  lemma {:induction false} ShortTrail(cold: bool, s: State, id: TicketId, g: TicketId)
    requires forall y :: Waits(s, id, y) ==> y == g
    requires (forall y :: !Waits(s, g, y)) && !Dead(cold, s, g) && g != id
    ensures !Obstructed(cold, s, id)
  {
    forall p | |p| >= 2 && Trail(s, p) && p[0] == id ensures !Obstruction(cold, s, p) {
      assert Waits(s, p[0], p[1]);
      if |p| > 2 {
        TrailGoesOn(s, p, 1);
      }
    }
  }

  /** `b` depends on a rejected `a`. */
  function RejectedDependency(): State {
    [ Ticket("a", Feature, "", "", Medium, Rejected, [], None),
      Ticket("b", Feature, "", "", Medium, Ready, ["a"], None) ]
  }

  lemma {:induction false} RejectedLookups()
    ensures var s := RejectedDependency();
      Lookup(s, "a") == Some(s[0]) && Lookup(s, "b") == Some(s[1]) && Ids(s) == {"a", "b"} && UniqueIds(s)
  {
    var s := RejectedDependency();
    assert s[0].id == "a" && s[1].id == "b";
    LookupAt(s, 0);
    LookupAt(s, 1);
  }

  lemma {:induction false} RejectedIsValid()
    ensures WellFormed(RejectedDependency()) && ReadyWork(RejectedDependency(), "b")
  {
    var s := RejectedDependency();
    RejectedLookups();
    forall p | Walk(s, p) && |p| >= 2 ensures p[0] != p[|p| - 1] {
      assert Edge(s, p[0], p[1]) && Edge(s, p[|p| - 2], p[|p| - 1]);
      assert p[0] == "b" && p[|p| - 1] == "a";
    }
  }

  /** A rejected dependency keeps its dependent waiting for ever exactly where nothing is archived. */
  lemma {:induction false} RejectedDependencyExactly(cold: bool)
    ensures WellFormed(RejectedDependency()) && (Releasable(NoRejections(cold), RejectedDependency(), "b") <==> cold)
  {
    var s := RejectedDependency();
    RejectedLookups();
    RejectedIsValid();
    ReleasableWithoutRejections(cold, s, "b");
    if cold {
      ShortTrail(cold, s, "b", "a");
    } else {
      assert Waits(s, "b", "a");
      assert Obstruction(cold, s, ["b", "a"]);
    }
  }

  // ---------------------------------------------------------------- blockers to take now

  /** A blocker with nothing of its own to wait for. */
  ghost predicate Frontier(s: State, root: TicketId, x: TicketId) {
    Blocks(s, root, x) && !GateRefuses(s, Lookup(s, x).value)
  }

  /** Not in the status agents claim from. */
  predicate OutOfLane(floor: Option<Priority>, t: Ticket) {
    if t.kind.Bug? then !t.status.Open? || BelowFloor(floor, t.priority) else !t.status.Ready?
  }

  lemma {:induction false} BlockerKnown(s: State, id: TicketId, x: TicketId)
    requires Blocks(s, id, x)
    ensures Unfinished(s, x)
  {
    var p :| BlockingWalk(s, p) && |p| >= 2 && p[0] == id && p[|p| - 1] == x;
  }

  lemma {:induction false} FollowToFrontier(s: State, p: seq<TicketId>) returns (x: TicketId)
    requires WellFormed(s) && BlockingWalk(s, p) && Lookup(s, p[|p| - 1]).Some?
    requires GateRefuses(s, Lookup(s, p[|p| - 1]).value)
    ensures Frontier(s, p[0], x)
    decreases Ids(s) - Members(p)
  {
    x :| x in Lookup(s, p[|p| - 1]).value.dependsOn && !Satisfied(s, x);
    EdgeOfTicket(s, p[|p| - 1], x);
    LongerBlockingWalk(s, p, x);
    if GateRefuses(s, Lookup(s, x).value) {
      GrowsBy(p, x);
      x := FollowToFrontier(s, p + [x]);
    }
  }

  lemma {:induction false} LongerBlockingWalk(s: State, p: seq<TicketId>, x: TicketId)
    requires Acyclic(s) && BlockingWalk(s, p) && Edge(s, p[|p| - 1], x) && Unfinished(s, x)
    ensures BlockingWalk(s, p + [x]) && x !in p && Blocks(s, p[0], x)
  {
    var q := p + [x];
    assert BlockingWalk(s, q) && q[..|q| - 1] == p;
    NoWayBack(s, q);
  }

  /**
   * In a validated state a ticket the gate refuses always has a blocker with nothing left to wait for. So if
   * every blocker stands in the status agents claim from, one of them can be claimed; and if none can, some
   * blocker is out of lane although nothing holds it up.
   */
  lemma {:induction false} BlockerToTake(s: State, floor: Option<Priority>, id: TicketId)
    requires WellFormed(s) && Lookup(s, id).Some? && GateRefuses(s, Lookup(s, id).value)
    ensures (forall x :: Blocks(s, id, x) ==> !OutOfLane(floor, Lookup(s, x).value))
      ==> exists x :: Blocks(s, id, x) && Claimable(s, floor, Lookup(s, x).value)
    ensures (forall x :: Blocks(s, id, x) ==> !Claimable(s, floor, Lookup(s, x).value))
      ==> exists x :: Frontier(s, id, x) && OutOfLane(floor, Lookup(s, x).value)
  {
    assert BlockingWalk(s, [id]);
    var f := FollowToFrontier(s, [id]);
    BlockerKnown(s, id, f);
    var t := Lookup(s, f).value;
    assert Claimable(s, floor, t) <==> !OutOfLane(floor, t);
  }

  // ---------------------------------------------------------------- cycles

  /** A closed walk of unfinished tickets. */
  ghost predicate Ring(s: State, p: seq<TicketId>) {
    |p| >= 2 && Walk(s, p) && p[0] == p[|p| - 1] && forall i :: 0 <= i < |p| ==> Unfinished(s, p[i])
  }

  /** Nobody on the ring ever comes to an end. */
  ghost predicate Deadlocked(cold: bool, s: State, p: seq<TicketId>) {
    forall i :: 0 <= i < |p| ==> !CanEnd(NoRejections(cold), s, p[i])
  }

  /** Each is gated or stray, or rejected and never archived. */
  ghost predicate Locked(cold: bool, s: State, p: seq<TicketId>) {
    forall i :: 0 <= i < |p| ==> LockedIn(cold, s, p[i])
  }

  ghost predicate LockedIn(cold: bool, s: State, x: TicketId) {
    Gated(s, x) || Stray(s, x) || (IsRejected(s, x) && (!cold || Obstructed(cold, s, x)))
  }

  lemma {:induction false} TrailThen(cold: bool, s: State, q: seq<TicketId>, y: TicketId)
    requires Trail(s, q) && Waits(s, q[|q| - 1], y) && Obstructed(cold, s, y)
    ensures Obstructed(cold, s, q[0])
  {
    var p :| Obstruction(cold, s, p) && p[0] == y;
    var all, n := q + p, |q|;
    forall i | 0 <= i < |all| - 1 ensures Waits(s, all[i], all[i + 1]) {
      if i >= n {
        assert Waits(s, p[i - n], p[i - n + 1]);
      }
    }
    if p[|p| - 1] in p[..|p| - 1] {
      var k :| 0 <= k < |p| - 1 && p[..|p| - 1][k] == p[|p| - 1];
      assert all[..|all| - 1][n + k] == p[|p| - 1];
    }
    assert Obstruction(cold, s, all);
  }

  /** Following a locked ring from a gated member runs into an obstruction. */
  lemma {:induction false} RingObstructs(cold: bool, s: State, p: seq<TicketId>, q: seq<TicketId>, j: nat)
    requires Ring(s, p) && Locked(cold, s, p) && j < |p| && Trail(s, q) && q[|q| - 1] == p[j] && Gated(s, p[j])
    ensures Obstructed(cold, s, q[0])
    decreases Ids(s) - Members(q)
  {
    var k := if j == |p| - 1 then 1 else j + 1;
    var y := p[k];
    assert p[k - 1] == p[j] && Edge(s, p[k - 1], p[k]) && Unfinished(s, y) && LockedIn(cold, s, y);
    assert Waits(s, p[j], y);
    var r := q + [y];
    assert Trail(s, r) && r[..|r| - 1] == q;
    if y in q || Dead(cold, s, y) {
      assert Obstruction(cold, s, r);
    } else if Gated(s, y) {
      GrowsBy(q, y);
      RingObstructs(cold, s, p, r, k);
    } else {
      TrailThen(cold, s, q, y);
    }
  }

  /**
   * A cycle of unfinished tickets deadlocks the loop, as long as nobody is rejected, exactly when each of them
   * is a feature or chore not yet claimed, stray, or rejected and never archived; a bug on it, which no lane
   * gates, or work in progress comes to an end.
   */
  lemma {:induction false} RingDeadlocksWithoutRejections(cold: bool, s: State, p: seq<TicketId>)
    requires Ring(s, p)
    ensures Deadlocked(cold, s, p) <==> Locked(cold, s, p)
  {
    forall i: nat | i < |p| ensures !CanEnd(NoRejections(cold), s, p[i]) <==> Dead(cold, s, p[i]) || Obstructed(cold, s, p[i]) {
      EndsWithoutRejections(cold, s, p[i]);
    }
    if Locked(cold, s, p) {
      forall i: nat | i < |p| ensures Dead(cold, s, p[i]) || Obstructed(cold, s, p[i]) {
        assert LockedIn(cold, s, p[i]);
        if Gated(s, p[i]) {
          RingObstructs(cold, s, p, [p[i]], i);
        }
      }
    } else {
      var i: nat :| i < |p| && !LockedIn(cold, s, p[i]);
      assert forall y :: !Waits(s, p[i], y) || IsRejected(s, p[i]);
      NotObstructed(cold, s, p[i]);
    }
  }

  lemma {:induction false} NotObstructed(cold: bool, s: State, x: TicketId)
    requires Unfinished(s, x) && !LockedIn(cold, s, x)
    ensures !Dead(cold, s, x) && !Obstructed(cold, s, x)
  {
    forall p | Obstruction(cold, s, p) ensures p[0] != x {
      assert Waits(s, p[0], p[1]);
    }
  }

  /** `f` and `g` depend on each other. */
  function Pair(kind: TicketType, status: Status): State {
    [ Ticket("f", Feature, "", "", Medium, Ready, ["g"], None),
      Ticket("g", kind, "", "", Medium, status, ["f"], None) ]
  }

  lemma {:induction false} PairLookups(kind: TicketType, status: Status)
    ensures var s := Pair(kind, status);
      Lookup(s, "f") == Some(s[0]) && Lookup(s, "g") == Some(s[1]) && Ids(s) == {"f", "g"}
    ensures OnCycle(Pair(kind, status), "f") && ReadyWork(Pair(kind, status), "f")
  {
    var s := Pair(kind, status);
    assert s[0].id == "f" && s[1].id == "g";
    LookupAt(s, 0);
    LookupAt(s, 1);
    assert Edge(s, "f", "g") && Edge(s, "g", "f");
    assert Walk(s, ["f", "g", "f"]);
  }

  lemma {:induction false} PairObstructed(cold: bool, kind: TicketType, status: Status)
    requires var s := Pair(kind, status); Gated(s, "g") || Dead(cold, s, "g")
    ensures Obstructed(cold, Pair(kind, status), "f")
  {
    var s := Pair(kind, status);
    PairLookups(kind, status);
    assert Waits(s, "f", "g");
    if Dead(cold, s, "g") {
      assert Obstruction(cold, s, ["f", "g"]);
    } else {
      assert Waits(s, "g", "f");
      var p := ["f", "g", "f"];
      assert p[0] in p[..2];
      assert Obstruction(cold, s, p);
    }
  }

  lemma {:induction false} PairUnobstructed(cold: bool, kind: TicketType, status: Status)
    requires var s := Pair(kind, status); !Gated(s, "g") && !Dead(cold, s, "g")
    ensures !Obstructed(cold, Pair(kind, status), "f")
  {
    PairLookups(kind, status);
    ShortTrail(cold, Pair(kind, status), "f", "g");
  }

  /** Such a pair lets `f` go exactly when `g` is neither waiting for the gate itself nor dead. */
  lemma {:induction false} PairReleasesWithoutRejections(cold: bool, kind: TicketType, status: Status)
    ensures var s := Pair(kind, status);
      Releasable(NoRejections(cold), s, "f") <==> !Gated(s, "g") && !Dead(cold, s, "g")
  {
    var s := Pair(kind, status);
    PairLookups(kind, status);
    ReleasableWithoutRejections(cold, s, "f");
    if Gated(s, "g") || Dead(cold, s, "g") {
      PairObstructed(cold, kind, status);
    } else {
      PairUnobstructed(cold, kind, status);
    }
  }

  /** The status an intervention leaves a Ready feature in, whatever it waits for. */
  predicate LeftBy(e: Event, status: Status) {
    && e.id == "g" && (e.TakeOver? ==> status.InProgress?) && (e.MergedByHand? ==> status.Done?)
    && (e.Move? ==> e.to.Rejected? && status.Rejected?) && !e.Archive?
  }

  lemma {:induction false} LeavesPair(cold: bool, e: Event, status: Status)
    requires LeftBy(e, status)
    ensures Allowed(cold, Pair(Feature, Ready), e) && After(Pair(Feature, Ready), e) == Pair(Feature, status)
    ensures !Calm(Pair(Feature, Ready), e)
  {
    PairLookups(Feature, Ready);
    assert "f" != "g" by { assert "f"[0] != "g"[0]; }
  }

  /** Two Ready features depending on each other wait for ever while nobody is rejected, */
  lemma {:induction false} PairWaitsWithoutRejections(cold: bool)
    ensures !Releasable(NoRejections(cold), Pair(Feature, Ready), "f")
  {
    PairLookups(Feature, Ready);
    PairReleasesWithoutRejections(cold, Feature, Ready);
  }

  /** but taking one over, merging it by hand or, with a cold store, rejecting it lets the other go. */
  lemma {:induction false} InterventionsBreakRings(cold: bool, e: Event, status: Status)
    requires LeftBy(e, status)
    ensures Allowed(cold, Pair(Feature, Ready), e)
    ensures Releasable(NoRejections(cold), After(Pair(Feature, Ready), e), "f") <==> cold || !e.Move?
  {
    LeavesPair(cold, e, status);
    LeavesWaiting(cold, e, status);
    PairReleasesWithoutRejections(cold, Feature, status);
  }

  lemma {:induction false} LeavesWaiting(cold: bool, e: Event, status: Status)
    requires LeftBy(e, status)
    ensures var s := Pair(Feature, status); !Gated(s, "g") && !Dead(cold, s, "g") <==> cold || !e.Move?
  {
    PairLookups(Feature, status);
  }

  /** A ring through an open bug: validation refuses it, yet the feature on it is handed out. */
  lemma {:induction false} BugRingReleases(cold: bool)
    ensures OnCycle(Pair(Bug, Open), "f") && Releasable(NoRejections(cold), Pair(Bug, Open), "f")
  {
    PairLookups(Bug, Open);
    PairReleasesWithoutRejections(cold, Bug, Open);
  }
}
