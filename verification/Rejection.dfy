/**
 * Runs with a cold store in which tickets are rejected too, by people or by the loop's own clean-ups: what
 * still keeps a Ready ticket from ever being handed out, and when nothing does.
 */
module Rejection {
  import opened Domain
  import opened Radar
  import opened Validation
  import opened Lifecycle

  // ---------------------------------------------------------------- what a rejection cannot remove

  /** It has a subtask that never becomes terminal: a stray one, or the ticket `r` that is to be handed out. */
  ghost predicate Anchored(s: State, r: TicketId, x: TicketId) {
    exists c :: LiveChild(s, x, c) && (c == r || Stray(s, c))
  }

  predicate Needs(s: State, x: TicketId, d: TicketId) {
    Edge(s, x, d) && !Satisfied(s, d)
  }

  /** A gated ticket needs another that is gated and, being anchored, would not be archived if rejected. */
  ghost predicate MustStep(s: State, r: TicketId, m: TicketId, x: TicketId) {
    Gated(s, m) && Needs(s, m, x) && Gated(s, x) && Anchored(s, r, x)
  }

  ghost predicate MustTrail(s: State, r: TicketId, q: seq<TicketId>) {
    q != [] && q[0] == r && Gated(s, r) && forall i :: 0 <= i < |q| - 1 ==> MustStep(s, r, q[i], q[i + 1])
  }

  /** The ticket has to pass the gate before `r` can. */
  ghost predicate Must(s: State, r: TicketId, x: TicketId) {
    exists q :: MustTrail(s, r, q) && q[|q| - 1] == x
  }

  ghost predicate MustWithin(s: State, r: TicketId, hold: set<TicketId>, x: TicketId) {
    exists q :: MustTrail(s, r, q) && q[|q| - 1] == x && forall i :: 0 <= i < |q| ==> q[i] in hold
  }

  /** How the members of `hold` keep each other from coming to an end. */
  ghost predicate HeldIn(s: State, r: TicketId, hold: set<TicketId>, x: TicketId) {
    || x !in Ids(s) || Stray(s, x)
    || (Gated(s, x) && (exists d :: d in hold && Needs(s, x, d)) && MustWithin(s, r, hold, x))
    || (IsRejected(s, x) && (Anchored(s, r, x) || exists c :: c in hold && LiveChild(s, x, c) && Gated(s, c)))
  }

  ghost predicate Holds(s: State, r: TicketId, hold: set<TicketId>) {
    Gated(s, r) && r in hold && forall x :: x in hold ==> HeldIn(s, r, hold, x)
  }

  /** Some set of tickets around `r` holds it. */
  ghost predicate Doomed(s: State, r: TicketId) {
    exists hold :: Holds(s, r, hold)
  }

  /** Gone, or rejected and never to come back. */
  predicate Lost(s: State, r: TicketId) {
    r !in Ids(s) || IsRejected(s, r)
  }

  // ---------------------------------------------------------------- it never ends

  lemma {:induction false} MustIsAnchored(s: State, r: TicketId, q: seq<TicketId>, i: nat)
    requires MustTrail(s, r, q) && i < |q|
    ensures Gated(s, q[i]) && (i > 0 ==> Anchored(s, r, q[i]))
  {
    if i > 0 {
      assert MustStep(s, r, q[i - 1], q[i]);
    }
  }

  /** From `a` to `b` the members of `hold` keep their stand, their edges and their live subtasks. */
  ghost predicate Keeps(a: State, b: State, r: TicketId, hold: set<TicketId>) {
    forall x :: x in hold ==> KeepsOne(a, b, r, hold, x)
  }

  ghost predicate KeepsOne(a: State, b: State, r: TicketId, hold: set<TicketId>, x: TicketId) {
    && SameStand(a, b, x)
    && (x in Ids(b) ==> forall d :: d in hold && Edge(a, x, d) ==> Edge(b, x, d))
    && (forall c :: c in hold && LiveChild(a, x, c) && Gated(a, c) ==> LiveChild(b, x, c))
    && (Anchored(a, r, x) ==> Anchored(b, r, x))
  }

  lemma {:induction false} NeedKept(a: State, b: State, r: TicketId, hold: set<TicketId>, x: TicketId, d: TicketId)
    requires Keeps(a, b, r, hold) && x in hold && d in hold && Gated(a, x) && Needs(a, x, d) && HeldIn(a, r, hold, d)
    ensures Needs(b, x, d)
  {
    assert KeepsOne(a, b, r, hold, x) && KeepsOne(a, b, r, hold, d);
  }

  lemma {:induction false} TrailKept(a: State, b: State, r: TicketId, hold: set<TicketId>, q: seq<TicketId>)
    requires Keeps(a, b, r, hold) && Holds(a, r, hold) && MustTrail(a, r, q) && forall i :: 0 <= i < |q| ==> q[i] in hold
    ensures MustTrail(b, r, q)
  {
    assert KeepsOne(a, b, r, hold, r);
    forall i | 0 <= i < |q| - 1 ensures MustStep(b, r, q[i], q[i + 1]) {
      assert MustStep(a, r, q[i], q[i + 1]);
      assert KeepsOne(a, b, r, hold, q[i]) && KeepsOne(a, b, r, hold, q[i + 1]);
      NeedKept(a, b, r, hold, q[i], q[i + 1]);
    }
  }

  lemma {:induction false} HeldKept(a: State, b: State, r: TicketId, hold: set<TicketId>, x: TicketId)
    requires Keeps(a, b, r, hold) && Holds(a, r, hold) && x in hold
    ensures HeldIn(b, r, hold, x)
  {
    assert KeepsOne(a, b, r, hold, x) && HeldIn(a, r, hold, x);
    if Gated(a, x) {
      var d :| d in hold && Needs(a, x, d);
      NeedKept(a, b, r, hold, x, d);
      var q :| MustTrail(a, r, q) && q[|q| - 1] == x && forall i :: 0 <= i < |q| ==> q[i] in hold;
      TrailKept(a, b, r, hold, q);
    } else if IsRejected(a, x) && !Anchored(a, r, x) {
      var c :| c in hold && LiveChild(a, x, c) && Gated(a, c);
      assert KeepsOne(a, b, r, hold, c);
    }
  }

  lemma {:induction false} HoldsKept(a: State, b: State, r: TicketId, hold: set<TicketId>)
    requires Keeps(a, b, r, hold) && Holds(a, r, hold)
    ensures Holds(b, r, hold)
  {
    assert KeepsOne(a, b, r, hold, r);
    forall x | x in hold ensures HeldIn(b, r, hold, x) {
      HeldKept(a, b, r, hold, x);
    }
  }

  /** Archiving another ticket changes nothing for the members, and no member can be archived. */
  lemma {:induction false} ArchiveKeeps(a: State, id: TicketId, r: TicketId, hold: set<TicketId>)
    requires Allowed(true, a, Archive(id)) && Holds(a, r, hold)
    ensures Keeps(a, Archived(a, id), r, hold)
  {
    var b := Archived(a, id);
    forall x | x in hold ensures x != id {
      assert HeldIn(a, r, hold, x);
    }
    forall x | x in hold ensures KeepsOne(a, b, r, hold, x) {
      LookupArchived(a, id, x);
      forall c | LiveChild(a, x, c) ensures LiveChild(b, x, c) {
        LookupArchived(a, id, c);
      }
      forall c | Stray(a, c) ensures Stray(b, c) {
        LookupArchived(a, id, c);
      }
    }
  }

  /** A stray ticket stays a live subtask through every move. */
  lemma {:induction false} AnchorStays(a: State, id: TicketId, to: Status, r: TicketId, x: TicketId)
    requires Lookup(a, id).Some? && CanMove(a, Lookup(a, id).value, to) && Anchored(a, r, x)
    requires id == r ==> !Terminal(to)
    ensures Anchored(SetStatus(a, id, to), r, x)
  {
    var b := SetStatus(a, id, to);
    var c :| LiveChild(a, x, c) && (c == r || Stray(a, c));
    LookupSet(a, id, to, c);
    if c == id && Stray(a, c) {
      FixedMove(a, Lookup(a, c).value, to);
    }
    assert LiveChild(b, x, c) && (c == r || Stray(b, c));
  }

  /** A member that moves is refused by the gate, so it stays gated unless it is rejected. */
  lemma {:induction false} MemberMoves(a: State, id: TicketId, to: Status, r: TicketId, hold: set<TicketId>)
    requires Holds(a, r, hold) && id in hold && Lookup(a, id).Some? && CanMove(a, Lookup(a, id).value, to)
    ensures Gated(a, id) && !to.Rejected? ==> GatedTicket(Lookup(a, id).value.(status := to))
    ensures !Gated(a, id) ==> to == Lookup(a, id).value.status
  {
    assert HeldIn(a, r, hold, id);
    var t := Lookup(a, id).value;
    if Gated(a, id) {
      if !to.Rejected? {
        var d :| d in hold && Needs(a, id, d);
        assert d in t.dependsOn;
        GatedMove(a, t, to);
      }
    } else {
      FixedMove(a, t, to);
    }
  }

  lemma {:induction false} MoveKeepsStand(a: State, id: TicketId, to: Status, r: TicketId, hold: set<TicketId>, x: TicketId)
    requires Holds(a, r, hold) && Lookup(a, id).Some? && CanMove(a, Lookup(a, id).value, to) && x in hold
    requires id in hold && Gated(a, id) ==> !to.Rejected?
    ensures SameStand(a, SetStatus(a, id, to), x)
  {
    LookupSet(a, id, to, x);
    if x == id {
      MemberMoves(a, id, to, r, hold);
    }
  }

  lemma {:induction false} AnchorThroughMove(a: State, id: TicketId, to: Status, r: TicketId, hold: set<TicketId>, x: TicketId)
    requires Holds(a, r, hold) && Lookup(a, id).Some? && CanMove(a, Lookup(a, id).value, to)
    requires id in hold && Gated(a, id) ==> !to.Rejected?
    ensures Anchored(a, r, x) ==> Anchored(SetStatus(a, id, to), r, x)
  {
    if Anchored(a, r, x) {
      if id == r {
        MemberMoves(a, id, to, r, hold);
      }
      AnchorStays(a, id, to, r, x);
    }
  }

  lemma {:induction false} MoveKeepsOne(a: State, id: TicketId, to: Status, r: TicketId, hold: set<TicketId>, x: TicketId)
    requires Holds(a, r, hold) && Lookup(a, id).Some? && CanMove(a, Lookup(a, id).value, to) && x in hold
    requires id in hold && Gated(a, id) ==> !to.Rejected?
    ensures KeepsOne(a, SetStatus(a, id, to), r, hold, x)
  {
    MoveKeepsStand(a, id, to, r, hold, x);
    LookupSet(a, id, to, x);
    AnchorThroughMove(a, id, to, r, hold, x);
    forall c | c in hold && LiveChild(a, x, c) && Gated(a, c) ensures LiveChild(SetStatus(a, id, to), x, c) {
      MoveKeepsStand(a, id, to, r, hold, c);
    }
  }

  lemma {:induction false} MoveKeeps(a: State, id: TicketId, to: Status, r: TicketId, hold: set<TicketId>)
    requires Holds(a, r, hold) && Lookup(a, id).Some? && CanMove(a, Lookup(a, id).value, to)
    requires id in hold && Gated(a, id) ==> !to.Rejected?
    ensures Keeps(a, SetStatus(a, id, to), r, hold)
  {
    forall x | x in hold ensures KeepsOne(a, SetStatus(a, id, to), r, hold, x) {
      MoveKeepsOne(a, id, to, r, hold, x);
    }
  }

  /** Where an element of a sequence first stands. */
  lemma {:induction false} FirstAt(q: seq<TicketId>, y: TicketId) returns (n: nat)
    requires y in q
    ensures n < |q| && q[n] == y && forall i :: 0 <= i < n ==> q[i] != y
    decreases |q|
  {
    if q[0] == y {
      n := 0;
    } else {
      var k := FirstAt(q[1..], y);
      n := k + 1;
      assert forall i :: 1 <= i < |q| ==> q[i] == q[1..][i - 1];
    }
  }

  /** Before the rejected ticket the trail stands as it did. */
  lemma {:induction false} TrailBefore(a: State, y: TicketId, r: TicketId, q: seq<TicketId>, n: nat, i: nat)
    requires MustTrail(a, r, q) && i < n < |q| && q[n] == y && y != r && forall k :: 0 <= k < n ==> q[k] != y
    requires Lookup(a, y).Some? && CanMove(a, Lookup(a, y).value, Rejected)
    ensures var b := SetStatus(a, y, Rejected);
      Gated(b, q[i]) && Needs(b, q[i], q[i + 1]) && (i > 0 ==> Anchored(b, r, q[i]))
  {
    assert MustStep(a, r, q[i], q[i + 1]);
    MustIsAnchored(a, r, q, i);
    RejectedOnly(a, y, q[i]);
    RejectedOnly(a, y, q[i + 1]);
    if i > 0 {
      AnchorStays(a, y, Rejected, r, q[i]);
    }
  }

  /** Tickets each needing the next, the first `r` and the last rejected and anchored, hold `r`. */
  lemma {:induction false} TrailHolds(b: State, r: TicketId, p: seq<TicketId>)
    requires |p| >= 2 && p[0] == r && IsRejected(b, p[|p| - 1]) && Anchored(b, r, p[|p| - 1])
    requires forall k: nat :: k < |p| - 1 ==> Gated(b, p[k]) && Needs(b, p[k], p[k + 1]) && (k > 0 ==> Anchored(b, r, p[k]))
    ensures Holds(b, r, Members(p))
  {
    var hold := Members(p);
    forall x | x in hold ensures HeldIn(b, r, hold, x) {
      var i: nat :| i < |p| && p[i] == x;
      if i < |p| - 1 {
        PrefixMust(b, r, p, |p| - 1, i);
        assert p[i + 1] in hold && Needs(b, x, p[i + 1]);
      }
    }
  }

  lemma {:induction false} EndIsAnchored(a: State, y: TicketId, r: TicketId, p: seq<TicketId>)
    requires MustTrail(a, r, p) && p[|p| - 1] == y && y != r && Lookup(a, y).Some? && CanMove(a, Lookup(a, y).value, Rejected)
    ensures |p| >= 2 && IsRejected(SetStatus(a, y, Rejected), y) && Anchored(SetStatus(a, y, Rejected), r, y)
  {
    MustIsAnchored(a, r, p, |p| - 1);
    AnchorStays(a, y, Rejected, r, y);
    RejectedOnly(a, y, y);
  }

  /** A rejected member is anchored and needed, so the trail to it holds `r` all the same. */
  lemma {:induction false} RejectionDooms(a: State, y: TicketId, r: TicketId, p: seq<TicketId>)
    requires MustTrail(a, r, p) && p[|p| - 1] == y && y != r && forall k :: 0 <= k < |p| - 1 ==> p[k] != y
    requires Lookup(a, y).Some? && CanMove(a, Lookup(a, y).value, Rejected)
    ensures Doomed(SetStatus(a, y, Rejected), r)
  {
    forall i: nat | i < |p| - 1
      ensures Gated(SetStatus(a, y, Rejected), p[i]) && Needs(SetStatus(a, y, Rejected), p[i], p[i + 1])
      ensures i > 0 ==> Anchored(SetStatus(a, y, Rejected), r, p[i])
    {
      TrailBefore(a, y, r, p, |p| - 1, i);
    }
    EndIsAnchored(a, y, r, p);
    TrailHolds(SetStatus(a, y, Rejected), r, p);
  }

  /** A trail cut where it first meets its end. */
  lemma {:induction false} TrailTo(a: State, r: TicketId, q: seq<TicketId>, y: TicketId) returns (p: seq<TicketId>)
    requires MustTrail(a, r, q) && y in q
    ensures MustTrail(a, r, p) && p[|p| - 1] == y && forall k :: 0 <= k < |p| - 1 ==> p[k] != y
  {
    var n := FirstAt(q, y);
    p := q[..n + 1];
    forall i | 0 <= i < |p| - 1 ensures MustStep(a, r, p[i], p[i + 1]) {
      assert MustStep(a, r, q[i], q[i + 1]);
    }
  }

  lemma {:induction false} PrefixMust(b: State, r: TicketId, p: seq<TicketId>, n: nat, i: nat)
    requires |p| == n + 1 && i < n && p[0] == r
    requires forall k: nat :: k < n ==> Gated(b, p[k]) && Needs(b, p[k], p[k + 1]) && (k > 0 ==> Anchored(b, r, p[k]))
    ensures MustWithin(b, r, Members(p), p[i])
  {
    var q := p[..i + 1];
    forall k: nat | k < |q| - 1 ensures MustStep(b, r, q[k], q[k + 1]) {
    }
    assert MustTrail(b, r, q) && q[|q| - 1] == p[i];
    assert forall k :: 0 <= k < |q| ==> q[k] == p[k] && p[k] in p;
  }

  lemma {:induction false} DoomThroughRejection(a: State, id: TicketId, r: TicketId, hold: set<TicketId>)
    requires Holds(a, r, hold) && Lookup(a, id).Some? && CanMove(a, Lookup(a, id).value, Rejected) && id in hold && Gated(a, id)
    ensures Doomed(SetStatus(a, id, Rejected), r) || Lost(SetStatus(a, id, Rejected), r)
  {
    if id == r {
      RejectedOnly(a, id, id);
    } else {
      assert HeldIn(a, r, hold, id);
      var q :| MustTrail(a, r, q) && q[|q| - 1] == id;
      var p := TrailTo(a, r, q, id);
      RejectionDooms(a, id, r, p);
    }
  }

  lemma {:induction false} DoomThroughMove(a: State, id: TicketId, to: Status, r: TicketId, hold: set<TicketId>)
    requires Holds(a, r, hold) && Lookup(a, id).Some? && CanMove(a, Lookup(a, id).value, to)
    ensures Doomed(SetStatus(a, id, to), r) || Lost(SetStatus(a, id, to), r)
  {
    if id in hold && Gated(a, id) && to.Rejected? {
      DoomThroughRejection(a, id, r, hold);
    } else {
      MoveKeeps(a, id, to, r, hold);
      HoldsKept(a, SetStatus(a, id, to), r, hold);
    }
  }

  /** No step whatever of the loop gets a doomed ticket out. */
  lemma {:induction false} DoomStays(a: State, e: Event, b: State, r: TicketId)
    requires Doomed(a, r) && StepBy(Everything(true), a, e, b)
    ensures Doomed(b, r) || Lost(b, r)
  {
    var hold :| Holds(a, r, hold);
    if e.Archive? {
      ArchiveKeeps(a, e.id, r, hold);
      HoldsKept(a, b, r, hold);
    } else {
      DoomThroughMove(a, e.id, e.to, r, hold);
    }
  }

  lemma {:induction false} LostStays(a: State, e: Event, b: State, r: TicketId)
    requires Lost(a, r) && StepBy(Everything(true), a, e, b)
    ensures Lost(b, r)
  {
    if e.Archive? {
      LookupArchived(a, e.id, r);
    } else {
      LookupSet(a, e.id, e.to, r);
      if r == e.id {
        FixedMove(a, Lookup(a, r).value, e.to);
      }
    }
  }

  lemma {:induction false} DoomedForEver(run: seq<State>, i: nat, r: TicketId)
    requires Run(Everything(true), run) && i < |run| && Doomed(run[0], r)
    ensures Doomed(run[i], r) || Lost(run[i], r)
    decreases i
  {
    if i > 0 {
      DoomedForEver(run, i - 1, r);
      assert LoopStep(Everything(true), run[i - 1], run[i]);
      var e :| StepBy(Everything(true), run[i - 1], e, run[i]);
      if Doomed(run[i - 1], r) {
        DoomStays(run[i - 1], e, run[i], r);
      } else {
        LostStays(run[i - 1], e, run[i], r);
      }
    }
  }

  /** Rejections, archiving and all: a doomed ticket is never handed out. */
  lemma {:induction false} DoomedNeverReleased(s: State, r: TicketId)
    requires Doomed(s, r)
    ensures !Releasable(Everything(true), s, r)
  {
    forall run | Run(Everything(true), run) && run[0] == s ensures !HandedOut(run[|run| - 1], r) {
      var last := run[|run| - 1];
      DoomedForEver(run, |run| - 1, r);
      if Doomed(last, r) {
        DoomedRefused(last, r);
      }
    }
  }

  lemma {:induction false} DoomedRefused(s: State, r: TicketId)
    requires Doomed(s, r)
    ensures !HandedOut(s, r)
  {
    var hold :| Holds(s, r, hold);
    assert HeldIn(s, r, hold, r);
    var d :| d in hold && Needs(s, r, d);
    assert d in Lookup(s, r).value.dependsOn;
  }

  // ---------------------------------------------------------------- and when it may end

  /**
   * The one configuration not decided here: a ticket that is needed, gated and not anchored, so that only the gate
   * or the archive clears it, while a subtask of it has to pass the gate as well.
   */
  ghost predicate Corner(s: State, r: TicketId) {
    exists m, x, c ::
      && Must(s, r, m) && Needs(s, m, x) && Gated(s, x) && !Anchored(s, r, x)
      && LiveChild(s, x, c) && Must(s, r, c)
  }

  /** From `s` to `b` only `y` has come to an end of some kind, and edges to it may have gone. */
  ghost predicate Lessened(s: State, b: State, y: TicketId) {
    && (forall x :: x != y ==> Reduced(Lookup(s, x), Lookup(b, x)))
    && (Lookup(b, y).Some? ==> Terminal(Lookup(b, y).value.status))
  }

  /** Nobody needs `y` any more. */
  ghost predicate Unneeded(b: State, y: TicketId) {
    forall x :: !Needs(b, x, y)
  }

  lemma {:induction false} ClassBefore(s: State, b: State, y: TicketId, x: TicketId)
    requires Lessened(s, b, y) && x != y
    ensures (x in Ids(s) <==> x in Ids(b)) && (Gated(b, x) <==> Gated(s, x)) && (Stray(b, x) <==> Stray(s, x))
    ensures (IsRejected(b, x) <==> IsRejected(s, x)) && (Satisfied(b, x) <==> Satisfied(s, x))
    ensures forall z :: LiveChild(b, z, x) <==> LiveChild(s, z, x)
    ensures forall d :: Edge(b, x, d) ==> Edge(s, x, d)
  {
    assert Reduced(Lookup(s, x), Lookup(b, x));
    assert Lookup(s, x).Some? <==> x in Ids(s);
    assert Lookup(b, x).Some? <==> x in Ids(b);
  }

  lemma {:induction false} AnchoredBefore(s: State, b: State, y: TicketId, r: TicketId, x: TicketId)
    requires Lessened(s, b, y) && Anchored(b, r, x)
    ensures Anchored(s, r, x)
  {
    var c :| LiveChild(b, x, c) && (c == r || Stray(b, c));
    ClassBefore(s, b, y, c);
  }

  lemma {:induction false} MustStepBefore(s: State, b: State, y: TicketId, r: TicketId, m: TicketId, x: TicketId)
    requires Lessened(s, b, y) && MustStep(b, r, m, x)
    ensures MustStep(s, r, m, x)
  {
    ClassBefore(s, b, y, m);
    ClassBefore(s, b, y, x);
    AnchoredBefore(s, b, y, r, x);
  }

  lemma {:induction false} TrailBeforehand(s: State, b: State, y: TicketId, r: TicketId, q: seq<TicketId>)
    requires Lessened(s, b, y) && MustTrail(b, r, q)
    ensures MustTrail(s, r, q)
  {
    ClassBefore(s, b, y, r);
    forall i | 0 <= i < |q| - 1 ensures MustStep(s, r, q[i], q[i + 1]) {
      assert MustStep(b, r, q[i], q[i + 1]);
      MustStepBefore(s, b, y, r, q[i], q[i + 1]);
    }
  }

  lemma {:induction false} MustBefore(s: State, b: State, y: TicketId, r: TicketId, m: TicketId)
    requires Lessened(s, b, y) && Must(b, r, m)
    ensures Must(s, r, m) && m != y
  {
    var q :| MustTrail(b, r, q) && q[|q| - 1] == m;
    TrailBeforehand(s, b, y, r, q);
    MustIsAnchored(b, r, q, |q| - 1);
  }

  lemma {:induction false} CornerBefore(s: State, b: State, y: TicketId, r: TicketId)
    requires Lessened(s, b, y) && Corner(b, r) && y != r && !Stray(s, y)
    ensures Corner(s, r)
  {
    var m, x, c :| Must(b, r, m) && Needs(b, m, x) && Gated(b, x) && !Anchored(b, r, x) && LiveChild(b, x, c) && Must(b, r, c);
    MustBefore(s, b, y, r, m);
    MustBefore(s, b, y, r, c);
    ClassBefore(s, b, y, m);
    ClassBefore(s, b, y, x);
    ClassBefore(s, b, y, c);
    if Anchored(s, r, x) {
      AnchoredAfter(s, b, y, r, x);
    }
  }

  /** An anchor outlasts another ticket's end: it is `r` or stray, and neither of these is `y`. */
  lemma {:induction false} AnchoredAfter(s: State, b: State, y: TicketId, r: TicketId, x: TicketId)
    requires Lessened(s, b, y) && Anchored(s, r, x) && y != r
    ensures Anchored(b, r, x) || Stray(s, y)
  {
    var c :| LiveChild(s, x, c) && (c == r || Stray(s, c));
    if c != y {
      ClassBefore(s, b, y, c);
      assert LiveChild(b, x, c) && (c == r || Stray(b, c));
    }
  }

  /** `y` was rejected, and nothing that has to pass the gate for `r`. */
  ghost predicate SafelyRejected(s: State, b: State, r: TicketId, y: TicketId) {
    Gated(s, y) && IsRejected(b, y) && !Must(s, r, y) && !Corner(s, r)
  }

  lemma {:induction false} MustGoesOn(s: State, r: TicketId, m: TicketId, x: TicketId)
    requires Must(s, r, m) && MustStep(s, r, m, x)
    ensures Must(s, r, x)
  {
    var q :| MustTrail(s, r, q) && q[|q| - 1] == m;
    assert MustTrail(s, r, q + [x]);
  }

  /** Nothing that holds `r` afterwards needs the ticket that came to an end. */
  lemma {:induction false} NotNeeded(s: State, b: State, y: TicketId, r: TicketId, hold: set<TicketId>, x: TicketId)
    requires Lessened(s, b, y) && Holds(b, r, hold) && x in hold && x != y && Gated(b, x)
    requires Unneeded(b, y) || SafelyRejected(s, b, r, y)
    ensures y in hold ==> !Needs(b, x, y)
  {
    if y in hold && Needs(b, x, y) {
      assert HeldIn(b, r, hold, x) && HeldIn(b, r, hold, y);
      MustBefore(s, b, y, r, x);
      ClassBefore(s, b, y, x);
      if Anchored(s, r, y) {
        MustGoesOn(s, r, x, y);
      } else {
        NeededUnanchored(s, b, y, r, hold, x);
      }
    }
  }

  lemma {:induction false} NeededUnanchored(s: State, b: State, y: TicketId, r: TicketId, hold: set<TicketId>, x: TicketId)
    requires Lessened(s, b, y) && Holds(b, r, hold) && y in hold && IsRejected(b, y) && Gated(s, y) && !Anchored(s, r, y)
    requires Must(s, r, x) && Needs(s, x, y)
    ensures Corner(s, r)
  {
    assert HeldIn(b, r, hold, y);
    if Anchored(b, r, y) {
      AnchoredBefore(s, b, y, r, y);
    }
    var c :| c in hold && LiveChild(b, y, c) && Gated(b, c);
    assert HeldIn(b, r, hold, c);
    MustBefore(s, b, y, r, c);
    ClassBefore(s, b, y, c);
  }

  lemma {:induction false} WithinBefore(s: State, b: State, y: TicketId, r: TicketId, hold: set<TicketId>, x: TicketId)
    requires Lessened(s, b, y) && MustWithin(b, r, hold, x)
    ensures MustWithin(s, r, hold - {y}, x)
  {
    var q :| MustTrail(b, r, q) && q[|q| - 1] == x && forall i :: 0 <= i < |q| ==> q[i] in hold;
    TrailBeforehand(s, b, y, r, q);
    forall i: nat | i < |q| ensures q[i] in hold - {y} {
      MustIsAnchored(b, r, q, i);
    }
  }

  lemma {:induction false} GatedHeldBefore(s: State, b: State, y: TicketId, r: TicketId, hold: set<TicketId>, x: TicketId)
    requires Lessened(s, b, y) && Holds(b, r, hold) && x in hold && x != y && Gated(b, x)
    requires Unneeded(b, y) || SafelyRejected(s, b, r, y)
    ensures HeldIn(s, r, hold - {y}, x)
  {
    assert HeldIn(b, r, hold, x);
    var d :| d in hold && Needs(b, x, d);
    NotNeeded(s, b, y, r, hold, x);
    ClassBefore(s, b, y, x);
    ClassBefore(s, b, y, d);
    assert d in hold - {y} && Needs(s, x, d);
    WithinBefore(s, b, y, r, hold, x);
  }

  lemma {:induction false} RejectedHeldBefore(s: State, b: State, y: TicketId, r: TicketId, hold: set<TicketId>, x: TicketId)
    requires Lessened(s, b, y) && Holds(b, r, hold) && x in hold && x != y && IsRejected(b, x)
    ensures HeldIn(s, r, hold - {y}, x)
  {
    assert HeldIn(b, r, hold, x);
    ClassBefore(s, b, y, x);
    if Anchored(b, r, x) {
      AnchoredBefore(s, b, y, r, x);
    } else {
      var c :| c in hold && LiveChild(b, x, c) && Gated(b, c);
      assert c != y;
      ClassBefore(s, b, y, c);
      assert c in hold - {y} && LiveChild(s, x, c) && Gated(s, c);
    }
  }

  lemma {:induction false} HeldBefore(s: State, b: State, y: TicketId, r: TicketId, hold: set<TicketId>, x: TicketId)
    requires Lessened(s, b, y) && Holds(b, r, hold) && x in hold && x != y
    requires Unneeded(b, y) || SafelyRejected(s, b, r, y)
    ensures HeldIn(s, r, hold - {y}, x)
  {
    assert HeldIn(b, r, hold, x);
    ClassBefore(s, b, y, x);
    if Gated(b, x) {
      GatedHeldBefore(s, b, y, r, hold, x);
    } else if IsRejected(b, x) {
      RejectedHeldBefore(s, b, y, r, hold, x);
    }
  }

  /** So clearing a ticket, or rejecting one that nothing depends on the gate for, dooms nobody. */
  lemma {:induction false} DoomedBefore(s: State, b: State, y: TicketId, r: TicketId)
    requires Lessened(s, b, y) && Doomed(b, r) && y != r
    requires Unneeded(b, y) || SafelyRejected(s, b, r, y)
    ensures Doomed(s, r)
  {
    var hold :| Holds(b, r, hold);
    ClassBefore(s, b, y, r);
    forall x | x in hold - {y} ensures HeldIn(s, r, hold - {y}, x) {
      HeldBefore(s, b, y, r, hold, x);
    }
    assert Holds(s, r, hold - {y});
  }

  // ---------------------------------------------------------------- something can always be done

  /** Nothing but `r` can be finished, no rejected ticket archived, and what is gated has to pass the gate. */
  ghost predicate NothingToDo(s: State, r: TicketId) {
    && (forall y :: y != r && Lookup(s, y).Some? ==> !Finishable(s, Lookup(s, y).value))
    && (forall y :: IsRejected(s, y) ==> HasLiveChild(s, y))
    && (forall y :: Gated(s, y) && y != r ==> Must(s, r, y))
  }

  /** What has to pass the gate, and what that needs. */
  ghost function Around(s: State, r: TicketId): set<TicketId> {
    (set x | x in Ids(s) && Must(s, r, x)) + (set d | d in Named(s) && NeededByMust(s, r, d))
  }

  ghost predicate NeededByMust(s: State, r: TicketId, d: TicketId) {
    exists m :: Must(s, r, m) && Needs(s, m, d)
  }

  lemma {:induction false} AroundHasNeeds(s: State, r: TicketId, m: TicketId, d: TicketId)
    requires Must(s, r, m) && Needs(s, m, d)
    ensures d in Around(s, r)
  {
    EdgeIsNamed(s, m, d);
  }

  lemma {:induction false} MustWithinAround(s: State, r: TicketId, x: TicketId)
    requires Must(s, r, x)
    ensures MustWithin(s, r, Around(s, r), x) && x in Around(s, r)
  {
    var q :| MustTrail(s, r, q) && q[|q| - 1] == x;
    forall i: nat | i < |q| ensures q[i] in Around(s, r) {
      MustIsAnchored(s, r, q, i);
      var p := q[..i + 1];
      forall k | 0 <= k < |p| - 1 ensures MustStep(s, r, p[k], p[k + 1]) {
        assert MustStep(s, r, q[k], q[k + 1]);
      }
      assert MustTrail(s, r, p) && p[|p| - 1] == q[i];
    }
  }

  lemma {:induction false} MustRefused(s: State, r: TicketId, x: TicketId)
    requires NothingToDo(s, r) && Gated(s, r) && GateRefuses(s, Lookup(s, r).value) && Must(s, r, x)
    ensures Gated(s, x) && GateRefuses(s, Lookup(s, x).value)
  {
    var q :| MustTrail(s, r, q) && q[|q| - 1] == x;
    MustIsAnchored(s, r, q, |q| - 1);
  }

  lemma {:induction false} MustHeld(s: State, r: TicketId, x: TicketId)
    requires NothingToDo(s, r) && Gated(s, r) && GateRefuses(s, Lookup(s, r).value) && Must(s, r, x)
    ensures HeldIn(s, r, Around(s, r), x)
  {
    MustRefused(s, r, x);
    MustWithinAround(s, r, x);
    var d :| d in Lookup(s, x).value.dependsOn && !Satisfied(s, d);
    AroundHasNeeds(s, r, x, d);
  }

  lemma {:induction false} NeededHeld(s: State, r: TicketId, d: TicketId)
    requires NothingToDo(s, r) && Gated(s, r) && GateRefuses(s, Lookup(s, r).value) && NeededByMust(s, r, d)
    ensures HeldIn(s, r, Around(s, r), d)
  {
    if Gated(s, d) {
      if d == r {
        assert MustTrail(s, r, [r]);
      }
      MustHeld(s, r, d);
    } else if IsRejected(s, d) {
      var c :| LiveChild(s, d, c);
      if c != r && !Stray(s, c) {
        assert Gated(s, c);
        MustWithinAround(s, r, c);
      }
    } else if d in Ids(s) {
      assert !Finishable(s, Lookup(s, d).value);
    }
  }

  /** Where nothing can be done, `r` is doomed. */
  lemma {:induction false} NothingToDoIsDoom(s: State, r: TicketId)
    requires NothingToDo(s, r) && Gated(s, r) && GateRefuses(s, Lookup(s, r).value)
    ensures Doomed(s, r)
  {
    assert MustTrail(s, r, [r]);
    forall x | x in Around(s, r) ensures HeldIn(s, r, Around(s, r), x) {
      if Must(s, r, x) {
        MustHeld(s, r, x);
      } else {
        NeededHeld(s, r, x);
      }
    }
    MustWithinAround(s, r, r);
    assert Holds(s, r, Around(s, r));
  }

  ghost function LiveIds(s: State): set<TicketId> {
    set x | x in Ids(s) && !Terminal(Lookup(s, x).value.status)
  }

  ghost function RejectedIds(s: State): set<TicketId> {
    set x | x in Ids(s) && IsRejected(s, x)
  }

  /** Fewer live tickets, or as many and fewer rejected ones. */
  ghost predicate Nearer(s: State, b: State) {
    LiveIds(b) < LiveIds(s) || (LiveIds(b) == LiveIds(s) && RejectedIds(b) < RejectedIds(s))
  }

  /** One more thing done on the way, harming nobody. */
  ghost predicate Useful(s: State, r: TicketId, y: TicketId, b: State) {
    y != r && !Stray(s, y) && Lessened(s, b, y) && (Unneeded(b, y) || SafelyRejected(s, b, r, y)) && Nearer(s, b)
  }

  lemma {:induction false} ClearingLessens(s: State, y: TicketId)
    requires Lookup(s, y).Some?
    ensures Lessened(s, Cleared(s, y), y) && Unneeded(Cleared(s, y), y)
  {
    var b := Cleared(s, y);
    forall x ensures (x != y ==> Reduced(Lookup(s, x), Lookup(b, x))) && !Needs(b, x, y) {
      AfterClearing(s, y, x);
      AfterClearing(s, y, y);
    }
    AfterClearing(s, y, y);
  }

  lemma {:induction false} LivesThrough(s: State, b: State, y: TicketId, x: TicketId)
    requires Lessened(s, b, y) && x != y
    ensures (x in LiveIds(b) <==> x in LiveIds(s)) && (x in RejectedIds(b) <==> x in RejectedIds(s))
  {
    ClassBefore(s, b, y, x);
    assert Lookup(s, x).Some? <==> x in Ids(s);
  }

  lemma {:induction false} EndingIsNearer(s: State, b: State, y: TicketId)
    requires Lessened(s, b, y) && y in LiveIds(s)
    ensures Nearer(s, b)
  {
    forall x | x in LiveIds(b) ensures x in LiveIds(s) {
      if x != y {
        LivesThrough(s, b, y, x);
      }
    }
    assert y !in LiveIds(b);
  }

  lemma {:induction false} ArchivingIsNearer(s: State, y: TicketId)
    requires IsRejected(s, y)
    ensures Nearer(s, Archived(s, y))
  {
    var b := Archived(s, y);
    ClearingLessens(s, y);
    LookupArchived(s, y, y);
    forall x ensures x != y ==> (x in LiveIds(b) <==> x in LiveIds(s)) && (x in RejectedIds(b) <==> x in RejectedIds(s)) {
      if x != y {
        LivesThrough(s, b, y, x);
      }
    }
    assert y !in LiveIds(s) && y !in LiveIds(b) && y in RejectedIds(s) && y !in RejectedIds(b);
    assert LiveIds(b) == LiveIds(s);
  }

  lemma {:induction false} FinishingHelps(s: State, r: TicketId, y: TicketId) returns (run: seq<State>, b: State)
    requires y != r && Lookup(s, y).Some? && Finishable(s, Lookup(s, y).value)
    ensures RunFrom(Everything(true), run, s, b) && Useful(s, r, y, b)
  {
    b := Finished(s, y);
    run := CanFinish(Everything(true), s, Lookup(s, y).value);
    ClearingLessens(s, y);
    assert y in LiveIds(s);
    EndingIsNearer(s, b, y);
  }

  lemma {:induction false} ArchivingHelps(s: State, r: TicketId, y: TicketId) returns (run: seq<State>, b: State)
    requires y != r && IsRejected(s, y) && !HasLiveChild(s, y)
    ensures RunFrom(Everything(true), run, s, b) && Useful(s, r, y, b)
  {
    b := Archived(s, y);
    OneStep(Everything(true), s, Archive(y));
    run := [s, b];
    ClearingLessens(s, y);
    ArchivingIsNearer(s, y);
  }

  lemma {:induction false} RejectingHelps(s: State, r: TicketId, y: TicketId) returns (run: seq<State>, b: State)
    requires Gated(s, y) && y != r && !Must(s, r, y) && !Corner(s, r)
    ensures RunFrom(Everything(true), run, s, b) && Useful(s, r, y, b)
  {
    b := SetStatus(s, y, Rejected);
    OneStep(Everything(true), s, Move(y, Rejected));
    run := [s, b];
    RejectingLessens(s, y);
    assert y in LiveIds(s);
    EndingIsNearer(s, b, y);
  }

  /** There is always something to do: finish a ticket, archive one, or reject one. */
  lemma {:induction false} SomethingUseful(s: State, r: TicketId) returns (y: TicketId, run: seq<State>, b: State)
    requires Gated(s, r) && GateRefuses(s, Lookup(s, r).value) && !Corner(s, r) && !Doomed(s, r)
    ensures RunFrom(Everything(true), run, s, b) && Useful(s, r, y, b)
  {
    if NothingToDo(s, r) {
      NothingToDoIsDoom(s, r);
    }
    if z :| z != r && Lookup(s, z).Some? && Finishable(s, Lookup(s, z).value) {
      y := z;
      run, b := FinishingHelps(s, r, y);
    } else if z :| IsRejected(s, z) && !HasLiveChild(s, z) {
      y := z;
      run, b := ArchivingHelps(s, r, y);
    } else {
      y :| Gated(s, y) && y != r && !Must(s, r, y);
      run, b := RejectingHelps(s, r, y);
    }
  }

  lemma {:induction false} RejectingLessens(s: State, y: TicketId)
    requires Gated(s, y)
    ensures Lessened(s, SetStatus(s, y, Rejected), y) && IsRejected(SetStatus(s, y, Rejected), y)
  {
    forall x ensures x != y ==> Reduced(Lookup(s, x), Lookup(SetStatus(s, y, Rejected), x)) {
      RejectedOnly(s, y, x);
    }
    RejectedOnly(s, y, y);
  }

  /** One after the other these lead to `r` being handed out. */
  lemma {:induction false} WorkTowards(s: State, r: TicketId) returns (run: seq<State>, b: State)
    requires ReadyWork(s, r) && !Corner(s, r) && !Doomed(s, r)
    ensures RunFrom(Everything(true), run, s, b) && HandedOut(b, r)
    decreases LiveIds(s), RejectedIds(s)
  {
    run, b := [s], s;
    if GateRefuses(s, Lookup(s, r).value) {
      var y, first, c := SomethingUseful(s, r);
      StillFine(s, c, y, r);
      run, b := WorkTowards(c, r);
      RunThen(Everything(true), first, s, c, run, b);
      run := first + run[1..];
    }
  }

  lemma {:induction false} StillFine(s: State, b: State, y: TicketId, r: TicketId)
    requires ReadyWork(s, r) && !Corner(s, r) && !Doomed(s, r) && Useful(s, r, y, b)
    ensures ReadyWork(b, r) && !Corner(b, r) && !Doomed(b, r)
  {
    assert Reduced(Lookup(s, r), Lookup(b, r));
    if Corner(b, r) {
      CornerBefore(s, b, y, r);
    }
    if Doomed(b, r) {
      DoomedBefore(s, b, y, r);
    }
  }

  /**
   * With a cold store, over every run of the loop, rejections included: the corner aside, a Ready feature or chore
   * is handed out in some run exactly when no set of tickets holds it.
   */
  lemma {:induction false} ReleasableExactly(s: State, r: TicketId)
    requires ReadyWork(s, r) && !Corner(s, r)
    ensures Releasable(Everything(true), s, r) <==> !Doomed(s, r)
  {
    if Doomed(s, r) {
      DoomedNeverReleased(s, r);
    } else {
      var run, b := WorkTowards(s, r);
    }
  }

  // ---------------------------------------------------------------- two simple conditions

  /** It does not wait for the ticket it was split from. */
  predicate FreeOfParent(s: State, r: TicketId) {
    var t := Lookup(s, r);
    t.Some? && (t.value.parent.Some? ==> !Needs(s, r, t.value.parent.value))
  }

  /** Without stray tickets only the parent of `r` is anchored, so nothing else has to pass the gate first. */
  lemma {:induction false} NothingMust(s: State, r: TicketId, x: TicketId)
    requires FreeOfParent(s, r) && (forall y :: !Stray(s, y)) && Must(s, r, x)
    ensures x == r
  {
    var q :| MustTrail(s, r, q) && q[|q| - 1] == x;
    if |q| > 1 {
      NeedAnchored(s, r, q[1]);
    }
  }

  lemma {:induction false} NeedAnchored(s: State, r: TicketId, d: TicketId)
    requires FreeOfParent(s, r) && (forall y :: !Stray(s, y))
    ensures !(Needs(s, r, d) && Anchored(s, r, d))
  {
  }

  lemma {:induction false} NoCorner(s: State, r: TicketId)
    requires FreeOfParent(s, r) && forall y :: !Stray(s, y)
    ensures !Corner(s, r)
  {
    forall m, x, c | Must(s, r, m) && Needs(s, m, x) && Gated(s, x) && !Anchored(s, r, x) && LiveChild(s, x, c)
      ensures !Must(s, r, c)
    {
      if Must(s, r, c) {
        NothingMust(s, r, c);
      }
    }
  }

  /** What holds it then is an unknown dependency, or itself. */
  lemma {:induction false} HolderOf(s: State, r: TicketId, hold: set<TicketId>) returns (d: TicketId)
    requires FreeOfParent(s, r) && (forall y :: !Stray(s, y)) && Holds(s, r, hold)
    ensures Edge(s, r, d) && (d !in Ids(s) || d == r)
  {
    assert HeldIn(s, r, hold, r);
    d :| d in hold && Needs(s, r, d);
    assert HeldIn(s, r, hold, d);
    NeedAnchored(s, r, d);
    if Gated(s, d) {
      var q :| MustTrail(s, r, q) && q[|q| - 1] == d;
      NothingMust(s, r, d);
    } else if IsRejected(s, d) {
      var c :| c in hold && LiveChild(s, d, c) && Gated(s, c);
      assert HeldIn(s, r, hold, c);
      NothingMust(s, r, c);
    }
  }

  /**
   * With a cold store and no stray ticket, a Ready ticket that does not wait for its own parent is handed out in
   * some run exactly when it does not depend on an unknown id or on itself, whatever cycles there are.
   */
  lemma {:induction false} FreeOfParentExactly(s: State, r: TicketId)
    requires ReadyWork(s, r) && FreeOfParent(s, r) && forall y :: !Stray(s, y)
    ensures Releasable(Everything(true), s, r) <==> forall d :: Edge(s, r, d) ==> d in Ids(s) && d != r
  {
    NoCorner(s, r);
    ReleasableExactly(s, r);
    if hold :| Holds(s, r, hold) {
      var d := HolderOf(s, r, hold);
    }
    if d :| Edge(s, r, d) && !(d in Ids(s) && d != r) {
      assert MustTrail(s, r, [r]) && Needs(s, r, d);
      assert MustWithin(s, r, {r, d}, r);
      assert Holds(s, r, {r, d});
    }
  }

  // ---------------------------------------------------------------- validated states, exactly

  /** A gated ticket waits for the ticket it was split from. */
  predicate ParentStep(s: State, x: TicketId, y: TicketId) {
    Gated(s, x) && Needs(s, x, y) && Lookup(s, x).value.parent == Some(y)
  }

  ghost predicate ParentTrail(s: State, p: seq<TicketId>) {
    p != [] && forall i :: 0 <= i < |p| - 1 ==> ParentStep(s, p[i], p[i + 1])
  }

  /** Each waits for its own parent, up to one that is rejected. */
  ghost predicate RejectedAncestry(s: State, r: TicketId) {
    exists p :: ParentTrail(s, p) && |p| >= 2 && p[0] == r && IsRejected(s, p[|p| - 1])
  }

  lemma {:induction false} AncestryThroughArchive(a: State, id: TicketId, p: seq<TicketId>)
    requires Allowed(true, a, Archive(id)) && ParentTrail(a, p) && |p| >= 2 && IsRejected(a, p[|p| - 1])
    ensures ParentTrail(Archived(a, id), p) && IsRejected(Archived(a, id), p[|p| - 1])
  {
    var n := |p| - 1;
    assert ParentStep(a, p[n - 1], p[n]);
    assert LiveChild(a, p[n], p[n - 1]);
    forall i | 0 <= i <= n ensures p[i] != id {
      assert i < n ==> ParentStep(a, p[i], p[i + 1]);
    }
    forall i | 0 <= i < n ensures ParentStep(Archived(a, id), p[i], p[i + 1]) {
      assert ParentStep(a, p[i], p[i + 1]);
      LookupArchived(a, id, p[i]);
      LookupArchived(a, id, p[i + 1]);
    }
    LookupArchived(a, id, p[n]);
  }

  /** The gate refuses whoever waits, so a member moves among the gated statuses or is rejected. */
  lemma {:induction false} ParentStepMoves(a: State, id: TicketId, to: Status, x: TicketId, y: TicketId)
    requires ParentStep(a, x, y) && Lookup(a, id).Some? && CanMove(a, Lookup(a, id).value, to)
    requires (Gated(a, y) && GateRefuses(a, Lookup(a, y).value)) || IsRejected(a, y)
    requires id == x || id == y ==> !to.Rejected? || IsRejected(a, id)
    ensures ParentStep(SetStatus(a, id, to), x, y)
  {
    LookupSet(a, id, to, x);
    LookupSet(a, id, to, y);
    assert y in Lookup(a, x).value.dependsOn;
    if id == x {
      GatedMove(a, Lookup(a, x).value, to);
    }
    if id == y {
      if Gated(a, y) {
        GatedMove(a, Lookup(a, y).value, to);
      } else {
        FixedMove(a, Lookup(a, y).value, to);
      }
    }
  }

  lemma {:induction false} AncestorStands(a: State, p: seq<TicketId>, i: nat)
    requires ParentTrail(a, p) && |p| >= 2 && IsRejected(a, p[|p| - 1]) && i < |p|
    ensures if i < |p| - 1 then Gated(a, p[i]) && GateRefuses(a, Lookup(a, p[i]).value) else IsRejected(a, p[i])
  {
    if i < |p| - 1 {
      assert ParentStep(a, p[i], p[i + 1]);
      assert p[i + 1] in Lookup(a, p[i]).value.dependsOn;
    }
  }

  /** Up to a member that is not being rejected the trail stands. */
  lemma {:induction false} AncestryThroughMove(a: State, id: TicketId, to: Status, p: seq<TicketId>)
    requires Lookup(a, id).Some? && CanMove(a, Lookup(a, id).value, to)
    requires ParentTrail(a, p) && |p| >= 2 && IsRejected(a, p[|p| - 1])
    requires id in p ==> !to.Rejected? || IsRejected(a, id)
    ensures ParentTrail(SetStatus(a, id, to), p) && IsRejected(SetStatus(a, id, to), p[|p| - 1])
  {
    forall i: nat | i < |p| - 1 ensures ParentStep(SetStatus(a, id, to), p[i], p[i + 1]) {
      assert ParentStep(a, p[i], p[i + 1]);
      AncestorStands(a, p, i);
      AncestorStands(a, p, i + 1);
      ParentStepMoves(a, id, to, p[i], p[i + 1]);
    }
    LookupSet(a, id, to, p[|p| - 1]);
    if id == p[|p| - 1] {
      FixedMove(a, Lookup(a, id).value, to);
    }
  }

  /** A rejected member ends the trail sooner. */
  lemma {:induction false} AncestryCutShort(a: State, p: seq<TicketId>, n: nat)
    requires ParentTrail(a, p) && 0 < n < |p| && Gated(a, p[n]) && forall i :: 0 <= i < n ==> p[i] != p[n]
    ensures RejectedAncestry(SetStatus(a, p[n], Rejected), p[0])
  {
    var b, q := SetStatus(a, p[n], Rejected), p[..n + 1];
    forall i | 0 <= i < |q| - 1 ensures ParentStep(b, q[i], q[i + 1]) {
      assert ParentStep(a, p[i], p[i + 1]);
      RejectedOnly(a, p[n], p[i]);
      RejectedOnly(a, p[n], p[i + 1]);
    }
    RejectedOnly(a, p[n], p[n]);
    assert ParentTrail(b, q);
  }

  lemma {:induction false} AncestryStays(a: State, e: Event, b: State, r: TicketId)
    requires RejectedAncestry(a, r) && StepBy(Everything(true), a, e, b)
    ensures RejectedAncestry(b, r) || Lost(b, r)
  {
    var p :| ParentTrail(a, p) && |p| >= 2 && p[0] == r && IsRejected(a, p[|p| - 1]);
    if e.Archive? {
      AncestryThroughArchive(a, e.id, p);
    } else if e.id in p && e.to.Rejected? && !IsRejected(a, e.id) {
      var n := FirstAt(p, e.id);
      AncestorStands(a, p, n);
      if n == 0 {
        RejectedOnly(a, e.id, e.id);
      } else {
        AncestryCutShort(a, p, n);
      }
    } else {
      AncestryThroughMove(a, e.id, e.to, p);
    }
  }

  lemma {:induction false} AncestryForEver(run: seq<State>, i: nat, r: TicketId)
    requires Run(Everything(true), run) && i < |run| && RejectedAncestry(run[0], r)
    ensures RejectedAncestry(run[i], r) || Lost(run[i], r)
    decreases i
  {
    if i > 0 {
      AncestryForEver(run, i - 1, r);
      assert LoopStep(Everything(true), run[i - 1], run[i]);
      var e :| StepBy(Everything(true), run[i - 1], e, run[i]);
      if RejectedAncestry(run[i - 1], r) {
        AncestryStays(run[i - 1], e, run[i], r);
      } else {
        LostStays(run[i - 1], e, run[i], r);
      }
    }
  }

  lemma {:induction false} AncestryNeverReleased(s: State, r: TicketId)
    requires RejectedAncestry(s, r)
    ensures !Releasable(Everything(true), s, r)
  {
    forall run | Run(Everything(true), run) && run[0] == s ensures !HandedOut(run[|run| - 1], r) {
      var last := run[|run| - 1];
      AncestryForEver(run, |run| - 1, r);
      if p :| ParentTrail(last, p) && |p| >= 2 && p[0] == r && IsRejected(last, p[|p| - 1]) {
        AncestorStands(last, p, 0);
      }
    }
  }

  /** Waiting for a rejected parent is for ever, in every run and with or without a cold store. */
  lemma {:induction false} RejectedParentBlocks(s: State, r: TicketId, q: TicketId)
    requires ReadyWork(s, r) && Lookup(s, r).value.parent == Some(q) && Edge(s, r, q) && IsRejected(s, q)
    ensures !Releasable(Everything(true), s, r) && !Releasable(Everything(false), s, r)
  {
    assert ParentStep(s, r, q);
    assert ParentTrail(s, [r, q]);
    AncestryNeverReleased(s, r);
    assert Waits(s, r, q);
    assert Obstruction(false, s, [r, q]);
    ReleasableWithoutRejections(false, s, r);
  }

  // ---------------------------------------------------------------- clearing for a protected ticket

  ghost predicate NoStray(s: State) {
    forall y :: !Stray(s, y)
  }

  ghost predicate Known(s: State) {
    forall x, d :: Edge(s, x, d) ==> d in Ids(s)
  }

  ghost predicate KeptChild(s: State, keep: set<TicketId>, x: TicketId) {
    exists c :: c in keep && LiveChild(s, x, c)
  }

  /** A gated ticket of `keep` that waits for no other of them, nor for a parent of one. */
  ghost predicate Free(s: State, m: TicketId, keep: set<TicketId>) {
    && Gated(s, m) && m in keep && NoStray(s) && Known(s)
    && forall d :: Needs(s, m, d) ==> d !in keep && !KeptChild(s, keep, d)
  }

  /** From `s` to `b` tickets have only come to an end, edges have only gone, and `keep` stands. */
  ghost predicate Thinned(s: State, b: State, keep: set<TicketId>) {
    && (forall x :: x in keep ==> Reduced(Lookup(s, x), Lookup(b, x)))
    && (forall x, d :: Edge(b, x, d) ==> Edge(s, x, d))
    && NoStray(b) && Known(b)
  }

  /** A ticket that ended is where it was, less its status, or gone with all edges to it. */
  ghost predicate EndedCleanly(s: State, b: State, y: TicketId) {
    && Lessened(s, b, y) && (Satisfied(s, y) && y in Ids(b) ==> Satisfied(b, y))
    && (if y in Ids(b) then DepsOf(b, y) == DepsOf(s, y) else forall x :: !Edge(b, x, y))
  }

  lemma {:induction false} FinishEndsCleanly(s: State, y: TicketId)
    requires Lookup(s, y).Some? && !IsRejected(s, y)
    ensures EndedCleanly(s, Finished(s, y), y)
  {
    ClearingLessens(s, y);
    LookupSet(s, y, FinalStatus(Lookup(s, y).value.kind), y);
  }

  lemma {:induction false} ArchiveEndsCleanly(s: State, y: TicketId)
    requires IsRejected(s, y)
    ensures EndedCleanly(s, Archived(s, y), y)
  {
    ClearingLessens(s, y);
    LookupArchived(s, y, y);
    forall x ensures !Edge(Archived(s, y), x, y) {
      LookupArchived(s, y, x);
    }
  }

  lemma {:induction false} RejectEndsCleanly(s: State, y: TicketId)
    requires Gated(s, y)
    ensures EndedCleanly(s, SetStatus(s, y, Rejected), y)
  {
    RejectingLessens(s, y);
    RejectedOnly(s, y, y);
  }

  lemma {:induction false} EdgesBefore(s: State, b: State, y: TicketId, x: TicketId, d: TicketId)
    requires EndedCleanly(s, b, y) && Edge(b, x, d)
    ensures Edge(s, x, d)
  {
    if x != y {
      ClassBefore(s, b, y, x);
    }
  }

  lemma {:induction false} NeedsBefore(s: State, b: State, y: TicketId, x: TicketId, d: TicketId)
    requires EndedCleanly(s, b, y) && Needs(b, x, d)
    ensures Needs(s, x, d)
  {
    EdgesBefore(s, b, y, x, d);
    if d != y {
      ClassBefore(s, b, y, d);
    }
  }

  lemma {:induction false} EndingThins(s: State, b: State, y: TicketId, keep: set<TicketId>)
    requires EndedCleanly(s, b, y) && NoStray(s) && Known(s) && y !in keep
    ensures Thinned(s, b, keep)
  {
    forall x ensures !Stray(b, x) {
      if x != y {
        ClassBefore(s, b, y, x);
      }
    }
    forall x, d | Edge(b, x, d) ensures Edge(s, x, d) && d in Ids(b) {
      EdgesBefore(s, b, y, x, d);
      if d != y {
        ClassBefore(s, b, y, d);
      }
    }
  }

  lemma {:induction false} KeptChildBefore(s: State, b: State, y: TicketId, keep: set<TicketId>, d: TicketId)
    requires EndedCleanly(s, b, y) && y !in keep
    ensures KeptChild(b, keep, d) ==> KeptChild(s, keep, d)
  {
    forall c | c in keep && LiveChild(b, d, c) ensures LiveChild(s, d, c) {
      ClassBefore(s, b, y, c);
    }
  }

  lemma {:induction false} FreeAfter(s: State, b: State, y: TicketId, m: TicketId, keep: set<TicketId>)
    requires Free(s, m, keep) && EndedCleanly(s, b, y) && y !in keep
    ensures Free(b, m, keep) && Thinned(s, b, keep)
  {
    EndingThins(s, b, y, keep);
    ClassBefore(s, b, y, m);
    forall d | Needs(b, m, d) ensures d !in keep && !KeptChild(b, keep, d) {
      NeedsBefore(s, b, y, m, d);
      KeptChildBefore(s, b, y, keep, d);
    }
  }

  /** One thing to do about a dependency of `m`: finish, reject or archive it, or first end a subtask of it. */
  lemma {:induction false} FreeStep(s: State, m: TicketId, keep: set<TicketId>)
    returns (y: TicketId, run: seq<State>, b: State)
    requires Free(s, m, keep) && GateRefuses(s, Lookup(s, m).value)
    ensures RunFrom(Everything(true), run, s, b) && EndedCleanly(s, b, y) && y !in keep && Nearer(s, b)
  {
    var d :| d in Lookup(s, m).value.dependsOn && !Satisfied(s, d);
    assert Needs(s, m, d) && d in Ids(s);
    y := d;
    if IsRejected(s, d) {
      if c :| LiveChild(s, d, c) {
        y := c;
        assert y !in keep;
        run, b := EndLive(s, y);
      } else {
        run, b := EndRejected(s, d);
      }
    } else {
      run, b := EndLive(s, d);
    }
  }

  lemma {:induction false} EndRejected(s: State, y: TicketId) returns (run: seq<State>, b: State)
    requires IsRejected(s, y) && !HasLiveChild(s, y)
    ensures RunFrom(Everything(true), run, s, b) && EndedCleanly(s, b, y) && Nearer(s, b)
  {
    b := Archived(s, y);
    OneStep(Everything(true), s, Archive(y));
    run := [s, b];
    ArchiveEndsCleanly(s, y);
    ArchivingIsNearer(s, y);
  }

  /** Any live ticket but a stray one can be ended: what is gated by rejecting it, the rest by finishing it. */
  lemma {:induction false} EndLive(s: State, y: TicketId) returns (run: seq<State>, b: State)
    requires Lookup(s, y).Some? && !Terminal(Lookup(s, y).value.status) && !Stray(s, y)
    ensures RunFrom(Everything(true), run, s, b) && EndedCleanly(s, b, y) && Nearer(s, b)
  {
    if Gated(s, y) {
      b := SetStatus(s, y, Rejected);
      OneStep(Everything(true), s, Move(y, Rejected));
      run := [s, b];
      RejectEndsCleanly(s, y);
    } else {
      b := Finished(s, y);
      run := CanFinish(Everything(true), s, Lookup(s, y).value);
      FinishEndsCleanly(s, y);
    }
    assert y in LiveIds(s);
    EndingIsNearer(s, b, y);
  }

  lemma {:induction false} ThinnedTwice(s: State, b: State, c: State, keep: set<TicketId>)
    requires Thinned(s, b, keep) && Thinned(b, c, keep)
    ensures Thinned(s, c, keep)
  {
    forall x | x in keep ensures Reduced(Lookup(s, x), Lookup(c, x)) {
      assert Reduced(Lookup(s, x), Lookup(b, x)) && Reduced(Lookup(b, x), Lookup(c, x));
    }
  }

  /** Not farther: the same state or a nearer one. */
  ghost predicate NoFarther(s: State, b: State) {
    b == s || Nearer(s, b)
  }

  /** Everything a free ticket needs can be ended, and all of `keep` stands. */
  lemma {:induction false} ClearFor(s: State, m: TicketId, keep: set<TicketId>) returns (run: seq<State>, b: State)
    requires Free(s, m, keep)
    ensures RunFrom(Everything(true), run, s, b) && Thinned(s, b, keep) && NoFarther(s, b)
    ensures Gated(b, m) && !GateRefuses(b, Lookup(b, m).value)
    decreases LiveIds(s), RejectedIds(s)
  {
    run, b := [s], s;
    if GateRefuses(s, Lookup(s, m).value) {
      var y, first, c := FreeStep(s, m, keep);
      FreeAfter(s, c, y, m, keep);
      run, b := ClearFor(c, m, keep);
      ThinnedTwice(s, c, b, keep);
      RunThen(Everything(true), first, s, c, run, b);
      run := first + run[1..];
    }
  }

  // ---------------------------------------------------------------- up the line of parents

  /** Where the line of waiting parents of `r` ends for now. */
  ghost predicate LineTop(s: State, r: TicketId, p: seq<TicketId>) {
    ParentTrail(s, p) && p[0] == r && Gated(s, p[|p| - 1])
  }

  lemma {:induction false} LineIsWalk(s: State, p: seq<TicketId>)
    requires ParentTrail(s, p)
    ensures Walk(s, p)
  {
    forall i | 0 <= i < |p| - 1 ensures Edge(s, p[i], p[i + 1]) {
      assert ParentStep(s, p[i], p[i + 1]);
    }
  }

  /** No member of an acyclic walk depends on an earlier one, nor on itself. */
  lemma {:induction false} NoEdgeBack(s: State, p: seq<TicketId>, d: TicketId)
    requires Acyclic(s) && Walk(s, p) && Edge(s, p[|p| - 1], d)
    ensures d !in p
  {
    var q := p + [d];
    assert Walk(s, q) && |q| >= 2 && q[..|q| - 1] == p;
    NoWayBack(s, q);
  }

  /** Whoever tops the line does not wait for a gated parent. */
  lemma {:induction false} ClimbLine(s: State, r: TicketId, p: seq<TicketId>) returns (q: seq<TicketId>)
    requires Acyclic(s) && LineTop(s, r, p)
    ensures LineTop(s, r, q) && forall y :: ParentStep(s, q[|q| - 1], y) ==> !Gated(s, y)
    decreases Ids(s) - Members(p)
  {
    q := p;
    if y :| ParentStep(s, p[|p| - 1], y) && Gated(s, y) {
      LineIsWalk(s, p);
      NoEdgeBack(s, p, y);
      GrowsBy(p, y);
      assert ParentTrail(s, p + [y]);
      q := ClimbLine(s, r, p + [y]);
    }
  }

  /** If it does not wait for its parent at all, it is free within the line. */
  lemma {:induction false} TopIsFree(s: State, r: TicketId, p: seq<TicketId>, m: TicketId)
    requires Acyclic(s) && NoStray(s) && Known(s) && LineTop(s, r, p) && p[|p| - 1] == m && forall y :: !ParentStep(s, m, y)
    ensures Free(s, m, Members(p))
  {
    LineIsWalk(s, p);
    forall d | Needs(s, m, d) ensures d !in Members(p) && !KeptChild(s, Members(p), d) {
      NoEdgeBack(s, p, d);
      forall c | c in Members(p) ensures !LiveChild(s, d, c) {
        var i :| 0 <= i < |p| && p[i] == c;
        if i < |p| - 1 {
          assert ParentStep(s, p[i], p[i + 1]);
        } else {
          assert !ParentStep(s, m, d);
        }
      }
    }
  }

  // ---------------------------------------------------------------- the way to the top

  /** What the way keeps of a validated state. */
  ghost predicate OnTheWay(s: State, r: TicketId) {
    ReadyWork(s, r) && Acyclic(s) && NoStray(s) && Known(s) && !RejectedAncestry(s, r)
  }

  lemma {:induction false} StaysAcyclic(s: State, b: State)
    requires Acyclic(s) && forall x, d :: Edge(b, x, d) ==> Edge(s, x, d)
    ensures Acyclic(b)
  {
    forall p | Walk(b, p) && |p| >= 2 ensures p[0] != p[|p| - 1] {
      assert Walk(s, p);
      NoWayBack(s, p);
      assert p[0] in p[..|p| - 1];
    }
  }

  lemma {:induction false} AncestryBefore(s: State, b: State, y: TicketId, r: TicketId)
    requires EndedCleanly(s, b, y) && !IsRejected(b, y) && RejectedAncestry(b, r)
    ensures RejectedAncestry(s, r)
  {
    var p :| ParentTrail(b, p) && |p| >= 2 && p[0] == r && IsRejected(b, p[|p| - 1]);
    forall i | 0 <= i < |p| - 1 ensures ParentStep(s, p[i], p[i + 1]) {
      assert ParentStep(b, p[i], p[i + 1]);
      ClassBefore(s, b, y, p[i]);
      NeedsBefore(s, b, y, p[i], p[i + 1]);
      assert Reduced(Lookup(s, p[i]), Lookup(b, p[i]));
    }
    ClassBefore(s, b, y, p[|p| - 1]);
  }

  /** Finishing a ticket that is on nobody's hands keeps the way. */
  lemma {:induction false} FinishKeepsWay(s: State, y: TicketId, r: TicketId)
    requires OnTheWay(s, r) && y != r && Lookup(s, y).Some? && !IsRejected(s, y)
    ensures OnTheWay(Finished(s, y), r)
  {
    var b := Finished(s, y);
    FinishEndsCleanly(s, y);
    EndingThins(s, b, y, {r});
    StaysAcyclic(s, b);
    assert Reduced(Lookup(s, r), Lookup(b, r));
    LookupSet(s, y, FinalStatus(Lookup(s, y).value.kind), y);
    if RejectedAncestry(b, r) {
      AncestryBefore(s, b, y, r);
    }
  }

  /** Thinning the board around a line keeps the way, as the line itself is not rejected. */
  lemma {:induction false} ThinningKeepsWay(s: State, b: State, r: TicketId, p: seq<TicketId>)
    requires OnTheWay(s, r) && LineTop(s, r, p) && Thinned(s, b, Members(p)) && !GateRefuses(b, Lookup(b, p[|p| - 1]).value)
    ensures OnTheWay(b, r)
  {
    StaysAcyclic(s, b);
    NoNewAncestry(s, b, r, p);
    assert r in Members(p);
    assert Reduced(Lookup(s, r), Lookup(b, r));
  }

  lemma {:induction false} NoNewAncestry(s: State, b: State, r: TicketId, p: seq<TicketId>)
    requires LineTop(s, r, p) && Thinned(s, b, Members(p)) && !GateRefuses(b, Lookup(b, p[|p| - 1]).value)
    ensures !RejectedAncestry(b, r)
  {
    if q :| ParentTrail(b, q) && |q| >= 2 && q[0] == r && IsRejected(b, q[|q| - 1]) {
      LineIsFollowed(s, b, r, p, q, |q| - 1);
    }
  }

  /** A trail of waiting parents from `r` runs along the line and does not pass its top. */
  lemma {:induction false} LineIsFollowed(s: State, b: State, r: TicketId, p: seq<TicketId>, q: seq<TicketId>, i: nat)
    requires LineTop(s, r, p) && Thinned(s, b, Members(p)) && !GateRefuses(b, Lookup(b, p[|p| - 1]).value)
    requires ParentTrail(b, q) && q[0] == r && i < |q|
    ensures i < |p| && q[i] == p[i] && Gated(b, q[i])
    decreases i
  {
    if i == 0 {
      LineStands(s, b, r, p, 0);
    } else {
      LineIsFollowed(s, b, r, p, q, i - 1);
      assert ParentStep(b, q[i - 1], q[i]);
      assert q[i] in Lookup(b, q[i - 1]).value.dependsOn;
      assert i < |p|;
      LineStands(s, b, r, p, i - 1);
      LineStands(s, b, r, p, i);
      assert ParentStep(s, p[i - 1], p[i]);
    }
  }

  lemma {:induction false} LineStands(s: State, b: State, r: TicketId, p: seq<TicketId>, i: nat)
    requires LineTop(s, r, p) && Thinned(s, b, Members(p)) && i < |p|
    ensures Gated(b, p[i]) && Lookup(b, p[i]).value.parent == Lookup(s, p[i]).value.parent
  {
    assert p[i] in Members(p);
    assert Reduced(Lookup(s, p[i]), Lookup(b, p[i]));
    if i < |p| - 1 {
      assert ParentStep(s, p[i], p[i + 1]);
    }
  }

  lemma NearerStill(s: State, b: State, c: State)
    requires NoFarther(s, b) && Nearer(b, c)
    ensures Nearer(s, c)
  {
  }

  /** The top of the line is let through and finished, and the way is kept. */
  lemma {:induction false} FinishTop(s: State, r: TicketId, p: seq<TicketId>) returns (run: seq<State>, c: State)
    requires OnTheWay(s, r) && LineTop(s, r, p) && p[|p| - 1] != r && Free(s, p[|p| - 1], Members(p))
    ensures RunFrom(Everything(true), run, s, c) && OnTheWay(c, r) && Nearer(s, c)
  {
    var m := p[|p| - 1];
    var first, b := ClearFor(s, m, Members(p));
    ThinningKeepsWay(s, b, r, p);
    c := Finished(b, m);
    var last := CanFinish(Everything(true), b, Lookup(b, m).value);
    FinishKeepsWay(b, m, r);
    FinishEndsCleanly(b, m);
    assert m in LiveIds(b);
    EndingIsNearer(b, c, m);
    NearerStill(s, b, c);
    RunThen(Everything(true), first, s, b, last, c);
    run := first + last[1..];
  }

  /** One stretch of the way: a parent finished, by the gate or already let through; or `r` itself let through. */
  lemma {:induction false} OneStretch(s: State, r: TicketId) returns (run: seq<State>, c: State)
    requires OnTheWay(s, r) && GateRefuses(s, Lookup(s, r).value)
    ensures RunFrom(Everything(true), run, s, c) && (HandedOut(c, r) || (OnTheWay(c, r) && Nearer(s, c)))
  {
    assert LineTop(s, r, [r]);
    var p := ClimbLine(s, r, [r]);
    var m := p[|p| - 1];
    if y :| ParentStep(s, m, y) {
      ParentOfTop(s, r, p, y);
      c := Finished(s, y);
      run := CanFinish(Everything(true), s, Lookup(s, y).value);
      FinishKeepsWay(s, y, r);
      FinishEndsCleanly(s, y);
      assert y in LiveIds(s);
      EndingIsNearer(s, c, y);
    } else {
      TopIsFree(s, r, p, m);
      if m == r {
        run, c := ClearFor(s, m, Members(p));
        assert Reduced(Lookup(s, r), Lookup(c, r)) by {
          assert r in Members(p);
        }
      } else {
        run, c := FinishTop(s, r, p);
      }
    }
  }

  /** A parent the top waits for is neither gated, rejected, stray nor `r`, so it can be finished. */
  lemma {:induction false} ParentOfTop(s: State, r: TicketId, p: seq<TicketId>, y: TicketId)
    requires OnTheWay(s, r) && LineTop(s, r, p) && ParentStep(s, p[|p| - 1], y) && !Gated(s, y)
    ensures y != r && Lookup(s, y).Some? && !IsRejected(s, y) && Finishable(s, Lookup(s, y).value)
  {
    assert ParentTrail(s, p + [y]);
    assert (p + [y])[0] == r && (p + [y])[|p|] == y;
    assert !IsRejected(s, y) && !Stray(s, y);
    assert Edge(s, p[|p| - 1], y);
  }

  lemma {:induction false} WayToRelease(s: State, r: TicketId) returns (run: seq<State>, b: State)
    requires OnTheWay(s, r)
    ensures RunFrom(Everything(true), run, s, b) && HandedOut(b, r)
    decreases LiveIds(s), RejectedIds(s)
  {
    run, b := [s], s;
    if GateRefuses(s, Lookup(s, r).value) {
      var first, c := OneStretch(s, r);
      run, b := first, c;
      if !HandedOut(c, r) {
        var more;
        more, b := WayToRelease(c, r);
        RunThen(Everything(true), first, s, c, more, b);
        run := first + more[1..];
      }
    }
  }

  /**
   * With a cold store, in a validated state without stray tickets, over every run of the loop: a Ready ticket is
   * never handed out exactly when it waits for its own parent, that for its own, and so on up to a rejected one.
   */
  lemma {:induction false} ValidatedReleasesExactly(s: State, r: TicketId)
    requires WellFormed(s) && ReadyWork(s, r) && NoStray(s)
    ensures Releasable(Everything(true), s, r) <==> !RejectedAncestry(s, r)
  {
    if RejectedAncestry(s, r) {
      AncestryNeverReleased(s, r);
    } else {
      forall x, d | Edge(s, x, d) ensures d in Ids(s) {
        EdgeOfTicket(s, x, d);
      }
      var run, b := WayToRelease(s, r);
    }
  }

  // ---------------------------------------------------------------- witnesses

  /** A rejected ticket, a subtask of it that waits for it, and another ticket that does. */
  function SharedRejected(): State {
    [ Ticket("a", Feature, "", "", Medium, Rejected, [], None),
      Ticket("c", Feature, "", "", Medium, Ready, ["a"], Some("a")),
      Ticket("d", Feature, "", "", Medium, Ready, ["a"], None) ]
  }

  lemma {:induction false} SharedLookups()
    ensures var s := SharedRejected();
      && Lookup(s, "a") == Some(s[0]) && Lookup(s, "c") == Some(s[1]) && Lookup(s, "d") == Some(s[2])
      && Ids(s) == {"a", "c", "d"} && UniqueIds(s)
  {
    var s := SharedRejected();
    assert s[0].id == "a" && s[1].id == "c" && s[2].id == "d";
    assert "a"[0] != "c"[0] && "a"[0] != "d"[0] && "c"[0] != "d"[0];
    LookupIsFirst(s, 0);
    LookupIsFirst(s, 1);
    LookupIsFirst(s, 2);
  }

  lemma {:induction false} SharedIsAcyclic()
    ensures WellFormed(SharedRejected())
  {
    var s := SharedRejected();
    SharedLookups();
    forall p | Walk(s, p) && |p| >= 2 ensures p[0] != p[|p| - 1] {
      assert Edge(s, p[0], p[1]) && Edge(s, p[|p| - 2], p[|p| - 1]);
      assert p[|p| - 1] == "a" && p[0] != "a";
    }
  }

  /** Without rejections the other ticket waits for ever, with them it need not: the subtask is rejected first. */
  lemma {:induction false} RejectionLetsGo()
    ensures WellFormed(SharedRejected()) && ReadyWork(SharedRejected(), "d")
    ensures !Releasable(NoRejections(true), SharedRejected(), "d")
    ensures Releasable(Everything(true), SharedRejected(), "d")
  {
    var s := SharedRejected();
    SharedLookups();
    SharedIsAcyclic();
    SharedObstructed();
    ReleasableWithoutRejections(true, s, "d");
    assert Lookup(s, "d").value.parent == None;
    FreeOfParentExactly(s, "d");
  }

  lemma {:induction false} SharedObstructed()
    ensures Obstructed(true, SharedRejected(), "d")
  {
    var s := SharedRejected();
    SharedLookups();
    assert Waits(s, "d", "a") && Waits(s, "a", "c") && Waits(s, "c", "a");
    var p := ["d", "a", "c", "a"];
    assert p[1] in p[..3];
    assert Obstruction(true, s, p);
  }

  /** `r` waits for its parent, and that for its own, which is rejected. */
  function ThreeGenerations(): State {
    [ Ticket("g", Feature, "", "", Medium, Rejected, [], None),
      Ticket("q", Feature, "", "", Medium, Pending, ["g"], Some("g")),
      Ticket("r", Feature, "", "", Medium, Ready, ["q"], Some("q")) ]
  }

  lemma {:induction false} GenerationLookups()
    ensures var s := ThreeGenerations();
      && Lookup(s, "g") == Some(s[0]) && Lookup(s, "q") == Some(s[1]) && Lookup(s, "r") == Some(s[2])
      && Ids(s) == {"g", "q", "r"} && UniqueIds(s)
  {
    var s := ThreeGenerations();
    assert s[0].id == "g" && s[1].id == "q" && s[2].id == "r";
    assert "g"[0] != "q"[0] && "g"[0] != "r"[0] && "q"[0] != "r"[0];
    LookupIsFirst(s, 0);
    LookupIsFirst(s, 1);
    LookupIsFirst(s, 2);
  }

  lemma {:induction false} GenerationsAreAcyclic()
    ensures Acyclic(ThreeGenerations())
  {
    var s := ThreeGenerations();
    GenerationLookups();
    forall p | Walk(s, p) && |p| >= 2 ensures p[0] != p[|p| - 1] {
      GenerationsDescend(p, |p| - 1);
    }
  }

  function Generation(id: TicketId): nat {
    if id == "g" then 0 else if id == "q" then 1 else 2
  }

  lemma {:induction false} GenerationsDescend(p: seq<TicketId>, n: nat)
    requires Walk(ThreeGenerations(), p) && 0 < n < |p|
    ensures Generation(p[n]) < Generation(p[0])
    decreases n
  {
    GenerationLookups();
    assert Edge(ThreeGenerations(), p[n - 1], p[n]);
    assert "g"[0] != "q"[0];
    if n > 1 {
      GenerationsDescend(p, n - 1);
    }
  }

  lemma {:induction false} GrandparentRejected(s: State, r: TicketId, q: TicketId, g: TicketId)
    requires ParentStep(s, r, q) && ParentStep(s, q, g) && IsRejected(s, g)
    ensures !Releasable(Everything(true), s, r)
  {
    var p := [r, q, g];
    assert ParentTrail(s, p) && p[2] == g;
    AncestryNeverReleased(s, r);
  }

  /** Not being a subtask of a rejected ticket is not enough: here the parent is one. */
  lemma {:induction false} GrandparentBlocks()
    ensures WellFormed(ThreeGenerations()) && ReadyWork(ThreeGenerations(), "r")
    ensures Lookup(ThreeGenerations(), "r").value.parent == Some("q") && !IsRejected(ThreeGenerations(), "q")
    ensures !Releasable(Everything(true), ThreeGenerations(), "r")
  {
    GenerationLookups();
    GenerationsAreAcyclic();
    GrandparentRejected(ThreeGenerations(), "r", "q", "g");
  }

  /** And two Ready features depending on each other are let go once one of them is rejected. */
  lemma {:induction false} PairLetsGo()
    ensures OnCycle(Pair(Feature, Ready), "f") && Releasable(Everything(true), Pair(Feature, Ready), "f")
  {
    var s := Pair(Feature, Ready);
    PairLookups(Feature, Ready);
    assert "f"[0] != "g"[0];
    FreeOfParentExactly(s, "f");
  }
}
