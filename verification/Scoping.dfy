/** Sizing a sprint from delivery history and filling it from the backlog. */
module Scoping {
  import opened Domain
  import opened Sequences

  // ---------------------------------------------------------------- capacity

  function Sum(xs: seq<nat>): nat {
    if xs == [] then 0 else Sum(xs[..|xs| - 1]) + xs[|xs| - 1]
  }

  const CAPACITY_FLOOR: nat := 3

  /** `sprint_capacity`: the recent average with half as much stretch, less the approved reverts. */
  function SprintCapacity(doneHistory: seq<nat>, approvedReverts: nat): (cap: nat)
    ensures cap >= CAPACITY_FLOOR
  {
    var recent := Last(doneHistory, 5);
    if recent == [] then CAPACITY_FLOOR * 2
    else
      var avg := Sum(recent) / |recent|;
      var stretched := avg + avg / 2;
      var kept := if stretched < approvedReverts then 0 else stretched - approvedReverts;
      if kept < CAPACITY_FLOOR then CAPACITY_FLOOR else kept
  }

  /** The seats a steady velocity of `v` with `reverts` handed back would earn. */
  function Seats(v: nat, reverts: nat): nat {
    Max(CAPACITY_FLOOR, if v + v / 2 < reverts then 0 else v + v / 2 - reverts)
  }

  lemma {:induction false} SumBetween(xs: seq<nat>, lo: nat, hi: nat)
    requires forall k :: 0 <= k < |xs| ==> lo <= xs[k] <= hi
    ensures lo * |xs| <= Sum(xs) <= hi * |xs|
    decreases |xs|
  {
    if xs != [] {
      var n := |xs| - 1;
      SumBetween(xs[..n], lo, hi);
      assert lo * (n + 1) == lo * n + lo && hi * (n + 1) == hi * n + hi;
    }
  }

  lemma QuotientBetween(total: nat, n: nat, lo: nat, hi: nat)
    requires n > 0 && lo * n <= total <= hi * n
    ensures lo <= total / n <= hi
  {
    var q := total / n;
    assert q * n <= total < q * n + n;
    assert q < lo ==> (q + 1) * n <= lo * n;
    assert q > hi ==> (hi + 1) * n <= q * n;
  }

  /** Capacity follows delivery: the last five sprints bound it from both sides, older ones do not count. */
  lemma CapacityTracksDelivery(doneHistory: seq<nat>, reverts: nat, lo: nat, hi: nat)
    requires doneHistory != []
    requires forall k :: 0 <= k < |Last(doneHistory, 5)| ==> lo <= Last(doneHistory, 5)[k] <= hi
    ensures Seats(lo, reverts) <= SprintCapacity(doneHistory, reverts) <= Seats(hi, reverts)
  {
    var recent := Last(doneHistory, 5);
    SumBetween(recent, lo, hi);
    QuotientBetween(Sum(recent), |recent|, lo, hi);
  }

  // ---------------------------------------------------------------- the burn-down scope

  predicate IsWork(t: Ticket) {
    t.kind.Feature? || t.kind.Chore?
  }

  /** The first index from `from` on whose ticket satisfies `want`. */
  function FirstFrom(tickets: seq<Ticket>, want: Ticket -> bool, from: nat): (r: Option<nat>)
    ensures r.Some? ==> from <= r.value < |tickets| && want(tickets[r.value])
    ensures r.Some? ==> forall i :: from <= i < r.value ==> !want(tickets[i])
    ensures r.None? ==> forall i :: from <= i < |tickets| ==> !want(tickets[i])
    decreases |tickets| - from
  {
    if from >= |tickets| then None
    else if want(tickets[from]) then Some(from)
    else FirstFrom(tickets, want, from + 1)
  }

  /** `next_feature_work`: the first still-actionable feature or chore. */
  function NextFeatureWork(tickets: seq<Ticket>): Option<nat> {
    FirstFrom(tickets, (t: Ticket) => IsWork(t) && (t.status.Pending? || t.status.Ready?), 0)
  }

  /** An open bug that blocks the next feature work or precedes it. */
  predicate InScope(tickets: seq<Ticket>, i: nat)
    requires i < |tickets|
  {
    var next := NextFeatureWork(tickets);
    && next.Some?
    && tickets[i].kind.Bug? && tickets[i].status.Open?
    && (tickets[i].id in tickets[next.value].dependsOn || i < next.value)
  }

  ghost predicate ScopeHas(tickets: seq<Ticket>, k: nat, x: TicketId)
    requires k <= |tickets|
  {
    exists i :: 0 <= i < k && InScope(tickets, i) && tickets[i].id == x
  }

  /** `burn_down_scope` over the first `k` tickets. */
  function ScopeUpTo(tickets: seq<Ticket>, k: nat): seq<TicketId>
    requires k <= |tickets|
  {
    if k == 0 then []
    else ScopeUpTo(tickets, k - 1) + if InScope(tickets, k - 1) then [tickets[k - 1].id] else []
  }

  /** The scope is duplicate-free and consists of exactly the open bugs in the way. */
  lemma {:induction false} ScopeExactly(tickets: seq<Ticket>, k: nat)
    requires UniqueIds(tickets) && k <= |tickets|
    ensures NoRepeats(ScopeUpTo(tickets, k))
    ensures forall x :: x in ScopeUpTo(tickets, k) <==> ScopeHas(tickets, k, x)
    decreases k
  {
    if k > 0 {
      ScopeExactly(tickets, k - 1);
      var before, id := ScopeUpTo(tickets, k - 1), tickets[k - 1].id;
      forall x ensures ScopeHas(tickets, k, x) <==> ScopeHas(tickets, k - 1, x) || (InScope(tickets, k - 1) && id == x) {
      }
      assert !ScopeHas(tickets, k - 1, id);
      NoRepeatsConcat(before, [id]);
    }
  }

  function BurnDownScope(tickets: seq<Ticket>): seq<TicketId> {
    ScopeUpTo(tickets, |tickets|)
  }

  // ---------------------------------------------------------------- the commitment

  /** The reserved seat: the first Ready feature or chore, if there is one. */
  function Seat(tickets: seq<Ticket>): seq<TicketId> {
    var i := FirstFrom(tickets, (t: Ticket) => IsWork(t) && t.status.Ready?, 0);
    if i.Some? then [tickets[i.value].id] else []
  }

  /** An open bug the burn does not park. */
  predicate EligibleBug(floor: Option<Priority>, t: Ticket) {
    t.kind.Bug? && t.status.Open? && !BelowFloor(floor, t.priority)
  }

  /** Unshipped feature or chore work. */
  predicate EligibleWork(t: Ticket) {
    IsWork(t) && !(t.status.Done? || t.status.Documented? || t.status.Rejected?)
  }

  function Max(a: nat, b: nat): nat {
    if a < b then b else a
  }

  /** `picked` starts with the seat and the scope, without repetition and within bounds. */
  ghost predicate Committed(tickets: seq<Ticket>, cap: nat, picked: seq<TicketId>) {
    var base := Seat(tickets) + BurnDownScope(tickets);
    NoRepeats(picked) && base <= picked && |picked| <= Max(cap, |base|)
  }

  /** Every pick beyond the seat and the scope is the id of some ticket satisfying `ok`. */
  ghost predicate PicksOnly(tickets: seq<Ticket>, picked: seq<TicketId>, from: nat, ok: Ticket -> bool) {
    forall k :: from <= k < |picked| ==> exists i :: 0 <= i < |tickets| && tickets[i].id == picked[k] && ok(tickets[i])
  }

  ghost predicate AllPicked(tickets: seq<Ticket>, picked: seq<TicketId>, n: nat, ok: Ticket -> bool)
    requires n <= |tickets|
  {
    forall i :: 0 <= i < n && ok(tickets[i]) ==> tickets[i].id in picked
  }

  /** The picks from `from` on come from the first `n` tickets, which leave out nothing eligible. */
  ghost predicate InOrder(tickets: seq<Ticket>, picked: seq<TicketId>, from: nat, n: nat, ok: Ticket -> bool)
    requires n <= |tickets|
  {
    && AllPicked(tickets, picked, n, ok)
    && forall k :: from <= k < |picked| ==> exists i :: 0 <= i < n && tickets[i].id == picked[k]
  }

  lemma BaseHasNoRepeats(tickets: seq<Ticket>)
    requires UniqueIds(tickets)
    ensures NoRepeats(Seat(tickets) + BurnDownScope(tickets))
  {
    var seat, scope := Seat(tickets), BurnDownScope(tickets);
    ScopeExactly(tickets, |tickets|);
    var i := FirstFrom(tickets, (t: Ticket) => IsWork(t) && t.status.Ready?, 0);
    if i.Some? {
      assert !ScopeHas(tickets, |tickets|, tickets[i.value].id);
    }
    NoRepeatsConcat(seat, scope);
  }

  /** One pass of the allocator: tickets satisfying `ok`, in backlog order, while seats last. */
  method Fill(tickets: seq<Ticket>, picked0: seq<TicketId>, seats: nat, ok: Ticket -> bool) returns (picked: seq<TicketId>)
    requires NoRepeats(picked0)
    ensures NoRepeats(picked) && picked0 <= picked && |picked| <= |picked0| + seats
    ensures PicksOnly(tickets, picked, |picked0|, ok)
    ensures |picked| < |picked0| + seats ==> AllPicked(tickets, picked, |tickets|, ok)
    ensures exists n :: 0 <= n <= |tickets| && InOrder(tickets, picked, |picked0|, n, ok)
  {
    picked := picked0;
    var budget := seats;
    for n := 0 to |tickets|
      invariant NoRepeats(picked) && picked0 <= picked && |picked| + budget == |picked0| + seats
      invariant PicksOnly(tickets, picked, |picked0|, ok)
      invariant InOrder(tickets, picked, |picked0|, n, ok)
    {
      var t := tickets[n];
      if ok(t) && t.id !in picked {
        if budget == 0 {
          return;
        }
        NoRepeatsConcat(picked, [t.id]);
        picked, budget := picked + [t.id], budget - 1;
        assert tickets[n].id == picked[|picked| - 1];
      }
    }
  }

  ghost predicate AllBugsPicked(tickets: seq<Ticket>, floor: Option<Priority>, picked: seq<TicketId>) {
    forall i :: 0 <= i < |tickets| && EligibleBug(floor, tickets[i]) ==> tickets[i].id in picked
  }

  ghost predicate AllWorkPicked(tickets: seq<Ticket>, picked: seq<TicketId>) {
    forall i :: 0 <= i < |tickets| && EligibleWork(tickets[i]) ==> tickets[i].id in picked
  }

  /** Some feature or chore other than the seat is committed. */
  ghost predicate ExtraWorkPicked(tickets: seq<Ticket>, picked: seq<TicketId>) {
    exists i :: 0 <= i < |tickets| && EligibleWork(tickets[i]) && tickets[i].id in picked && tickets[i].id !in Seat(tickets)
  }

  /** Beyond its first `from` entries, `picked` names eligible bugs first, then eligible work. */
  ghost predicate BugsThenWork(tickets: seq<Ticket>, floor: Option<Priority>, picked: seq<TicketId>, from: nat) {
    exists mid :: from <= mid <= |picked|
      && PicksOnly(tickets, picked[..mid], from, t => EligibleBug(floor, t))
      && PicksOnly(tickets, picked, mid, t => EligibleWork(t))
  }

  /**
   * `open_backlog`: the seat and the whole burn-down scope first, then eligible
   * bugs, then eligible work, each in backlog order and within the capacity. Work
   * beyond the seat is committed only once every eligible bug is, and capacity is
   * left over only when nothing eligible is left out.
   */
  method OpenBacklog(tickets: seq<Ticket>, cap: nat, floor: Option<Priority>) returns (picked: seq<TicketId>)
    requires UniqueIds(tickets)
    ensures Committed(tickets, cap, picked)
    ensures BugsThenWork(tickets, floor, picked, |Seat(tickets) + BurnDownScope(tickets)|)
    ensures ExtraWorkPicked(tickets, picked) ==> AllBugsPicked(tickets, floor, picked)
    ensures |picked| < cap ==> AllBugsPicked(tickets, floor, picked) && AllWorkPicked(tickets, picked)
  {
    BaseHasNoRepeats(tickets);
    var base := Seat(tickets) + BurnDownScope(tickets);
    var seats := if cap < |base| then 0 else cap - |base|;
    var withBugs := Fill(tickets, base, seats, t => EligibleBug(floor, t));
    var left := if cap < |withBugs| then 0 else cap - |withBugs|;
    picked := Fill(tickets, withBugs, left, t => EligibleWork(t));
    assert picked[..|withBugs|] == withBugs;
    assert |withBugs| < cap ==> AllBugsPicked(tickets, floor, withBugs);
    BugsFirst(tickets, cap, floor, base, withBugs, picked);
  }

  lemma BugsFirst(
    tickets: seq<Ticket>, cap: nat, floor: Option<Priority>,
    base: seq<TicketId>, withBugs: seq<TicketId>, picked: seq<TicketId>)
    requires UniqueIds(tickets) && base == Seat(tickets) + BurnDownScope(tickets)
    requires base <= withBugs <= picked && |picked| <= Max(cap, |withBugs|)
    requires PicksOnly(tickets, withBugs, |base|, t => EligibleBug(floor, t))
    requires |withBugs| < cap ==> AllBugsPicked(tickets, floor, withBugs)
    ensures ExtraWorkPicked(tickets, picked) ==> |withBugs| < |picked|
    ensures |withBugs| < cap ==> AllBugsPicked(tickets, floor, picked)
  {
    if ExtraWorkPicked(tickets, picked) {
      var i :| 0 <= i < |tickets| && EligibleWork(tickets[i]) && tickets[i].id in picked && tickets[i].id !in Seat(tickets);
      WorkComesLast(tickets, floor, base, withBugs, i);
    }
    forall x | x in withBugs ensures x in picked {
      var k :| 0 <= k < |withBugs| && withBugs[k] == x;
      assert picked[k] == x;
    }
  }

  /** Work that is not the seat is in nobody's way before the bugs are done. */
  lemma WorkComesLast(
    tickets: seq<Ticket>, floor: Option<Priority>, base: seq<TicketId>, withBugs: seq<TicketId>, i: nat)
    requires UniqueIds(tickets) && base == Seat(tickets) + BurnDownScope(tickets) && base <= withBugs
    requires PicksOnly(tickets, withBugs, |base|, t => EligibleBug(floor, t))
    requires i < |tickets| && EligibleWork(tickets[i]) && tickets[i].id !in Seat(tickets)
    ensures tickets[i].id !in withBugs
  {
    forall k | 0 <= k < |withBugs| ensures withBugs[k] != tickets[i].id {
      if k < |Seat(tickets)| {
        assert withBugs[k] == base[k] == Seat(tickets)[k];
      } else if k < |base| {
        assert withBugs[k] == base[k] && base[k] in BurnDownScope(tickets);
        ScopeExactly(tickets, |tickets|);
        assert ScopeHas(tickets, |tickets|, base[k]);
        var j :| 0 <= j < |tickets| && InScope(tickets, j) && tickets[j].id == base[k];
        assert j != i;
      } else {
        var ok := (t: Ticket) => EligibleBug(floor, t);
        var j :| 0 <= j < |tickets| && tickets[j].id == withBugs[k] && ok(tickets[j]);
        assert j != i;
      }
    }
  }
}
