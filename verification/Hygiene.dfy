/** The backlog hygiene plan: resume what can run, reject younger duplicates, report the rest. */
module Hygiene {
  import opened Domain
  import opened Ordering
  import opened Sequences
  import opened Sorting
  import opened Text

  datatype HygieneTicket = HygieneTicket(
    id: string, title: string, status: Status, isBug: bool, hasLiveChildren: bool, createdAt: string)

  datatype HygienePlan = HygienePlan(
    resume: seq<string>, rejectDuplicates: seq<(string, string)>, reportHeld: seq<string>)

  type Backlog = seq<HygieneTicket>

  ghost predicate Unique(ts: Backlog) {
    forall i, j :: 0 <= i < j < |ts| ==> ts[i].id != ts[j].id
  }

  predicate Terminal(s: Status) {
    s.Done? || s.Documented? || s.Verified? || s.Rejected?
  }

  // ---------------------------------------------------------------- titles

  /** `split_whitespace`: the maximal runs of non-whitespace. */
  function Words(s: string): seq<string> {
    if s == [] then []
    else
      var n := |s| - 1;
      var before := Words(s[..n]);
      if IsWhitespace(s[n]) then before
      else if n > 0 && !IsWhitespace(s[n - 1]) && before != [] then
        before[..|before| - 1] + [before[|before| - 1] + [s[n]]]
      else before + [[s[n]]]
  }

  /** The title with runs of whitespace collapsed. */
  function Collapsed(title: string): string {
    Join(Words(title), " ")
  }

  /** Long enough, in bytes, not to collide by accident. */
  predicate Groups(t: HygieneTicket) {
    !Terminal(t.status) && |Bytes(Collapsed(t.title))| >= 20
  }

  /** Both are live, long-titled and equal up to whitespace and the case folding `fold`. */
  predicate Twins(fold: string -> string, a: HygieneTicket, b: HygieneTicket) {
    Groups(a) && Groups(b) && fold(Collapsed(a.title)) == fold(Collapsed(b.title))
  }

  // ---------------------------------------------------------------- decisions

  function CreatedAt(t: HygieneTicket): string {
    t.createdAt
  }

  /** Older in the order a stable sort by creation stamp gives: "" first, ties by position. */
  predicate Older(ts: Backlog, i: nat, j: nat)
    requires i < |ts| && j < |ts|
  {
    Before(CreatedAt, ts, i, j)
  }

  /** The oldest of its group. */
  ghost predicate Keeper(fold: string -> string, ts: Backlog, i: nat) {
    && i < |ts| && Groups(ts[i])
    && forall k :: 0 <= k < |ts| && k != i && Twins(fold, ts[k], ts[i]) ==> Older(ts, i, k)
  }

  /** A younger twin that is nobody's live work. */
  ghost predicate Rejects(fold: string -> string, ts: Backlog, j: nat) {
    && j < |ts| && Groups(ts[j]) && !ts[j].status.InProgress?
    && exists i :: 0 <= i < |ts| && Twins(fold, ts[i], ts[j]) && Older(ts, i, j)
  }

  ghost predicate Held(fold: string -> string, ts: Backlog, j: nat) {
    j < |ts| && ts[j].status.OnHold? && !Rejects(fold, ts, j) && !ts[j].hasLiveChildren
  }

  ghost predicate Resumes(fold: string -> string, ts: Backlog, j: nat) {
    Held(fold, ts, j) && !ts[j].isBug
  }

  /** The oldest twin among the first `n` tickets and `j` itself. */
  lemma {:induction false} OldestTwin(fold: string -> string, ts: Backlog, j: nat, n: nat) returns (i: nat)
    requires j < |ts| && n <= |ts| && Groups(ts[j])
    ensures i < |ts| && Twins(fold, ts[i], ts[j]) && (i == j || Older(ts, i, j))
    ensures forall k :: 0 <= k < n && k != i && Twins(fold, ts[k], ts[j]) ==> Older(ts, i, k)
    decreases n
  {
    i := j;
    if n > 0 {
      i := OldestTwin(fold, ts, j, n - 1);
      var m := n - 1;
      if m != i && Twins(fold, ts[m], ts[j]) {
        BeforeTotal(CreatedAt, ts, i, m);
        if Older(ts, m, i) {
          var was := i;
          i := m;
          forall k | 0 <= k < n && k != i && Twins(fold, ts[k], ts[j]) ensures Older(ts, i, k) {
            if k != was {
              BeforeTransitive(CreatedAt, ts, m, was, k);
            }
          }
          if was != j {
            BeforeTransitive(CreatedAt, ts, m, was, j);
          }
        }
      }
    }
  }

  /** Every group has its keeper, at least as old as any member and never rejected. */
  lemma KeeperExists(fold: string -> string, ts: Backlog, j: nat) returns (i: nat)
    requires j < |ts| && Groups(ts[j])
    ensures Keeper(fold, ts, i) && Twins(fold, ts[i], ts[j]) && (i == j || Older(ts, i, j))
    ensures !Rejects(fold, ts, i)
  {
    i := OldestTwin(fold, ts, j, |ts|);
    forall k | 0 <= k < |ts| && k != i && Twins(fold, ts[k], ts[i]) ensures Older(ts, i, k) {
      assert Twins(fold, ts[k], ts[j]);
    }
    KeeperStays(fold, ts, i);
  }

  lemma KeeperStays(fold: string -> string, ts: Backlog, i: nat)
    requires Keeper(fold, ts, i)
    ensures !Rejects(fold, ts, i)
  {
    forall k | 0 <= k < |ts| && Twins(fold, ts[k], ts[i]) ensures !Older(ts, k, i) {
      if k != i {
        BeforeTotal(CreatedAt, ts, i, k);
      } else {
        StrLessTotal(ts[i].createdAt, ts[i].createdAt);
      }
    }
  }

  lemma KeeperUnique(fold: string -> string, ts: Backlog, i: nat, k: nat)
    requires Keeper(fold, ts, i) && Keeper(fold, ts, k) && Twins(fold, ts[i], ts[k])
    ensures i == k
  {
    if i != k {
      BeforeTotal(CreatedAt, ts, i, k);
    }
  }

  /** What a duplicate is rejected for: a live, unrejected ticket of the same title that is no younger. */
  lemma RejectedForOlder(fold: string -> string, ts: Backlog, j: nat, i: nat)
    requires RejectedFor(fold, ts, j, i)
    ensures i != j && Groups(ts[i]) && !Rejects(fold, ts, i)
    ensures Key(fold, ts[i]) == Key(fold, ts[j])
    ensures !StrLess(ts[j].createdAt, ts[i].createdAt)
  {
    KeeperStays(fold, ts, i);
    StrLessTotal(ts[i].createdAt, ts[j].createdAt);
  }

  // ---------------------------------------------------------------- the planner

  function Key(fold: string -> string, t: HygieneTicket): string {
    fold(Collapsed(t.title))
  }

  /** The members of a title group, by position. */
  predicate InGroup(fold: string -> string, ts: Backlog, key: string, i: int) {
    0 <= i < |ts| && Groups(ts[i]) && Key(fold, ts[i]) == key
  }

  /** `g` lists the members of a group among the first `n` tickets, in backlog order. */
  ghost predicate ListsGroup(fold: string -> string, ts: Backlog, key: string, n: nat, g: seq<nat>) {
    Increasing(g) && forall i :: i in g <==> i < n && InGroup(fold, ts, key, i)
  }

  /** `g` lists a whole title group, oldest first. */
  ghost predicate GroupByAge(fold: string -> string, ts: Backlog, key: string, g: seq<nat>) {
    && InRange(ts, g) && SortedBy(CreatedAt, ts, g)
    && forall i :: i in g <==> InGroup(fold, ts, key, i)
  }

  /** `j` is rejected in favour of `i`. */
  ghost predicate RejectedFor(fold: string -> string, ts: Backlog, j: nat, i: nat) {
    Rejects(fold, ts, j) && Keeper(fold, ts, i) && Twins(fold, ts[i], ts[j])
  }

  /** The pair names a rejected member of the group and the group's keeper. */
  ghost predicate PairOf(fold: string -> string, ts: Backlog, key: string, pair: (string, string)) {
    exists j: nat, i: nat :: RejectedFor(fold, ts, j, i) && Key(fold, ts[j]) == key && pair == (ts[j].id, ts[i].id)
  }

  /** In a group sorted by age the first is the keeper, and the idle others are rejected. */
  lemma SortedGroup(fold: string -> string, ts: Backlog, key: string, g: seq<nat>, a: nat)
    requires GroupByAge(fold, ts, key, g) && a < |g|
    ensures Keeper(fold, ts, g[0]) && Twins(fold, ts[g[0]], ts[g[a]])
    ensures Rejects(fold, ts, g[a]) <==> a > 0 && !ts[g[a]].status.InProgress?
  {
    assert g[0] in g && g[a] in g;
    forall k: nat | k < |ts| && k != g[0] && Twins(fold, ts[k], ts[g[0]]) ensures Older(ts, g[0], k) {
      assert k in g;
      var b :| 0 <= b < |g| && g[b] == k;
    }
    if a == 0 {
      KeeperStays(fold, ts, g[0]);
    } else {
      assert Older(ts, g[0], g[a]);
    }
  }

  lemma PairAt(fold: string -> string, ts: Backlog, key: string, g: seq<nat>, a: nat)
    requires GroupByAge(fold, ts, key, g) && 1 <= a < |g| && !ts[g[a]].status.InProgress?
    ensures PairOf(fold, ts, key, (ts[g[a]].id, ts[g[0]].id))
  {
    SortedGroup(fold, ts, key, g, a);
    assert g[a] in g;
    assert RejectedFor(fold, ts, g[a], g[0]);
  }

  lemma PairFound(fold: string -> string, ts: Backlog, key: string, g: seq<nat>, pair: (string, string)) returns (a: nat)
    requires GroupByAge(fold, ts, key, g) && PairOf(fold, ts, key, pair)
    ensures 1 <= a < |g| && !ts[g[a]].status.InProgress? && pair == (ts[g[a]].id, ts[g[0]].id)
  {
    var j: nat, i: nat :| RejectedFor(fold, ts, j, i) && Key(fold, ts[j]) == key && pair == (ts[j].id, ts[i].id);
    assert j in g;
    a :| 0 <= a < |g| && g[a] == j;
    SortedGroup(fold, ts, key, g, a);
    KeeperUnique(fold, ts, i, g[0]);
  }

  /** The pairs for the idle members at positions 1 to `a` of a sorted group. */
  ghost predicate PairsUpTo(ts: Backlog, g: seq<nat>, a: nat, pairs: seq<(string, string)>)
    requires InRange(ts, g) && 1 <= a <= |g|
  {
    && NoRepeats(pairs)
    && forall pair :: pair in pairs <==>
      exists b :: 1 <= b < a && !ts[g[b]].status.InProgress? && pair == (ts[g[b]].id, ts[g[0]].id)
  }

  lemma PairsMore(ts: Backlog, g: seq<nat>, a: nat, pairs: seq<(string, string)>)
    requires Unique(ts) && InRange(ts, g) && SortedBy(CreatedAt, ts, g) && 1 <= a < |g| && PairsUpTo(ts, g, a, pairs)
    requires !ts[g[a]].status.InProgress?
    ensures PairsUpTo(ts, g, a + 1, pairs + [(ts[g[a]].id, ts[g[0]].id)])
  {
    var last := (ts[g[a]].id, ts[g[0]].id);
    forall b | 1 <= b < a ensures ts[g[b]].id != ts[g[a]].id {
      BeforeIrreflexive(CreatedAt, ts, g[b], g[a]);
    }
    NoRepeatsConcat(pairs, [last]);
    assert forall pair :: pair in pairs + [last] <==> pair in pairs || pair == last;
  }

  /** One group of the duplicate pass: keep the oldest, reject the younger that are not in progress. */
  method RejectGroup(fold: string -> string, ts: Backlog, key: string, group: seq<nat>) returns (pairs: seq<(string, string)>)
    requires Unique(ts) && group != [] && ListsGroup(fold, ts, key, |ts|, group)
    ensures forall pair :: pair in pairs <==> PairOf(fold, ts, key, pair)
    ensures NoRepeats(pairs)
  {
    pairs := [];
    assert forall a :: 0 <= a < |group| ==> group[a] in group;
    var g := StableSort(CreatedAt, ts, group);
    assert group[0] in g;
    for a := 1 to |g|
      invariant PairsUpTo(ts, g, a, pairs)
    {
      if !ts[g[a]].status.InProgress? {
        PairsMore(ts, g, a, pairs);
        pairs := pairs + [(ts[g[a]].id, ts[g[0]].id)];
      }
    }
    forall pair ensures pair in pairs <==> PairOf(fold, ts, key, pair) {
      if PairOf(fold, ts, key, pair) {
        var a := PairFound(fold, ts, key, g, pair);
      }
      if pair in pairs {
        var b :| 1 <= b < |g| && !ts[g[b]].status.InProgress? && pair == (ts[g[b]].id, ts[g[0]].id);
        PairAt(fold, ts, key, g, b);
      }
    }
  }

  /** Every non-empty group among the first `n` tickets, under its title. */
  ghost predicate Grouped(fold: string -> string, ts: Backlog, n: nat, byTitle: map<string, seq<nat>>)
    requires n <= |ts|
  {
    && (forall key :: key in byTitle ==> byTitle[key] != [] && ListsGroup(fold, ts, key, n, byTitle[key]))
    && (forall i :: 0 <= i < n && Groups(ts[i]) ==> Key(fold, ts[i]) in byTitle)
  }

  lemma ListsMore(fold: string -> string, ts: Backlog, key: string, n: nat, g: seq<nat>)
    requires n < |ts| && ListsGroup(fold, ts, key, n, g)
    ensures ListsGroup(fold, ts, key, n + 1, if InGroup(fold, ts, key, n) then g + [n] else g)
  {
    assert forall i :: i in g + [n] <==> i in g || i == n;
    forall a | 0 <= a < |g| ensures g[a] < n {
      assert g[a] in g;
    }
  }

  lemma GroupGrows(fold: string -> string, ts: Backlog, n: nat, byTitle: map<string, seq<nat>>, byTitle': map<string, seq<nat>>)
    requires n < |ts| && Grouped(fold, ts, n, byTitle)
    requires byTitle' == if !Groups(ts[n]) then byTitle
      else var key := Key(fold, ts[n]); byTitle[key := (if key in byTitle then byTitle[key] else []) + [n]]
    ensures Grouped(fold, ts, n + 1, byTitle')
  {
    forall key | key in byTitle' ensures byTitle'[key] != [] && ListsGroup(fold, ts, key, n + 1, byTitle'[key]) {
      ListsMore(fold, ts, key, n, if key in byTitle then byTitle[key] else []);
    }
  }

  /** `by_title`: the live long-titled tickets, grouped. */
  method GroupByTitle(fold: string -> string, ts: Backlog) returns (byTitle: map<string, seq<nat>>)
    ensures Grouped(fold, ts, |ts|, byTitle)
  {
    byTitle := map[];
    for n := 0 to |ts|
      invariant Grouped(fold, ts, n, byTitle)
    {
      ghost var before := byTitle;
      if Groups(ts[n]) {
        var key := Key(fold, ts[n]);
        byTitle := byTitle[key := (if key in byTitle then byTitle[key] else []) + [n]];
      }
      GroupGrows(fold, ts, n, before, byTitle);
    }
  }

  /** All pairs of the groups visited so far. */
  ghost predicate PairsOf(fold: string -> string, ts: Backlog, visited: set<string>, pairs: seq<(string, string)>) {
    NoRepeats(pairs) && forall pair :: pair in pairs <==> exists key :: key in visited && PairOf(fold, ts, key, pair)
  }

  lemma KeyOfPair(fold: string -> string, ts: Backlog, key: string, key': string, pair: (string, string))
    requires Unique(ts) && PairOf(fold, ts, key, pair) && PairOf(fold, ts, key', pair)
    ensures key == key'
  {
    var j: nat, i: nat :| RejectedFor(fold, ts, j, i) && Key(fold, ts[j]) == key && pair == (ts[j].id, ts[i].id);
    var j': nat, i': nat :| RejectedFor(fold, ts, j', i') && Key(fold, ts[j']) == key' && pair == (ts[j'].id, ts[i'].id);
    assert j == j';
  }

  lemma PairsOfMore(
    fold: string -> string, ts: Backlog, visited: set<string>, pairs: seq<(string, string)>, key: string, more: seq<(string, string)>)
    requires Unique(ts) && PairsOf(fold, ts, visited, pairs) && key !in visited
    requires NoRepeats(more) && forall pair :: pair in more <==> PairOf(fold, ts, key, pair)
    ensures PairsOf(fold, ts, visited + {key}, pairs + more)
  {
    forall pair | pair in pairs ensures pair !in more {
      var k :| k in visited && PairOf(fold, ts, k, pair);
      if pair in more {
        KeyOfPair(fold, ts, k, key, pair);
      }
    }
    NoRepeatsConcat(pairs, more);
  }

  /** The duplicate pass: the groups in whatever order the hash map yields them. */
  method RejectDuplicates(fold: string -> string, ts: Backlog) returns (pairs: seq<(string, string)>)
    requires Unique(ts)
    ensures NoRepeats(pairs)
    ensures forall pair :: pair in pairs <==>
      exists j: nat, i: nat :: RejectedFor(fold, ts, j, i) && pair == (ts[j].id, ts[i].id)
  {
    var byTitle := GroupByTitle(fold, ts);
    var keys := byTitle.Keys;
    pairs := [];
    while keys != {}
      invariant keys <= byTitle.Keys
      invariant PairsOf(fold, ts, byTitle.Keys - keys, pairs)
      decreases keys
    {
      var key :| key in keys;
      var more := RejectGroup(fold, ts, key, byTitle[key]);
      PairsOfMore(fold, ts, byTitle.Keys - keys, pairs, key, more);
      assert byTitle.Keys - keys + {key} == byTitle.Keys - (keys - {key});
      pairs, keys := pairs + more, keys - {key};
    }
    forall pair ensures pair in pairs <==>
      exists j: nat, i: nat :: RejectedFor(fold, ts, j, i) && pair == (ts[j].id, ts[i].id)
    {
      if j: nat, i: nat :| RejectedFor(fold, ts, j, i) && pair == (ts[j].id, ts[i].id) {
        assert PairOf(fold, ts, Key(fold, ts[j]), pair);
      }
    }
  }

  lemma RejectedIds(fold: string -> string, ts: Backlog, pairs: seq<(string, string)>, j: nat)
    requires Unique(ts) && j < |ts|
    requires forall pair :: pair in pairs <==>
      exists j: nat, i: nat :: RejectedFor(fold, ts, j, i) && pair == (ts[j].id, ts[i].id)
    ensures (exists pair :: pair in pairs && pair.0 == ts[j].id) <==> Rejects(fold, ts, j)
  {
    if Rejects(fold, ts, j) {
      var i := KeeperExists(fold, ts, j);
      assert RejectedFor(fold, ts, j, i);
      assert (ts[j].id, ts[i].id) in pairs;
    }
    if pair :| pair in pairs && pair.0 == ts[j].id {
      var j': nat, i: nat :| RejectedFor(fold, ts, j', i) && pair == (ts[j'].id, ts[i].id);
      assert j' == j;
    }
  }

  /** `ids` names the held tickets among the first `n` that are bugs, or that are not. */
  ghost predicate NamesHeld(fold: string -> string, ts: Backlog, bugs: bool, n: nat, ids: seq<string>)
    requires n <= |ts|
  {
    NoRepeats(ids) &&
    forall x :: x in ids <==> exists j: nat :: j < n && Held(fold, ts, j) && ts[j].isBug == bugs && ts[j].id == x
  }

  lemma NamesMore(fold: string -> string, ts: Backlog, bugs: bool, n: nat, ids: seq<string>)
    requires Unique(ts) && n < |ts| && NamesHeld(fold, ts, bugs, n, ids)
    ensures NamesHeld(fold, ts, bugs, n + 1,
      if Held(fold, ts, n) && ts[n].isBug == bugs then ids + [ts[n].id] else ids)
  {
    if Held(fold, ts, n) && ts[n].isBug == bugs {
      NoRepeatsConcat(ids, [ts[n].id]);
    }
  }

  /** The closing pass: every held ticket not rejected is resumed, or reported if it is a bug. */
  method SortHeld(fold: string -> string, ts: Backlog, pairs: seq<(string, string)>) returns (resume: seq<string>, report: seq<string>)
    requires Unique(ts)
    requires forall pair :: pair in pairs <==>
      exists j: nat, i: nat :: RejectedFor(fold, ts, j, i) && pair == (ts[j].id, ts[i].id)
    ensures NamesHeld(fold, ts, false, |ts|, resume)
    ensures NamesHeld(fold, ts, true, |ts|, report)
  {
    var rejected := set pair | pair in pairs :: pair.0;
    resume, report := [], [];
    for n := 0 to |ts|
      invariant NamesHeld(fold, ts, false, n, resume)
      invariant NamesHeld(fold, ts, true, n, report)
    {
      var t := ts[n];
      RejectedIds(fold, ts, pairs, n);
      assert t.id in rejected <==> Rejects(fold, ts, n);
      NamesMore(fold, ts, false, n, resume);
      NamesMore(fold, ts, true, n, report);
      if t.status.OnHold? && t.id !in rejected && !t.hasLiveChildren {
        if t.isBug {
          report := report + [t.id];
        } else {
          resume := resume + [t.id];
        }
      }
    }
  }

  /** What a plan for a backlog must hold. */
  ghost predicate PlanFor(fold: string -> string, ts: Backlog, plan: HygienePlan) {
    && NoRepeats(plan.rejectDuplicates)
    && (forall pair :: pair in plan.rejectDuplicates <==>
          exists j: nat, i: nat :: RejectedFor(fold, ts, j, i) && pair == (ts[j].id, ts[i].id))
    && NamesHeld(fold, ts, false, |ts|, plan.resume)
    && NamesHeld(fold, ts, true, |ts|, plan.reportHeld)
  }

  /** `plan`: its three lists name exactly the tickets the decisions select. */
  method Plan(fold: string -> string, ts: Backlog) returns (plan: HygienePlan)
    requires Unique(ts)
    ensures PlanFor(fold, ts, plan)
    ensures forall x :: x in plan.resume ==> x !in plan.reportHeld
    ensures forall pair :: pair in plan.rejectDuplicates ==> pair.0 !in plan.resume && pair.0 !in plan.reportHeld
  {
    var pairs := RejectDuplicates(fold, ts);
    var resume, report := SortHeld(fold, ts, pairs);
    HeldApart(fold, ts, resume, report);
    forall pair | pair in pairs ensures pair.0 !in resume && pair.0 !in report {
      var j: nat, i: nat :| RejectedFor(fold, ts, j, i) && pair == (ts[j].id, ts[i].id);
      RejectedNotHeld(fold, ts, j, false, resume);
      RejectedNotHeld(fold, ts, j, true, report);
    }
    plan := HygienePlan(resume, pairs, report);
  }

  lemma HeldApart(fold: string -> string, ts: Backlog, resume: seq<string>, report: seq<string>)
    requires Unique(ts) && NamesHeld(fold, ts, false, |ts|, resume) && NamesHeld(fold, ts, true, |ts|, report)
    ensures forall x :: x in resume ==> x !in report
  {
    forall x | x in resume ensures x !in report {
      var j: nat :| j < |ts| && Held(fold, ts, j) && ts[j].isBug == false && ts[j].id == x;
    }
  }

  lemma RejectedNotHeld(fold: string -> string, ts: Backlog, j: nat, bugs: bool, ids: seq<string>)
    requires Unique(ts) && j < |ts| && Rejects(fold, ts, j) && NamesHeld(fold, ts, bugs, |ts|, ids)
    ensures ts[j].id !in ids
  {
  }

  // ---------------------------------------------------------------- carrying a plan out

  const MAX_AUTO_ACTIONS: nat := 30

  /** The actions of one pass. */
  function First<T>(xs: seq<T>): seq<T> {
    if |xs| <= MAX_AUTO_ACTIONS then xs else xs[..MAX_AUTO_ACTIONS]
  }

  predicate MayBecome(t: HygieneTicket, to: Status) {
    TransitionAllowed(if t.isBug then Bug else Feature, t.status, to)
  }

  predicate NamedIn(pairs: seq<(string, string)>, id: string) {
    exists pair :: pair in pairs && pair.0 == id
  }

  function Resumed(plan: HygienePlan, t: HygieneTicket): HygieneTicket {
    if t.id in First(plan.resume) && MayBecome(t, Pending) then t.(status := Pending) else t
  }

  function RejectedBy(plan: HygienePlan, t: HygieneTicket): HygieneTicket {
    if NamedIn(First(plan.rejectDuplicates), t.id) && MayBecome(t, Rejected) then t.(status := Rejected) else t
  }

  /** The pass: so many resumes, then so many rejections, each by id and where the transition table allows it. */
  function CarriedOut(ts: Backlog, plan: HygienePlan): (r: Backlog)
    ensures |r| == |ts| && forall j :: 0 <= j < |ts| ==> r[j] == RejectedBy(plan, Resumed(plan, ts[j]))
  {
    seq(|ts|, j requires 0 <= j < |ts| => RejectedBy(plan, Resumed(plan, ts[j])))
  }

  /** The rejection is among the actions and the table allows it. */
  predicate Lands(plan: HygienePlan, t: HygieneTicket) {
    NamedIn(First(plan.rejectDuplicates), t.id) && MayBecome(t, Rejected)
  }

  lemma FirstAreIn<T>(xs: seq<T>)
    ensures forall x :: x in First(xs) ==> x in xs
    ensures |xs| <= MAX_AUTO_ACTIONS ==> First(xs) == xs
    ensures NoRepeats(xs) && |xs| > MAX_AUTO_ACTIONS ==> xs[MAX_AUTO_ACTIONS] in xs && xs[MAX_AUTO_ACTIONS] !in First(xs)
  {
  }

  lemma ResumedIds(fold: string -> string, ts: Backlog, plan: HygienePlan, j: nat)
    requires Unique(ts) && PlanFor(fold, ts, plan) && j < |ts|
    ensures ts[j].id in plan.resume <==> Resumes(fold, ts, j)
  {
  }

  lemma NamedAreRejects(fold: string -> string, ts: Backlog, plan: HygienePlan, j: nat)
    requires Unique(ts) && PlanFor(fold, ts, plan) && j < |ts|
    ensures NamedIn(First(plan.rejectDuplicates), ts[j].id) ==> Rejects(fold, ts, j)
  {
    FirstAreIn(plan.rejectDuplicates);
    RejectedIds(fold, ts, plan.rejectDuplicates, j);
  }

  lemma FirstAreResumes(fold: string -> string, ts: Backlog, plan: HygienePlan, j: nat)
    requires Unique(ts) && PlanFor(fold, ts, plan) && j < |ts|
    ensures ts[j].id in First(plan.resume) ==> Resumes(fold, ts, j)
  {
    FirstAreIn(plan.resume);
    ResumedIds(fold, ts, plan, j);
  }

  /** What becomes of one ticket. */
  lemma CarriedAt(fold: string -> string, ts: Backlog, plan: HygienePlan, j: nat)
    requires Unique(ts) && PlanFor(fold, ts, plan) && j < |ts|
    ensures CarriedOut(ts, plan)[j] ==
      if Rejects(fold, ts, j) && Lands(plan, ts[j]) then ts[j].(status := Rejected)
      else if Resumes(fold, ts, j) && ts[j].id in First(plan.resume) then ts[j].(status := Pending)
      else ts[j]
  {
    NamedAreRejects(fold, ts, plan, j);
    FirstAreResumes(fold, ts, plan, j);
  }

  lemma StillRejected(fold: string -> string, ts: Backlog, plan: HygienePlan, j: nat)
    requires Unique(ts) && PlanFor(fold, ts, plan) && Rejects(fold, ts, j) && !Lands(plan, ts[j])
    ensures Rejects(fold, CarriedOut(ts, plan), j)
  {
    var now := CarriedOut(ts, plan);
    CarriedAt(fold, ts, plan, j);
    var i := KeeperExists(fold, ts, j);
    CarriedAt(fold, ts, plan, i);
    KeeperIsOther(fold, ts, i, j);
    assert Twins(fold, now[i], now[j]) && Older(now, i, j);
  }

  lemma RejectedBefore(fold: string -> string, ts: Backlog, plan: HygienePlan, j: nat)
    requires Unique(ts) && PlanFor(fold, ts, plan) && Rejects(fold, CarriedOut(ts, plan), j)
    ensures Rejects(fold, ts, j) && !Lands(plan, ts[j])
  {
    var now := CarriedOut(ts, plan);
    CarriedAt(fold, ts, plan, j);
    var i: nat :| i < |now| && Twins(fold, now[i], now[j]) && Older(now, i, j);
    CarriedAt(fold, ts, plan, i);
    assert Twins(fold, ts[i], ts[j]) && Older(ts, i, j);
  }

  /** A duplicate is a duplicate again exactly when its rejection did not land. */
  lemma RejectsAgain(fold: string -> string, ts: Backlog, plan: HygienePlan, j: nat)
    requires Unique(ts) && PlanFor(fold, ts, plan) && j < |ts|
    ensures Rejects(fold, CarriedOut(ts, plan), j) <==> Rejects(fold, ts, j) && !Lands(plan, ts[j])
  {
    if Rejects(fold, ts, j) && !Lands(plan, ts[j]) {
      StillRejected(fold, ts, plan, j);
    }
    if Rejects(fold, CarriedOut(ts, plan), j) {
      RejectedBefore(fold, ts, plan, j);
    }
  }

  /** The keeper of a rejected ticket is another one. */
  lemma KeeperIsOther(fold: string -> string, ts: Backlog, i: nat, j: nat)
    requires Rejects(fold, ts, j) && Keeper(fold, ts, i)
    ensures i != j
  {
    KeeperStays(fold, ts, i);
  }

  lemma HeldAgain(fold: string -> string, ts: Backlog, plan: HygienePlan, j: nat)
    requires Unique(ts) && PlanFor(fold, ts, plan) && j < |ts|
    ensures Held(fold, CarriedOut(ts, plan), j) <==>
      Held(fold, ts, j) && (ts[j].isBug || ts[j].id !in First(plan.resume))
    ensures CarriedOut(ts, plan)[j].id == ts[j].id && CarriedOut(ts, plan)[j].isBug == ts[j].isBug
  {
    CarriedAt(fold, ts, plan, j);
    RejectsAgain(fold, ts, plan, j);
  }

  /** No duplicate is named twice. */
  lemma PairsByTicket(fold: string -> string, ts: Backlog, plan: HygienePlan, a: nat, b: nat)
    requires Unique(ts) && PlanFor(fold, ts, plan) && a < |plan.rejectDuplicates| && b < |plan.rejectDuplicates|
    requires plan.rejectDuplicates[a].0 == plan.rejectDuplicates[b].0
    ensures a == b
  {
    var p, q := plan.rejectDuplicates[a], plan.rejectDuplicates[b];
    assert p in plan.rejectDuplicates && q in plan.rejectDuplicates;
    var j: nat, i: nat :| RejectedFor(fold, ts, j, i) && p == (ts[j].id, ts[i].id);
    var j': nat, i': nat :| RejectedFor(fold, ts, j', i') && q == (ts[j'].id, ts[i'].id);
    assert j == j';
    KeeperUnique(fold, ts, i, i');
  }

  /** All rejections land exactly when they fit into one pass and the table allows each. */
  lemma AllLand(fold: string -> string, ts: Backlog, plan: HygienePlan)
    requires Unique(ts) && PlanFor(fold, ts, plan)
    ensures (forall j: nat :: Rejects(fold, ts, j) ==> Lands(plan, ts[j])) <==>
      |plan.rejectDuplicates| <= MAX_AUTO_ACTIONS && forall j: nat :: Rejects(fold, ts, j) ==> MayBecome(ts[j], Rejected)
  {
    var pairs := plan.rejectDuplicates;
    FirstAreIn(pairs);
    forall j: nat | Rejects(fold, ts, j) ensures NamedIn(pairs, ts[j].id) {
      RejectedIds(fold, ts, pairs, j);
    }
    if |pairs| > MAX_AUTO_ACTIONS {
      var j := LeftOver(fold, ts, plan);
    }
  }

  /** What does not fit into the pass is not named by it. */
  lemma LeftOver(fold: string -> string, ts: Backlog, plan: HygienePlan) returns (j: nat)
    requires Unique(ts) && PlanFor(fold, ts, plan) && |plan.rejectDuplicates| > MAX_AUTO_ACTIONS
    ensures Rejects(fold, ts, j) && !NamedIn(First(plan.rejectDuplicates), ts[j].id)
  {
    var pairs := plan.rejectDuplicates;
    var pair := pairs[MAX_AUTO_ACTIONS];
    assert pair in pairs;
    var i: nat;
    j, i :| RejectedFor(fold, ts, j, i) && pair == (ts[j].id, ts[i].id);
    forall other | other in First(pairs) ensures other.0 != pair.0 {
      var a :| 0 <= a < MAX_AUTO_ACTIONS && pairs[a] == other;
      if other.0 == pair.0 {
        PairsByTicket(fold, ts, plan, a, MAX_AUTO_ACTIONS);
      }
    }
  }

  lemma NothingToReject(fold: string -> string, ts: Backlog, plan: HygienePlan)
    requires Unique(ts) && PlanFor(fold, ts, plan)
    ensures plan.rejectDuplicates == [] <==> forall j: nat :: !Rejects(fold, ts, j)
  {
    HeadIsMember(plan.rejectDuplicates);
    forall j: nat | Rejects(fold, ts, j) ensures plan.rejectDuplicates != [] {
      RejectedIds(fold, ts, plan.rejectDuplicates, j);
    }
  }

  lemma NothingToResume(fold: string -> string, ts: Backlog, plan: HygienePlan)
    requires Unique(ts) && PlanFor(fold, ts, plan)
    ensures plan.resume == [] <==> forall j: nat :: !Resumes(fold, ts, j)
  {
    if plan.resume != [] {
      var j := ResumedAt(fold, ts, plan, plan.resume[0]);
    }
    forall j: nat | Resumes(fold, ts, j) ensures plan.resume != [] {
      ResumedIds(fold, ts, plan, j);
    }
  }

  lemma ResumedAt(fold: string -> string, ts: Backlog, plan: HygienePlan, x: string) returns (j: nat)
    requires PlanFor(fold, ts, plan) && x in plan.resume
    ensures Resumes(fold, ts, j) && ts[j].id == x
  {
    j :| j < |ts| && Held(fold, ts, j) && ts[j].isBug == false && ts[j].id == x;
  }

  /**
   * The plan for the backlog after a pass: it rejects nobody exactly when all rejections fitted into the pass and
   * the transition table allowed each, it resumes nobody exactly when all resumes fitted, and it reports the same
   * held bugs.
   */
  lemma PassSettlesExactly(fold: string -> string, ts: Backlog, plan: HygienePlan, again: HygienePlan)
    requires Unique(ts) && PlanFor(fold, ts, plan) && PlanFor(fold, CarriedOut(ts, plan), again)
    ensures again.rejectDuplicates == [] <==>
      |plan.rejectDuplicates| <= MAX_AUTO_ACTIONS && forall j: nat :: Rejects(fold, ts, j) ==> MayBecome(ts[j], Rejected)
    ensures again.resume == [] <==> |plan.resume| <= MAX_AUTO_ACTIONS
    ensures forall x :: x in again.reportHeld <==> x in plan.reportHeld
  {
    RejectionsSettle(fold, ts, plan, again);
    ResumesSettle(fold, ts, plan, again);
    ReportsStay(fold, ts, plan, again);
  }

  lemma RejectionsSettle(fold: string -> string, ts: Backlog, plan: HygienePlan, again: HygienePlan)
    requires Unique(ts) && PlanFor(fold, ts, plan) && PlanFor(fold, CarriedOut(ts, plan), again)
    ensures again.rejectDuplicates == [] <==>
      |plan.rejectDuplicates| <= MAX_AUTO_ACTIONS && forall j: nat :: Rejects(fold, ts, j) ==> MayBecome(ts[j], Rejected)
  {
    var now := CarriedOut(ts, plan);
    forall j: nat | j < |ts| ensures Rejects(fold, now, j) <==> Rejects(fold, ts, j) && !Lands(plan, ts[j]) {
      RejectsAgain(fold, ts, plan, j);
    }
    AllLand(fold, ts, plan);
    StaysUnique(ts, plan);
    NothingToReject(fold, now, again);
  }

  lemma StaysUnique(ts: Backlog, plan: HygienePlan)
    requires Unique(ts)
    ensures Unique(CarriedOut(ts, plan))
  {
  }

  lemma ResumesSettle(fold: string -> string, ts: Backlog, plan: HygienePlan, again: HygienePlan)
    requires Unique(ts) && PlanFor(fold, ts, plan) && PlanFor(fold, CarriedOut(ts, plan), again)
    ensures again.resume == [] <==> |plan.resume| <= MAX_AUTO_ACTIONS
  {
    var now := CarriedOut(ts, plan);
    forall j: nat | j < |ts| ensures Resumes(fold, now, j) <==> Resumes(fold, ts, j) && ts[j].id !in First(plan.resume) {
      HeldAgain(fold, ts, plan, j);
    }
    AllResumed(fold, ts, plan);
    StaysUnique(ts, plan);
    NothingToResume(fold, now, again);
  }

  lemma ReportsStay(fold: string -> string, ts: Backlog, plan: HygienePlan, again: HygienePlan)
    requires Unique(ts) && PlanFor(fold, ts, plan) && PlanFor(fold, CarriedOut(ts, plan), again)
    ensures forall x :: x in again.reportHeld <==> x in plan.reportHeld
  {
    var now := CarriedOut(ts, plan);
    forall j: nat | j < |ts|
      ensures Held(fold, now, j) && now[j].isBug <==> Held(fold, ts, j) && ts[j].isBug
      ensures now[j].id == ts[j].id && now[j].isBug == ts[j].isBug
    {
      HeldAgain(fold, ts, plan, j);
    }
  }

  lemma AllResumed(fold: string -> string, ts: Backlog, plan: HygienePlan)
    requires Unique(ts) && PlanFor(fold, ts, plan)
    ensures (forall j: nat :: Resumes(fold, ts, j) ==> ts[j].id in First(plan.resume)) <==> |plan.resume| <= MAX_AUTO_ACTIONS
  {
    FirstAreIn(plan.resume);
    forall j: nat | Resumes(fold, ts, j) ensures ts[j].id in plan.resume {
      ResumedIds(fold, ts, plan, j);
    }
    if |plan.resume| > MAX_AUTO_ACTIONS {
      var j := ResumedAt(fold, ts, plan, plan.resume[MAX_AUTO_ACTIONS]);
    }
  }

  /** No title loses its last live ticket. */
  lemma TitlesSurvive(fold: string -> string, ts: Backlog, plan: HygienePlan, j: nat) returns (i: nat)
    requires Unique(ts) && PlanFor(fold, ts, plan) && j < |ts| && Groups(ts[j])
    ensures i < |ts| && Groups(CarriedOut(ts, plan)[i])
    ensures Key(fold, CarriedOut(ts, plan)[i]) == Key(fold, ts[j])
    ensures i == j || Older(ts, i, j)
  {
    i := KeeperExists(fold, ts, j);
    CarriedAt(fold, ts, plan, i);
  }

  // ---------------------------------------------------------------- a duplicate planned again

  /** An open bug and a twin of it that is already fixed. */
  function FixedTwin(title: string, early: string, late: string): Backlog {
    [HygieneTicket("a", title, Open, true, false, early), HygieneTicket("b", title, Fixed, true, false, late)]
  }

  lemma {:induction false} BytesAtLeast(s: string)
    ensures |Bytes(s)| >= |s|
    decreases |s|
  {
    if s != [] {
      BytesAtLeast(s[1..]);
    }
  }

  lemma {:induction false} WordsOfWord(s: string)
    requires s != [] && forall i :: 0 <= i < |s| ==> !IsWhitespace(s[i])
    ensures Words(s) == [s]
    decreases |s|
  {
    var n := |s| - 1;
    assert s[..n] + [s[n]] == s;
    if n > 0 {
      WordsOfWord(s[..n]);
      var before := Words(s[..n]);
      assert before == [s[..n]] && before[..0] + [before[0] + [s[n]]] == [s];
    } else {
      assert Words(s[..n]) == [] && [] + [[s[n]]] == [s];
    }
  }

  /** A title of twenty characters and no space is long enough to collide on. */
  lemma {:induction false} LongWordGroups(title: string)
    requires |title| >= 20 && forall i :: 0 <= i < |title| ==> !IsWhitespace(title[i])
    ensures |Bytes(Collapsed(title))| >= 20
  {
    WordsOfWord(title);
    BytesAtLeast(title);
  }

  /** The rejection of the younger, fixed twin is refused by the table, so the next plan names it again. */
  lemma {:induction false} FixedTwinPlannedAgain(
    fold: string -> string, title: string, early: string, late: string, plan: HygienePlan, again: HygienePlan)
    requires |Bytes(Collapsed(title))| >= 20 && StrLess(early, late)
    requires var ts := FixedTwin(title, early, late); PlanFor(fold, ts, plan) && PlanFor(fold, CarriedOut(ts, plan), again)
    ensures CarriedOut(FixedTwin(title, early, late), plan)[1] == FixedTwin(title, early, late)[1]
    ensures NamedIn(again.rejectDuplicates, "b")
  {
    var ts := FixedTwin(title, early, late);
    FixedTwinRejected(fold, title, early, late);
    CarriedAt(fold, ts, plan, 1);
    RejectsAgain(fold, ts, plan, 1);
    StaysUnique(ts, plan);
    RejectedIds(fold, CarriedOut(ts, plan), again.rejectDuplicates, 1);
  }

  lemma {:induction false} FixedTwinRejected(fold: string -> string, title: string, early: string, late: string)
    requires |Bytes(Collapsed(title))| >= 20 && StrLess(early, late)
    ensures var ts := FixedTwin(title, early, late);
      Unique(ts) && Rejects(fold, ts, 1) && !MayBecome(ts[1], Rejected)
  {
    var ts := FixedTwin(title, early, late);
    assert ts[0].id[0] != ts[1].id[0];
    assert Twins(fold, ts[0], ts[1]) && Older(ts, 0, 1);
  }
}
