/**
 * The critical path: a memoised longest-chain search over unfinished work that
 * terminates on cyclic states and is exact on acyclic ones.
 */
module CriticalPath {
  import opened Domain
  import opened Ordering
  import opened Radar
  import opened Sequences

  // ---------------------------------------------------------------- chains and their order

  /** Unfinished tickets, each declaring the next as a dependency. */
  ghost predicate Chain(s: State, c: seq<TicketId>) {
    && (forall i :: 0 <= i < |c| ==> Unfinished(s, c[i]))
    && (forall i :: 0 <= i < |c| - 1 ==> Edge(s, c[i], c[i + 1]))
  }

  /** The highest priority on a chain, 0 for the empty one. */
  function MaxRank(s: State, c: seq<TicketId>): nat {
    if c == [] then 0
    else
      var t := Lookup(s, c[0]);
      var head := if t.Some? then PriorityRank(t.value.priority) else 0;
      var tail := MaxRank(s, c[1..]);
      if head > tail then head else tail
  }

  /** `better_chain`: longer, then higher priority, then smaller id sequence. */
  predicate Better(s: State, a: seq<TicketId>, b: seq<TicketId>) {
    if |a| != |b| then |a| > |b|
    else if MaxRank(s, a) != MaxRank(s, b) then MaxRank(s, a) > MaxRank(s, b)
    else SeqLess(a, b)
  }

  lemma BetterTransitive(s: State, a: seq<TicketId>, b: seq<TicketId>, c: seq<TicketId>)
    requires Better(s, a, b) && Better(s, b, c)
    ensures Better(s, a, c)
  {
    if |a| == |c| && MaxRank(s, a) == MaxRank(s, c) {
      SeqLessTransitive(a, b, c);
    }
  }

  /** The first two keys as a total preorder. */
  predicate AtLeast(s: State, a: seq<TicketId>, b: seq<TicketId>) {
    |a| > |b| || (|a| == |b| && MaxRank(s, a) >= MaxRank(s, b))
  }

  /** All three keys: nothing strictly better than `a` in `b`. */
  predicate Unbeaten(s: State, a: seq<TicketId>, b: seq<TicketId>) {
    !Better(s, b, a)
  }

  // ---------------------------------------------------------------- the unmemoised search

  /**
   * The search without its cache: the best chain below `id`, skipping the nodes
   * on the current walk.
   */
  function PlainFrom(s: State, id: TicketId, seen: set<TicketId>): seq<TicketId>
    requires id !in seen
    decreases Ids(s) - seen, 0
  {
    match Lookup(s, id)
    case None => []
    case Some(t) => PlainOver(s, t.dependsOn, seen + {id})
  }

  /** The best candidate the first `|deps|` dependencies offer. */
  function PlainOver(s: State, deps: seq<TicketId>, seen: set<TicketId>): seq<TicketId>
    decreases Ids(s) - seen, |deps|
  {
    if deps == [] then []
    else
      var n := |deps| - 1;
      var best := PlainOver(s, deps[..n], seen);
      var d := deps[n];
      if d in seen || !Unfinished(s, d) then best
      else
        var candidate := [d] + PlainFrom(s, d, seen);
        if Better(s, candidate, best) then candidate else best
  }

  /** The best of the chains starting at the first `k` tickets. */
  function PlainBest(s: State, k: nat): seq<TicketId>
    requires k <= |s|
  {
    if k == 0 then []
    else
      var best := PlainBest(s, k - 1);
      var t := s[k - 1];
      if Resolved(t.status) then best
      else
        var candidate := [t.id] + PlainFrom(s, t.id, {});
        if |candidate| >= 2 && Better(s, candidate, best) then candidate else best
  }

  /** Every node of the current walk lies above `id`. */
  ghost predicate Above(s: State, seen: set<TicketId>, id: TicketId) {
    forall x :: x in seen ==> Reaches(s, x, id)
  }

  /** Without cycles the walk's ancestors never reappear, so the guard never fires. */
  lemma AboveDependency(s: State, seen: set<TicketId>, id: TicketId, d: TicketId)
    requires Acyclic(s) && Above(s, seen, id) && Edge(s, id, d)
    ensures Above(s, seen + {id}, d) && d !in seen + {id}
  {
    forall x | x in seen + {id} ensures Reaches(s, x, d) {
      if x == id {
        EdgeReaches(s, id, d);
      } else {
        ReachesStep(s, x, id, d);
      }
    }
    assert !OnCycle(s, d);
  }

  /** So the answer below a node does not depend on how the walk came to it. */
  lemma {:induction false} WalkIrrelevant(s: State, id: TicketId, a: set<TicketId>, b: set<TicketId>)
    requires Acyclic(s) && Above(s, a, id) && Above(s, b, id)
    requires id !in a && id !in b
    ensures PlainFrom(s, id, a) == PlainFrom(s, id, b)
    decreases Ids(s) - a, 0
  {
    var t := Lookup(s, id);
    if t.Some? {
      WalkIrrelevantOver(s, id, t.value.dependsOn, a, b);
    }
  }

  lemma {:induction false} WalkIrrelevantOver(
    s: State, id: TicketId, deps: seq<TicketId>, a: set<TicketId>, b: set<TicketId>)
    requires Acyclic(s) && Above(s, a, id) && Above(s, b, id)
    requires id !in a && id !in b && id in Ids(s)
    requires forall d :: d in deps ==> Edge(s, id, d)
    ensures PlainOver(s, deps, a + {id}) == PlainOver(s, deps, b + {id})
    decreases Ids(s) - (a + {id}), |deps|
  {
    if deps != [] {
      var n := |deps| - 1;
      WalkIrrelevantOver(s, id, deps[..n], a, b);
      var d := deps[n];
      AboveDependency(s, a, id, d);
      AboveDependency(s, b, id, d);
      WalkIrrelevant(s, d, a + {id}, b + {id});
    }
  }

  // ---------------------------------------------------------------- optimality

  /** No candidate of the fold beats its result, on any of the three keys. */
  lemma {:induction false} FoldUnbeaten(s: State, deps: seq<TicketId>, seen: set<TicketId>, i: nat)
    requires i < |deps| && deps[i] !in seen && Unfinished(s, deps[i])
    ensures Unbeaten(s, PlainOver(s, deps, seen), [deps[i]] + PlainFrom(s, deps[i], seen))
  {
    var n := |deps| - 1;
    var best, result := PlainOver(s, deps[..n], seen), PlainOver(s, deps, seen);
    var mine := [deps[i]] + PlainFrom(s, deps[i], seen);
    if i < n {
      FoldUnbeaten(s, deps[..n], seen, i);
      if result != best && Better(s, mine, result) {
        BetterTransitive(s, mine, result, best);
      }
    } else {
      SeqLessTotal(mine, result);
    }
  }

  /** The search below `id` considers every way on, so it is unbeaten by the best of each. */
  lemma {:induction false} BestBelow(s: State, id: TicketId, d: TicketId)
    requires Acyclic(s) && Edge(s, id, d) && Unfinished(s, d)
    ensures Unbeaten(s, PlainFrom(s, id, {}), [d] + PlainFrom(s, d, {}))
  {
    var deps := DepsOf(s, id);
    var i :| 0 <= i < |deps| && deps[i] == d;
    AboveDependency(s, {}, id, d);
    WalkIrrelevant(s, d, {} + {id}, {});
    FoldUnbeaten(s, deps, {} + {id}, i);
  }

  lemma MaxRankCons(s: State, d: TicketId, a: seq<TicketId>, b: seq<TicketId>)
    requires AtLeast(s, a, b)
    ensures AtLeast(s, [d] + a, [d] + b)
  {
    assert ([d] + a)[1..] == a && ([d] + b)[1..] == b;
  }

  /** No chain below `id` is longer, nor as long with a higher priority. */
  lemma {:induction false} PlainDominates(s: State, c: seq<TicketId>)
    requires Acyclic(s) && Chain(s, c) && c != []
    ensures AtLeast(s, PlainFrom(s, c[0], {}), c[1..])
  {
    if |c| > 1 {
      var rest := c[1..];
      PlainDominates(s, rest);
      assert Edge(s, c[0], c[1]) && Unfinished(s, c[1]);
      BestBelow(s, c[0], c[1]);
      MaxRankCons(s, c[1], PlainFrom(s, c[1], {}), rest[1..]);
      assert rest == [c[1]] + rest[1..];
    }
  }

  /** `best` keeps beating what the loop over the tickets has met. */
  lemma {:induction false} BestUnbeaten(s: State, k: nat, i: nat)
    requires i < k <= |s| && !Resolved(s[i].status)
    requires |[s[i].id] + PlainFrom(s, s[i].id, {})| >= 2
    ensures Unbeaten(s, PlainBest(s, k), [s[i].id] + PlainFrom(s, s[i].id, {}))
  {
    var best, result := PlainBest(s, k - 1), PlainBest(s, k);
    var mine := [s[i].id] + PlainFrom(s, s[i].id, {});
    if i < k - 1 {
      BestUnbeaten(s, k - 1, i);
      if result != best && Better(s, mine, result) {
        BetterTransitive(s, mine, result, best);
      }
    } else {
      SeqLessTotal(mine, result);
    }
  }

  /** Where the first ticket of a chain sits in the state, and what the loop found there. */
  lemma ChainHead(s: State, c: seq<TicketId>) returns (i: nat)
    requires UniqueIds(s) && Chain(s, c) && c != []
    ensures i < |s| && s[i].id == c[0] && !Resolved(s[i].status)
  {
    assert Unfinished(s, c[0]);
    var t := Lookup(s, c[0]).value;
    i :| 0 <= i < |s| && s[i] == t;
  }

  /**
   * On an acyclic state the search returns a longest chain of unfinished work, of
   * the highest priority among the longest; chains of one ticket are no finding.
   */
  lemma {:induction false} CriticalPathOptimal(s: State, c: seq<TicketId>)
    requires UniqueIds(s) && Acyclic(s) && Chain(s, c) && |c| >= 2
    ensures AtLeast(s, PlainBest(s, |s|), c)
    ensures Chain(s, PlainBest(s, |s|)) && |PlainBest(s, |s|)| >= 2
  {
    var i := ChainHead(s, c);
    PlainDominates(s, c);
    BestUnbeaten(s, |s|, i);
    MaxRankCons(s, c[0], PlainFrom(s, c[0], {}), c[1..]);
    assert c == [c[0]] + c[1..];
    PlainBestIsChain(s, |s|);
  }

  // ---------------------------------------------------------------- the order of the tickets

  /** The same tickets with the same dependencies, in whatever order and however often listed. */
  ghost predicate SameBoard(s: State, s': State) {
    && Ids(s) == Ids(s')
    && (forall id, d :: Edge(s, id, d) <==> Edge(s', id, d))
    && (forall id :: id in Ids(s) ==> Alike(Lookup(s, id).value, Lookup(s', id).value))
  }

  predicate Alike(t: Ticket, t': Ticket) {
    t.status == t'.status && t.priority == t'.priority
  }

  lemma {:induction false} RankSame(s: State, s': State, c: seq<TicketId>)
    requires SameBoard(s, s')
    ensures MaxRank(s, c) == MaxRank(s', c)
    decreases |c|
  {
    if c != [] {
      RankSame(s, s', c[1..]);
      assert Lookup(s, c[0]).Some? <==> Lookup(s', c[0]).Some?;
      if c[0] in Ids(s) {
        assert Alike(Lookup(s, c[0]).value, Lookup(s', c[0]).value);
      }
    }
  }

  lemma BetterSame(s: State, s': State, a: seq<TicketId>, b: seq<TicketId>)
    requires SameBoard(s, s')
    ensures Better(s, a, b) <==> Better(s', a, b)
  {
    RankSame(s, s', a);
    RankSame(s, s', b);
  }

  lemma UnfinishedSame(s: State, s': State, id: TicketId)
    requires SameBoard(s, s')
    ensures Unfinished(s, id) <==> Unfinished(s', id)
  {
    if id in Ids(s) {
      assert Alike(Lookup(s, id).value, Lookup(s', id).value);
    }
  }

  /** A way on that the search may take. */
  predicate WayOn(s: State, deps: seq<TicketId>, seen: set<TicketId>, d: TicketId) {
    d in deps && d !in seen && Unfinished(s, d)
  }

  /** The fold returns nothing or one of its candidates. */
  lemma {:induction false} FoldIsCandidate(s: State, deps: seq<TicketId>, seen: set<TicketId>)
    ensures var r := PlainOver(s, deps, seen);
      r == [] || (WayOn(s, deps, seen, r[0]) && r == [r[0]] + PlainFrom(s, r[0], seen))
    decreases |deps|
  {
    if deps != [] {
      FoldIsCandidate(s, deps[..|deps| - 1], seen);
    }
  }

  lemma {:induction false} FoldBeatsAll(s: State, deps: seq<TicketId>, seen: set<TicketId>, d: TicketId)
    requires WayOn(s, deps, seen, d)
    ensures Unbeaten(s, PlainOver(s, deps, seen), [d] + PlainFrom(s, d, seen))
  {
    var i :| 0 <= i < |deps| && deps[i] == d;
    FoldUnbeaten(s, deps, seen, i);
  }

  /** Of two folds over the same candidates neither result beats the other. */
  lemma {:induction false} FoldNotBetter(s: State, s': State, deps: seq<TicketId>, deps': seq<TicketId>, seen: set<TicketId>)
    requires SameBoard(s, s') && forall d :: d in deps <==> d in deps'
    requires forall d :: WayOn(s, deps, seen, d) ==> PlainFrom(s, d, seen) == PlainFrom(s', d, seen)
    ensures !Better(s, PlainOver(s, deps, seen), PlainOver(s', deps', seen))
  {
    var r, r' := PlainOver(s, deps, seen), PlainOver(s', deps', seen);
    FoldIsCandidate(s, deps, seen);
    if r != [] {
      UnfinishedSame(s, s', r[0]);
      FoldBeatsAll(s', deps', seen, r[0]);
      BetterSame(s, s', r, r');
    }
  }

  lemma {:induction false} FoldSame(s: State, s': State, deps: seq<TicketId>, deps': seq<TicketId>, seen: set<TicketId>)
    requires SameBoard(s, s') && forall d :: d in deps <==> d in deps'
    requires forall d :: WayOn(s, deps, seen, d) ==> PlainFrom(s, d, seen) == PlainFrom(s', d, seen)
    ensures PlainOver(s, deps, seen) == PlainOver(s', deps', seen)
  {
    FoldNotBetter(s, s', deps, deps', seen);
    forall d | WayOn(s', deps', seen, d) ensures PlainFrom(s', d, seen) == PlainFrom(s, d, seen) {
      UnfinishedSame(s, s', d);
      assert WayOn(s, deps, seen, d);
    }
    FoldNotBetter(s', s, deps', deps, seen);
    BetterSame(s, s', PlainOver(s', deps', seen), PlainOver(s, deps, seen));
    BetterTotal(s, PlainOver(s, deps, seen), PlainOver(s', deps', seen));
  }

  /** The search below a ticket sees the board and not how it is listed, cycles or not. */
  lemma {:induction false} FromSame(s: State, s': State, id: TicketId, seen: set<TicketId>)
    requires SameBoard(s, s') && id !in seen
    ensures PlainFrom(s, id, seen) == PlainFrom(s', id, seen)
    decreases Ids(s) - seen
  {
    assert Lookup(s, id).Some? <==> Lookup(s', id).Some?;
    if id in Ids(s) {
      var deps, deps' := DepsOf(s, id), DepsOf(s', id);
      forall d ensures d in deps <==> d in deps' {
        assert Edge(s, id, d) <==> Edge(s', id, d);
      }
      forall d | WayOn(s, deps, seen + {id}, d) ensures PlainFrom(s, d, seen + {id}) == PlainFrom(s', d, seen + {id}) {
        FromSame(s, s', d, seen + {id});
      }
      FoldSame(s, s', deps, deps', seen + {id});
    }
  }

  /** The survey returns nothing or the chain from one of the unfinished tickets. */
  lemma {:induction false} BestIsCandidate(s: State, k: nat) returns (i: nat)
    requires k <= |s|
    ensures PlainBest(s, k) == [] ||
      (i < k && !Resolved(s[i].status) && PlainBest(s, k) == [s[i].id] + PlainFrom(s, s[i].id, {}) && |PlainBest(s, k)| >= 2)
    decreases k
  {
    i := 0;
    if k > 0 {
      i := BestIsCandidate(s, k - 1);
      if PlainBest(s, k) != PlainBest(s, k - 1) {
        i := k - 1;
      }
    }
  }

  lemma {:induction false} BestNotBetter(s: State, s': State)
    requires UniqueIds(s) && UniqueIds(s') && SameBoard(s, s')
    ensures !Better(s, PlainBest(s, |s|), PlainBest(s', |s'|))
  {
    var r, r' := PlainBest(s, |s|), PlainBest(s', |s'|);
    var i := BestIsCandidate(s, |s|);
    if r != [] {
      var id := s[i].id;
      assert s[i] in s && id in Ids(s');
      var j := PlaceOf(s', id);
      LookupAt(s, i);
      LookupAt(s', j);
      assert Alike(s[i], s'[j]);
      FromSame(s, s', id, {});
      BestUnbeaten(s', |s'|, j);
      BetterSame(s, s', r, r');
    }
  }

  lemma PlaceOf(s: State, id: TicketId) returns (j: nat)
    requires id in Ids(s)
    ensures j < |s| && s[j].id == id
  {
    var t :| t in s && t.id == id;
    j :| j < |s| && s[j] == t;
  }

  /**
   * "Deterministic on every snapshot": the answer depends on the tickets, their statuses, priorities and
   * dependencies, and not on the order in which tickets or dependencies are listed.
   */
  lemma {:induction false} AnswerIgnoresOrder(s: State, s': State)
    requires UniqueIds(s) && UniqueIds(s') && SameBoard(s, s')
    ensures PlainBest(s, |s|) == PlainBest(s', |s'|)
  {
    BestNotBetter(s, s');
    forall id | id in Ids(s') ensures Alike(Lookup(s', id).value, Lookup(s, id).value) {
      assert Alike(Lookup(s, id).value, Lookup(s', id).value);
    }
    BestNotBetter(s', s);
    BetterSame(s, s', PlainBest(s', |s'|), PlainBest(s, |s|));
    BetterTotal(s, PlainBest(s, |s|), PlainBest(s', |s'|));
  }

  // ---------------------------------------------------------------- the third key

  /** Every priority found on unfinished work. */
  ghost predicate DrawnFrom(s: State, palette: set<Priority>) {
    forall t :: t in s && !Resolved(t.status) ==> t.priority in palette
  }

  ghost predicate OneAtMost(palette: set<Priority>) {
    forall p, q :: p in palette && q in palette ==> p == q
  }

  /** The documented promise in full: no chain precedes the result on any key. */
  ghost predicate ThreeKeyOptimal(s: State, best: seq<TicketId>) {
    forall c :: Chain(s, c) && |c| >= 2 ==> Unbeaten(s, best, c)
  }

  lemma BetterTotal(s: State, a: seq<TicketId>, b: seq<TicketId>)
    ensures Better(s, a, b) || a == b || Better(s, b, a)
    ensures !Better(s, a, a)
  {
    SeqLessTotal(a, b);
    SeqLessTotal(a, a);
  }

  lemma UnbeatenTransitive(s: State, a: seq<TicketId>, b: seq<TicketId>, c: seq<TicketId>)
    requires Unbeaten(s, a, b) && Unbeaten(s, b, c)
    ensures Unbeaten(s, a, c)
  {
    BetterTotal(s, a, b);
    if Better(s, c, a) && Better(s, a, b) {
      BetterTransitive(s, c, a, b);
    }
  }

  /** What the search returns is a chain hanging below `id`. */
  lemma {:induction false} PlainFromIsChain(s: State, id: TicketId, seen: set<TicketId>)
    requires id !in seen
    ensures Chain(s, PlainFrom(s, id, seen))
    ensures PlainFrom(s, id, seen) != [] ==> Edge(s, id, PlainFrom(s, id, seen)[0])
    decreases Ids(s) - seen, 0
  {
    var t := Lookup(s, id);
    if t.Some? {
      PlainOverIsChain(s, t.value.dependsOn, seen + {id});
    }
  }

  lemma {:induction false} PlainOverIsChain(s: State, deps: seq<TicketId>, seen: set<TicketId>)
    ensures Chain(s, PlainOver(s, deps, seen))
    ensures PlainOver(s, deps, seen) != [] ==> PlainOver(s, deps, seen)[0] in deps
    decreases Ids(s) - seen, |deps|
  {
    if deps != [] {
      var n := |deps| - 1;
      PlainOverIsChain(s, deps[..n], seen);
      if deps[n] !in seen && Unfinished(s, deps[n]) {
        PlainFromIsChain(s, deps[n], seen);
      }
    }
  }

  lemma {:induction false} UniformRank(s: State, palette: set<Priority>, p: Priority, c: seq<TicketId>)
    requires DrawnFrom(s, palette) && OneAtMost(palette) && p in palette && Chain(s, c)
    ensures MaxRank(s, c) == if c == [] then 0 else PriorityRank(p)
  {
    if c != [] {
      assert Unfinished(s, c[0]);
      assert Chain(s, c[1..]);
      UniformRank(s, palette, p, c[1..]);
    }
  }

  lemma UnbeatenCons(s: State, palette: set<Priority>, d: TicketId, a: seq<TicketId>, b: seq<TicketId>)
    requires DrawnFrom(s, palette) && OneAtMost(palette)
    requires Chain(s, [d] + a) && Chain(s, [d] + b) && Unbeaten(s, a, b)
    ensures Unbeaten(s, [d] + a, [d] + b)
  {
    assert ([d] + a)[1..] == a && ([d] + b)[1..] == b;
    assert ([d] + a)[0] == d && Unfinished(s, d);
    var p := Lookup(s, d).value.priority;
    assert Chain(s, a) by { assert forall i :: 0 <= i < |a| ==> a[i] == ([d] + a)[i + 1]; }
    assert Chain(s, b) by { assert forall i :: 0 <= i < |b| ==> b[i] == ([d] + b)[i + 1]; }
    UniformRank(s, palette, p, a);
    UniformRank(s, palette, p, b);
    SeqLessTotal([d], [d]);
    StrLessTotal(d, d);
  }

  lemma {:induction false} PlainUnbeaten(s: State, palette: set<Priority>, c: seq<TicketId>)
    requires Acyclic(s) && DrawnFrom(s, palette) && OneAtMost(palette)
    requires Chain(s, c) && c != []
    ensures Unbeaten(s, PlainFrom(s, c[0], {}), c[1..])
  {
    var mine := PlainFrom(s, c[0], {});
    if |c| == 1 {
      assert c[1..] == [];
    } else {
      var rest := c[1..];
      PlainUnbeaten(s, palette, rest);
      assert Edge(s, c[0], c[1]) && Unfinished(s, c[1]);
      BestBelow(s, c[0], c[1]);
      PlainFromIsChain(s, c[1], {});
      assert rest == [c[1]] + rest[1..];
      UnbeatenCons(s, palette, c[1], PlainFrom(s, c[1], {}), rest[1..]);
      UnbeatenTransitive(s, mine, [c[1]] + PlainFrom(s, c[1], {}), rest);
    }
  }

  lemma HeadedChain(s: State, id: TicketId, c: seq<TicketId>)
    requires Unfinished(s, id) && Chain(s, c) && (c != [] ==> Edge(s, id, c[0]))
    ensures Chain(s, [id] + c)
  {
    assert forall k :: 0 <= k < |c| ==> ([id] + c)[k + 1] == c[k];
  }

  lemma {:induction false} UniformFrom(s: State, palette: set<Priority>, c: seq<TicketId>)
    requires Acyclic(s) && DrawnFrom(s, palette) && OneAtMost(palette)
    requires Chain(s, c) && c != []
    ensures Unbeaten(s, [c[0]] + PlainFrom(s, c[0], {}), c)
  {
    var mine := PlainFrom(s, c[0], {});
    assert c == [c[0]] + c[1..];
    PlainUnbeaten(s, palette, c);
    PlainFromIsChain(s, c[0], {});
    HeadedChain(s, c[0], mine);
    UnbeatenCons(s, palette, c[0], mine, c[1..]);
  }

  lemma {:induction false} UniformUnbeaten(s: State, palette: set<Priority>, c: seq<TicketId>)
    requires UniqueIds(s) && Acyclic(s) && DrawnFrom(s, palette) && OneAtMost(palette)
    requires Chain(s, c) && |c| >= 2
    ensures Unbeaten(s, PlainBest(s, |s|), c)
  {
    var i := ChainHead(s, c);
    var mine := [c[0]] + PlainFrom(s, c[0], {});
    UniformFrom(s, palette, c);
    BestUnbeaten(s, |s|, i);
    UnbeatenTransitive(s, PlainBest(s, |s|), mine, c);
  }

  /** The ticket `t`, urgent, waits on `a`, less urgent, and on `b`, as urgent as itself. */
  function Masked(lo: Priority, hi: Priority): State {
    [ Ticket("t", Feature, "", "", hi, Ready, ["a", "b"], None),
      Ticket("a", Feature, "", "", lo, Ready, [], None),
      Ticket("b", Feature, "", "", hi, Ready, [], None) ]
  }

  lemma MaskedLookups(lo: Priority, hi: Priority)
    ensures var s := Masked(lo, hi);
      && Lookup(s, "t") == Some(s[0]) && Lookup(s, "a") == Some(s[1]) && Lookup(s, "b") == Some(s[2])
      && Ids(s) == {"t", "a", "b"}
      && UniqueIds(s)
  {
  }

  lemma MaskedAcyclic(lo: Priority, hi: Priority)
    ensures Acyclic(Masked(lo, hi))
  {
    var s := Masked(lo, hi);
    MaskedLookups(lo, hi);
    forall p | Walk(s, p) && |p| >= 2 ensures p[0] != p[|p| - 1] {
      assert Edge(s, p[0], p[1]) && Edge(s, p[|p| - 2], p[|p| - 1]);
      assert p[0] == "t" && p[|p| - 1] in ["a", "b"];
      assert "t"[0] != "a"[0] && "t"[0] != "b"[0];
    }
  }

  /** The higher priority of `b`, masked by `t`, still outranks the smaller id of `a`. */
  lemma MaskedBeaten(lo: Priority, hi: Priority)
    requires PriorityRank(lo) < PriorityRank(hi)
    ensures PlainBest(Masked(lo, hi), 3) == ["t", "b"]
    ensures Chain(Masked(lo, hi), ["t", "a"])
    ensures Better(Masked(lo, hi), ["t", "a"], ["t", "b"])
  {
    var s := Masked(lo, hi);
    MaskedLookups(lo, hi);
    assert PlainFrom(s, "a", {}) == PlainFrom(s, "b", {}) == [];
    assert PlainFrom(s, "a", {"t"}) == PlainFrom(s, "b", {"t"}) == [];
    assert MaxRank(s, ["a"]) == PriorityRank(lo) && MaxRank(s, ["b"]) == PriorityRank(hi);
    assert ["t", "a"][1..] == ["a"] && ["t", "b"][1..] == ["b"];
    assert MaxRank(s, ["t", "a"]) == MaxRank(s, ["t", "b"]) == PriorityRank(hi);
    assert "a" != "t" && "b" != "t" by { assert "a"[0] != "t"[0] && "b"[0] != "t"[0]; }
    var deps := ["a", "b"];
    assert deps[..1] == ["a"] && deps[..0] == [] && ["a"][..0] == [];
    assert PlainOver(s, [], {"t"}) == [];
    assert PlainOver(s, ["a"], {"t"}) == ["a"];
    assert PlainOver(s, deps, {"t"}) == ["b"];
    assert PlainFrom(s, "t", {}) == ["b"] by { assert {} + {"t"} == {"t"}; }
    assert PlainBest(s, 0) == [];
    assert PlainBest(s, 1) == ["t", "b"];
    assert StrLess("a", "b") && SeqLess(["a"], ["b"]);
  }

  /**
   * The third key is a global promise exactly for priorities drawn from a palette
   * of at most one: with two, some acyclic state makes the search prefer a suffix
   * for a priority its own prefix already has.
   */
  lemma ThirdKeyExactlyForOnePriority(palette: set<Priority>)
    ensures (forall s :: UniqueIds(s) && Acyclic(s) && DrawnFrom(s, palette) ==> ThreeKeyOptimal(s, PlainBest(s, |s|)))
       <==> OneAtMost(palette)
  {
    if OneAtMost(palette) {
      forall s | UniqueIds(s) && Acyclic(s) && DrawnFrom(s, palette)
        ensures ThreeKeyOptimal(s, PlainBest(s, |s|))
      {
        forall c | Chain(s, c) && |c| >= 2 ensures Unbeaten(s, PlainBest(s, |s|), c) {
          UniformUnbeaten(s, palette, c);
        }
      }
    } else {
      var p, q :| p in palette && q in palette && p != q;
      var lo, hi := if PriorityRank(p) < PriorityRank(q) then p else q, if PriorityRank(p) < PriorityRank(q) then q else p;
      MaskedFails(lo, hi, palette);
    }
  }

  lemma MaskedFails(lo: Priority, hi: Priority, palette: set<Priority>)
    requires PriorityRank(lo) < PriorityRank(hi) && lo in palette && hi in palette
    ensures var s := Masked(lo, hi);
      UniqueIds(s) && Acyclic(s) && DrawnFrom(s, palette) && !ThreeKeyOptimal(s, PlainBest(s, |s|))
  {
    var s := Masked(lo, hi);
    MaskedLookups(lo, hi);
    MaskedAcyclic(lo, hi);
    MaskedBeaten(lo, hi);
    assert DrawnFrom(s, palette) && |s| == 3;
    assert !Unbeaten(s, PlainBest(s, |s|), ["t", "a"]);
  }

  /** The answer is itself a chain, and never a lone ticket. */
  lemma {:induction false} PlainBestIsChain(s: State, k: nat)
    requires UniqueIds(s) && k <= |s|
    ensures Chain(s, PlainBest(s, k)) && |PlainBest(s, k)| != 1
  {
    if k > 0 {
      PlainBestIsChain(s, k - 1);
      var id := s[k - 1].id;
      var below := PlainFrom(s, id, {});
      PlainFromIsChain(s, id, {});
      LookupAt(s, k - 1);
      if !Resolved(s[k - 1].status) {
        HeadedChain(s, id, below);
      }
    }
  }

  // ---------------------------------------------------------------- the memoised search

  type Memo = map<TicketId, seq<TicketId>>

  /** `c` can follow `id`: a chain below it that never comes back to it or repeats. */
  ghost predicate SimpleBelow(s: State, id: TicketId, c: seq<TicketId>) {
    Chain(s, c) && NoRepeats([id] + c) && (c != [] ==> Edge(s, id, c[0]))
  }

  /** Cached suffixes are simple, and made of tickets that are themselves cached. */
  ghost predicate MemoSound(s: State, memo: Memo) {
    forall k :: k in memo ==>
      k in Ids(s) && SimpleBelow(s, k, memo[k]) && forall x :: x in memo[k] ==> x in memo
  }

  ghost predicate MemoExact(s: State, memo: Memo) {
    forall k :: k in memo ==> memo[k] == PlainFrom(s, k, {})
  }

  ghost predicate Extends(memo0: Memo, memo: Memo) {
    forall k :: k in memo0 ==> k in memo && memo[k] == memo0[k]
  }

  /** `id` waits on no unfinished ticket but possibly itself. */
  ghost predicate Terminal(s: State, id: TicketId) {
    forall d :: Edge(s, id, d) && d != id ==> !Unfinished(s, d)
  }

  /** Where the cache is exact so far, and the state acyclic, it stays exact. */
  ghost predicate Exactly(s: State, seen0: set<TicketId>, id: TicketId, memo0: Memo) {
    Acyclic(s) && Above(s, seen0, id) && MemoExact(s, memo0)
  }

  /** What a call on `id` guarantees of its answer and of the cache it leaves. */
  ghost predicate Found(
    s: State, id: TicketId, seen0: set<TicketId>, memo0: Memo, best: seq<TicketId>, memo: Memo)
  {
    && MemoSound(s, memo) && memo.Keys !! seen0 && Extends(memo0, memo)
    && (if id in Ids(s) then id in memo && memo[id] == best else best == [] && memo == memo0)
    && (Exactly(s, seen0, id, memo0) ==> MemoExact(s, memo) && best == PlainFrom(s, id, {}))
    && (seen0 == {} && id !in memo0 && best == [] ==> Terminal(s, id) && memo.Keys <= memo0.Keys + {id})
  }

  /** What holds after the first `k` dependencies of `id` have been tried. */
  ghost predicate Searching(
    s: State, id: TicketId, seen0: set<TicketId>, memo0: Memo, k: nat, best: seq<TicketId>, memo: Memo)
    requires k <= |DepsOf(s, id)|
  {
    var deps := DepsOf(s, id);
    && MemoSound(s, memo) && memo.Keys !! seen0 + {id} && Extends(memo0, memo)
    && SimpleBelow(s, id, best) && (forall x :: x in best ==> x in memo)
    && (Exactly(s, seen0, id, memo0) ==> MemoExact(s, memo) && best == PlainOver(s, deps[..k], {} + {id}))
    && (best == [] ==> memo == memo0)
    && (best == [] ==> forall j :: 0 <= j < k ==> deps[j] in seen0 + {id} || !Unfinished(s, deps[j]))
  }

  /**
   * `longest_unresolved_from`. The nodes of the current walk are never cached
   * and every node of a cached suffix is, so a suffix taken from the cache cannot
   * run back into the walk, cyclic state or not.
   */
  method LongestUnresolvedFrom(s: State, id: TicketId, seen0: set<TicketId>, memo0: Memo)
    returns (best: seq<TicketId>, memo: Memo)
    requires id !in seen0 && MemoSound(s, memo0) && memo0.Keys !! seen0
    ensures Found(s, id, seen0, memo0, best, memo)
    decreases Ids(s) - seen0
  {
    if id in memo0 {
      return memo0[id], memo0;
    }
    var t := Lookup(s, id);
    if t.None? {
      return [], memo0;
    }
    var seen := seen0 + {id};
    var deps := t.value.dependsOn;
    best, memo := [], memo0;
    for k := 0 to |deps|
      invariant Searching(s, id, seen0, memo0, k, best, memo)
    {
      var dep := deps[k];
      var d := Lookup(s, dep);
      if dep in seen || d.None? || Resolved(d.value.status) {
        SearchSkips(s, id, seen0, memo0, k, best, memo);
      } else {
        var suffix, memo' := LongestUnresolvedFrom(s, dep, seen, memo);
        var candidate := [dep] + suffix;
        SearchTakes(s, id, seen0, memo0, k, best, memo, suffix, memo');
        if Better(s, candidate, best) {
          best := candidate;
        }
        memo := memo';
      }
    }
    SearchEnds(s, id, seen0, memo0, best, memo);
    memo := memo[id := best];
  }

  lemma SearchSkips(
    s: State, id: TicketId, seen0: set<TicketId>, memo0: Memo, k: nat, best: seq<TicketId>, memo: Memo)
    requires k < |DepsOf(s, id)| && Searching(s, id, seen0, memo0, k, best, memo)
    requires DepsOf(s, id)[k] in seen0 + {id} || !Unfinished(s, DepsOf(s, id)[k])
    ensures Searching(s, id, seen0, memo0, k + 1, best, memo)
  {
    if Exactly(s, seen0, id, memo0) {
      ExactStep(s, seen0, id, k);
    }
  }

  lemma SearchTakes(
    s: State, id: TicketId, seen0: set<TicketId>, memo0: Memo, k: nat, best: seq<TicketId>, memo: Memo,
    suffix: seq<TicketId>, memo': Memo)
    requires k < |DepsOf(s, id)| && Searching(s, id, seen0, memo0, k, best, memo)
    requires var dep := DepsOf(s, id)[k];
      && dep !in seen0 + {id} && Unfinished(s, dep)
      && Found(s, dep, seen0 + {id}, memo, suffix, memo')
    ensures var candidate := [DepsOf(s, id)[k]] + suffix;
      Searching(s, id, seen0, memo0, k + 1, if Better(s, candidate, best) then candidate else best, memo')
  {
    var dep := DepsOf(s, id)[k];
    CandidateSimple(s, id, dep, suffix, memo');
    if Exactly(s, seen0, id, memo0) {
      ExactStep(s, seen0, id, k);
    }
  }

  lemma SearchEnds(
    s: State, id: TicketId, seen0: set<TicketId>, memo0: Memo, best: seq<TicketId>, memo: Memo)
    requires id in Ids(s) && id !in seen0 && memo0.Keys !! seen0
    requires Searching(s, id, seen0, memo0, |DepsOf(s, id)|, best, memo)
    ensures Found(s, id, seen0, memo0, best, memo[id := best])
  {
    var deps := DepsOf(s, id);
    assert deps[..|deps|] == deps;
  }

  /** On an acyclic state each dependency is taken, with the suffix the uncached search gives it. */
  lemma {:induction false} ExactStep(s: State, seen0: set<TicketId>, id: TicketId, k: nat)
    requires Acyclic(s) && Above(s, seen0, id) && k < |DepsOf(s, id)|
    ensures var deps := DepsOf(s, id);
      var best := PlainOver(s, deps[..k], {} + {id});
      && deps[k] !in seen0 + {id} && Above(s, seen0 + {id}, deps[k])
      && PlainOver(s, deps[..k + 1], {} + {id}) ==
        if !Unfinished(s, deps[k]) then best
        else if Better(s, [deps[k]] + PlainFrom(s, deps[k], {}), best) then [deps[k]] + PlainFrom(s, deps[k], {})
        else best
  {
    var deps := DepsOf(s, id);
    assert Edge(s, id, deps[k]);
    assert deps[..k + 1][..k] == deps[..k];
    AboveDependency(s, seen0, id, deps[k]);
    AboveDependency(s, {}, id, deps[k]);
    WalkIrrelevant(s, deps[k], {} + {id}, {});
  }

  lemma ChainCons(s: State, id: TicketId, c: seq<TicketId>)
    requires Unfinished(s, id) && SimpleBelow(s, id, c)
    ensures Chain(s, [id] + c) && NoRepeats([id] + c)
  {
    HeadedChain(s, id, c);
  }

  lemma CandidateSimple(s: State, id: TicketId, dep: TicketId, suffix: seq<TicketId>, memo: Memo)
    requires Edge(s, id, dep) && Unfinished(s, dep) && id !in memo
    requires MemoSound(s, memo) && dep in memo && memo[dep] == suffix
    ensures SimpleBelow(s, id, [dep] + suffix)
    ensures forall x :: x in [dep] + suffix ==> x in memo
  {
  }

  /** An unfinished ticket waits on another unfinished one. */
  ghost predicate SomethingWaits(s: State) {
    exists a, b :: a != b && Unfinished(s, a) && Unfinished(s, b) && Edge(s, a, b)
  }

  /** What the loop over the tickets has established after `k` of them. */
  ghost predicate Surveyed(s: State, k: nat, best: seq<TicketId>, memo: Memo)
    requires k <= |s|
  {
    && MemoSound(s, memo)
    && Chain(s, best) && NoRepeats(best) && |best| != 1
    && (Acyclic(s) ==> MemoExact(s, memo) && best == PlainBest(s, k))
    && (best == [] ==> forall j :: 0 <= j < k && !Resolved(s[j].status) ==> Terminal(s, s[j].id))
    && (best == [] ==> forall x :: x in memo ==> exists j :: 0 <= j < k && s[j].id == x)
  }

  lemma SurveySkips(s: State, k: nat, best: seq<TicketId>, memo: Memo)
    requires k < |s| && Resolved(s[k].status) && Surveyed(s, k, best, memo)
    ensures Surveyed(s, k + 1, best, memo)
  {
  }

  lemma SurveyTakes(
    s: State, k: nat, best: seq<TicketId>, memo: Memo, suffix: seq<TicketId>, memo': Memo)
    requires UniqueIds(s) && k < |s| && !Resolved(s[k].status) && Surveyed(s, k, best, memo)
    requires Found(s, s[k].id, {}, memo, suffix, memo')
    ensures var candidate := [s[k].id] + suffix;
      Surveyed(s, k + 1, if |candidate| >= 2 && Better(s, candidate, best) then candidate else best, memo')
  {
    LookupAt(s, k);
    ChainCons(s, s[k].id, suffix);
    if best == [] && suffix == [] {
      forall x | x in memo' ensures exists j :: 0 <= j < k + 1 && s[j].id == x {
        assert x in memo || x == s[k].id;
      }
    }
  }

  /**
   * `critical_path`. On every state, a chain without repetitions, empty exactly
   * when no unfinished ticket waits on another; on an acyclic one, the answer of
   * the search without a cache.
   */
  method CriticalPath(s: State) returns (best: seq<TicketId>)
    requires UniqueIds(s)
    ensures Chain(s, best) && NoRepeats(best) && |best| != 1
    ensures best == [] <==> !SomethingWaits(s)
    ensures Acyclic(s) ==> best == PlainBest(s, |s|)
  {
    best := [];
    var memo: Memo := map[];
    for k := 0 to |s|
      invariant Surveyed(s, k, best, memo)
    {
      var t := s[k];
      if Resolved(t.status) {
        SurveySkips(s, k, best, memo);
      } else {
        var suffix, memo' := LongestUnresolvedFrom(s, t.id, {}, memo);
        var candidate := [t.id] + suffix;
        SurveyTakes(s, k, best, memo, suffix, memo');
        best, memo := if |candidate| >= 2 && Better(s, candidate, best) then candidate else best, memo';
      }
    }
    SurveyEnds(s, best, memo);
  }

  lemma SurveyEnds(s: State, best: seq<TicketId>, memo: Memo)
    requires UniqueIds(s) && Surveyed(s, |s|, best, memo)
    ensures best == [] <==> !SomethingWaits(s)
  {
    if best != [] {
      assert Edge(s, best[0], best[1]) && best[0] != best[1];
    }
    if SomethingWaits(s) {
      var a, b :| a != b && Unfinished(s, a) && Unfinished(s, b) && Edge(s, a, b);
      var i := ChainHead(s, [a]);
      assert !Terminal(s, s[i].id);
    }
  }
}
