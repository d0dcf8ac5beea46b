/**
 * The dependency radar's walks: the depth-first blocking chain and the
 * explicit-stack reachability loop behind the cycle marker.
 */
module Radar {
  import opened Domain
  import opened Sequences

  type State = seq<Ticket>

  function DepsOf(s: State, id: TicketId): seq<TicketId> {
    match Lookup(s, id)
    case None => []
    case Some(t) => t.dependsOn
  }

  /** A declared dependency: `a` must wait for `b`. */
  predicate Edge(s: State, a: TicketId, b: TicketId) {
    b in DepsOf(s, a)
  }

  /** A ticket that exists and has not reached shipped-complete. */
  predicate Unfinished(s: State, id: TicketId) {
    var t := Lookup(s, id);
    t.Some? && !Resolved(t.value.status)
  }

  /** A non-empty path of declared edges. */
  ghost predicate Walk(s: State, p: seq<TicketId>) {
    p != [] && forall i :: 0 <= i < |p| - 1 ==> Edge(s, p[i], p[i + 1])
  }

  /** `b` can be reached from `a` across at least one edge. */
  ghost predicate Reaches(s: State, a: TicketId, b: TicketId) {
    exists p :: Walk(s, p) && |p| >= 2 && p[0] == a && p[|p| - 1] == b
  }

  lemma EdgeReaches(s: State, a: TicketId, b: TicketId)
    requires Edge(s, a, b)
    ensures Reaches(s, a, b)
  {
    assert Walk(s, [a, b]);
  }

  lemma ReachesStep(s: State, a: TicketId, b: TicketId, c: TicketId)
    requires Reaches(s, a, b) && Edge(s, b, c)
    ensures Reaches(s, a, c)
  {
    var p :| Walk(s, p) && |p| >= 2 && p[0] == a && p[|p| - 1] == b;
    assert Walk(s, p + [c]);
  }

  // ---------------------------------------------------------------- blocking chain

  /** A walk that, past its first node, visits unfinished tickets only. */
  ghost predicate BlockingWalk(s: State, p: seq<TicketId>) {
    Walk(s, p) && forall i :: 1 <= i < |p| ==> Unfinished(s, p[i])
  }

  /** `x` stands, unfinished, somewhere upstream of `root` behind unfinished work only. */
  ghost predicate Blocks(s: State, root: TicketId, x: TicketId) {
    exists p :: BlockingWalk(s, p) && |p| >= 2 && p[0] == root && p[|p| - 1] == x
  }

  /** Every entry is a direct dependency of `root` or of an earlier entry. */
  ghost predicate Rooted(s: State, root: TicketId, chain: seq<TicketId>) {
    forall i: nat :: i < |chain| ==> Edge(s, root, chain[i]) || BelowEarlier(s, chain, i)
  }

  ghost predicate BelowEarlier(s: State, chain: seq<TicketId>, i: nat)
    requires i < |chain|
  {
    exists j :: 0 <= j < i && Edge(s, chain[j], chain[i])
  }

  /** Everything a listed ticket depends on has been seen. */
  ghost predicate Closed(s: State, chain: seq<TicketId>, seen: set<TicketId>) {
    forall x, d :: x in chain && Edge(s, x, d) ==> d in seen
  }

  /** `chain` lists exactly the unfinished tickets that `seen` has beyond `before`. */
  ghost predicate Lists(s: State, chain: seq<TicketId>, before: set<TicketId>, seen: set<TicketId>) {
    forall x :: x in chain <==> x in seen && x !in before && Unfinished(s, x)
  }

  /** What walking `ticket` has listed, as `added`, while `seen` grew from `before`. */
  ghost predicate Walked(
    s: State, ticket: TicketId, added: seq<TicketId>, before: set<TicketId>, seen: set<TicketId>)
  {
    && before <= seen
    && Lists(s, added, before, seen)
    && NoRepeats(added)
    && Rooted(s, ticket, added)
    && Closed(s, added, seen)
  }

  /** The first `k` dependencies have been seen. */
  ghost predicate DepsSeen(s: State, ticket: TicketId, k: nat, seen: set<TicketId>) {
    k <= |DepsOf(s, ticket)| && forall j :: 0 <= j < k ==> DepsOf(s, ticket)[j] in seen
  }

  /** `walk_chain`: grows `chain` and `seen`, recursing into each new unfinished dependency. */
  method WalkChain(s: State, ticket: TicketId, chain0: seq<TicketId>, seen0: set<TicketId>)
    returns (chain: seq<TicketId>, seen: set<TicketId>, ghost added: seq<TicketId>)
    requires ticket in seen0
    ensures chain == chain0 + added
    ensures Walked(s, ticket, added, seen0, seen)
    ensures DepsSeen(s, ticket, |DepsOf(s, ticket)|, seen)
    decreases Ids(s) - seen0
  {
    chain, seen, added := chain0, seen0, [];
    var deps := DepsOf(s, ticket);
    for k := 0 to |deps|
      invariant chain == chain0 + added
      invariant WalkedTo(s, ticket, k, added, seen0, seen)
    {
      var dep := deps[k];
      if dep in seen {
        PassOver(s, ticket, k, added, seen0, seen);
      } else if Unfinished(s, dep) {
        ghost var more, before := [], seen;
        assert seen0 < seen + {dep} && dep in Ids(s);
        chain, seen, more := WalkChain(s, dep, chain + [dep], seen + {dep});
        Descend(s, ticket, k, added, seen0, before, more, seen);
        Regroup(chain0, added, [dep], more);
        added := added + [dep] + more;
      } else {
        PassOver(s, ticket, k, added, seen0, seen);
        seen := seen + {dep};
      }
    }
  }

  /** What the walk over `ticket` has established once its first `k` dependencies are done. */
  ghost predicate WalkedTo(
    s: State, ticket: TicketId, k: nat, added: seq<TicketId>, seen0: set<TicketId>, seen: set<TicketId>)
  {
    Walked(s, ticket, added, seen0, seen) && DepsSeen(s, ticket, k, seen)
  }

  /** A dependency already seen, finished or unknown is not listed. */
  lemma PassOver(
    s: State, ticket: TicketId, k: nat, added: seq<TicketId>, seen0: set<TicketId>, seen: set<TicketId>)
    requires WalkedTo(s, ticket, k, added, seen0, seen) && k < |DepsOf(s, ticket)|
    ensures var dep := DepsOf(s, ticket)[k];
      dep in seen || !Unfinished(s, dep) ==> WalkedTo(s, ticket, k + 1, added, seen0, seen + {dep})
    ensures DepsOf(s, ticket)[k] in seen ==> WalkedTo(s, ticket, k + 1, added, seen0, seen)
  {
  }

  /** One descent into the next dependency extends what the walk over `ticket` has established. */
  lemma Descend(
    s: State, ticket: TicketId, k: nat,
    added: seq<TicketId>, seen0: set<TicketId>, seen1: set<TicketId>,
    more: seq<TicketId>, seen2: set<TicketId>)
    requires WalkedTo(s, ticket, k, added, seen0, seen1) && k < |DepsOf(s, ticket)|
    requires DepsOf(s, ticket)[k] !in seen1 && Unfinished(s, DepsOf(s, ticket)[k])
    requires Walked(s, DepsOf(s, ticket)[k], more, seen1 + {DepsOf(s, ticket)[k]}, seen2)
    requires DepsSeen(s, DepsOf(s, ticket)[k], |DepsOf(s, DepsOf(s, ticket)[k])|, seen2)
    ensures WalkedTo(s, ticket, k + 1, added + [DepsOf(s, ticket)[k]] + more, seen0, seen2)
  {
    var dep := DepsOf(s, ticket)[k];
    var all := added + [dep] + more;
    assert forall x :: x in all <==> x in added || x == dep || x in more;
    assert forall d :: Edge(s, dep, d) ==> d in seen2;
    NoRepeatsConcat(added, [dep]);
    NoRepeatsConcat(added + [dep], more);
    RootedConcat(s, ticket, dep, added, more);
  }

  lemma RootedConcat(s: State, root: TicketId, dep: TicketId, added: seq<TicketId>, more: seq<TicketId>)
    requires Rooted(s, root, added) && Edge(s, root, dep) && Rooted(s, dep, more)
    ensures Rooted(s, root, added + [dep] + more)
  {
    var all := added + [dep] + more;
    forall i: nat | i < |all| ensures Edge(s, root, all[i]) || BelowEarlier(s, all, i) {
      if i > |added| {
        RootedTail(s, dep, more, i - |added| - 1, all, |added|);
      } else if i < |added| && !Edge(s, root, added[i]) {
        Shifted(s, added, i, all, 0);
      }
    }
  }

  /** What hangs below `dep` in its own chain hangs below an earlier entry of the joined one. */
  lemma RootedTail(s: State, dep: TicketId, more: seq<TicketId>, k: nat, all: seq<TicketId>, n: nat)
    requires Rooted(s, dep, more) && k < |more|
    requires |all| == n + 1 + |more| && all[n] == dep && forall i :: 0 <= i < |more| ==> all[n + 1 + i] == more[i]
    ensures BelowEarlier(s, all, n + 1 + k)
  {
    if Edge(s, dep, more[k]) {
      assert Edge(s, all[n], all[n + 1 + k]);
    } else {
      Shifted(s, more, k, all, n + 1);
    }
  }

  /** A chain keeps its links inside a longer one. */
  lemma Shifted(s: State, part: seq<TicketId>, i: nat, all: seq<TicketId>, at: nat)
    requires i < |part| && BelowEarlier(s, part, i)
    requires at + |part| <= |all| && forall k :: 0 <= k < |part| ==> all[at + k] == part[k]
    ensures BelowEarlier(s, all, at + i)
  {
    var j :| 0 <= j < i && Edge(s, part[j], part[i]);
    assert Edge(s, all[at + j], all[at + i]);
  }

  /**
   * `blocking_chain`: the unfinished work upstream of `root`, each ticket once and
   * never `root` itself, every entry reached from `root` or from an earlier entry.
   */
  method BlockingChain(s: State, root: TicketId) returns (chain: seq<TicketId>)
    ensures NoRepeats(chain)
    ensures Rooted(s, root, chain)
    ensures forall x :: x in chain <==> x != root && Blocks(s, root, x)
  {
    var seen;
    ghost var added;
    chain, seen, added := WalkChain(s, root, [], {root});
    assert chain == added;
    forall x ensures x in chain <==> x != root && Blocks(s, root, x) {
      ListedExactly(s, root, chain, seen, x);
    }
  }

  lemma ListedExactly(s: State, root: TicketId, chain: seq<TicketId>, seen: set<TicketId>, x: TicketId)
    requires Walked(s, root, chain, {root}, seen) && DepsSeen(s, root, |DepsOf(s, root)|, seen)
    ensures x in chain <==> x != root && Blocks(s, root, x)
  {
    if x in chain {
      var i :| 0 <= i < |chain| && chain[i] == x;
      ListedBlocks(s, root, chain, i);
    }
    if x != root && Blocks(s, root, x) {
      var p :| BlockingWalk(s, p) && |p| >= 2 && p[0] == root && p[|p| - 1] == x;
      WalkStaysListed(s, root, chain, seen, p);
    }
  }

  lemma {:induction false} ListedBlocks(s: State, root: TicketId, chain: seq<TicketId>, i: nat)
    requires Rooted(s, root, chain) && i < |chain|
    requires forall k :: 0 <= k < |chain| ==> Unfinished(s, chain[k])
    ensures Blocks(s, root, chain[i])
    decreases i
  {
    if Edge(s, root, chain[i]) {
      BlocksDirectly(s, root, chain[i]);
    } else {
      var j :| 0 <= j < i && Edge(s, chain[j], chain[i]);
      ListedBlocks(s, root, chain, j);
      BlocksFurther(s, root, chain[j], chain[i]);
    }
  }

  lemma BlocksDirectly(s: State, root: TicketId, x: TicketId)
    requires Edge(s, root, x) && Unfinished(s, x)
    ensures Blocks(s, root, x)
  {
    assert BlockingWalk(s, [root, x]);
  }

  lemma BlocksFurther(s: State, root: TicketId, x: TicketId, y: TicketId)
    requires Blocks(s, root, x) && Edge(s, x, y) && Unfinished(s, y)
    ensures Blocks(s, root, y)
  {
    var p :| BlockingWalk(s, p) && |p| >= 2 && p[0] == root && p[|p| - 1] == x;
    assert BlockingWalk(s, p + [y]);
  }

  lemma {:induction false} WalkStaysListed(
    s: State, root: TicketId, chain: seq<TicketId>, seen: set<TicketId>, p: seq<TicketId>)
    requires BlockingWalk(s, p) && p[0] == root
    requires Closed(s, chain, seen) && Lists(s, chain, {root}, seen)
    requires DepsSeen(s, root, |DepsOf(s, root)|, seen)
    ensures p[|p| - 1] == root || p[|p| - 1] in chain
  {
    if |p| > 1 {
      var q := p[..|p| - 1];
      assert BlockingWalk(s, q);
      WalkStaysListed(s, root, chain, seen, q);
      assert Edge(s, q[|q| - 1], p[|p| - 1]);
      assert p[|p| - 1] in seen;
    }
  }

  // ---------------------------------------------------------------- cycle marker

  ghost predicate OnCycle(s: State, id: TicketId) {
    Reaches(s, id, id)
  }

  ghost predicate Acyclic(s: State) {
    forall id :: !OnCycle(s, id)
  }

  /** Every id a walk can meet: the tickets and whatever they name. */
  ghost function Named(s: State): set<TicketId> {
    set t, d | t in s && d in t.dependsOn :: d
  }

  lemma EdgeIsNamed(s: State, a: TicketId, b: TicketId)
    requires Edge(s, a, b)
    ensures b in Named(s)
  {
    var t := Lookup(s, a).value;
    assert t in s && b in t.dependsOn;
  }

  /** The inner loop of `cycle_members`: can `start` reach itself over its dependencies? */
  method ReachesItself(s: State, start: TicketId) returns (found: bool)
    ensures found <==> OnCycle(s, start)
  {
    var stack := DepsOf(s, start);
    var seen: set<TicketId> := {};
    forall d | d in stack ensures Reaches(s, start, d) && d in Named(s) {
      EdgeReaches(s, start, d);
      EdgeIsNamed(s, start, d);
    }
    while stack != []
      invariant start !in seen && seen <= Named(s)
      invariant forall d :: d in stack ==> Reaches(s, start, d) && d in Named(s)
      invariant forall d :: d in seen ==> Reaches(s, start, d)
      invariant forall d :: Edge(s, start, d) ==> d in seen || d in stack
      invariant forall n, d :: n in seen && Edge(s, n, d) ==> d in seen || d in stack
      decreases Named(s) - seen, |stack|
    {
      var top := |stack| - 1;
      var id := stack[top];
      var rest := stack[..top];
      assert stack == rest + [id];
      if id == start {
        return true;
      }
      if id !in seen {
        var more := DepsOf(s, id);
        forall d | d in more ensures Reaches(s, start, d) && d in Named(s) {
          ReachesStep(s, start, id, d);
          EdgeIsNamed(s, id, d);
        }
        seen := seen + {id};
        stack := rest + more;
      } else {
        stack := rest;
      }
    }
    if OnCycle(s, start) {
      var p :| Walk(s, p) && |p| >= 2 && p[0] == start && p[|p| - 1] == start;
      WalkStaysSeen(s, start, seen, p);
    }
    return false;
  }

  lemma {:induction false} WalkStaysSeen(s: State, start: TicketId, seen: set<TicketId>, p: seq<TicketId>)
    requires Walk(s, p) && |p| >= 2 && p[0] == start
    requires forall d :: Edge(s, start, d) ==> d in seen
    requires forall n, d :: n in seen && Edge(s, n, d) ==> d in seen
    ensures p[|p| - 1] in seen
  {
    var q := p[..|p| - 1];
    assert Edge(s, q[|q| - 1], p[|p| - 1]);
    if |q| >= 2 {
      assert Walk(s, q);
      WalkStaysSeen(s, start, seen, q);
    }
  }

  /** `cycle_members`: exactly the tickets a path of at least one edge leads back to. */
  method CycleMembers(s: State) returns (members: set<TicketId>)
    requires UniqueIds(s)
    ensures forall id :: id in members <==> OnCycle(s, id)
  {
    members := {};
    for k := 0 to |s|
      invariant forall id :: id in members <==> OnCycle(s, id) && exists j :: 0 <= j < k && s[j].id == id
    {
      LookupAt(s, k);
      var found := ReachesItself(s, s[k].id);
      if found {
        members := members + {s[k].id};
      }
    }
    forall id | OnCycle(s, id) ensures id in members {
      var p :| Walk(s, p) && |p| >= 2 && p[0] == id && p[|p| - 1] == id;
      assert Edge(s, p[0], p[1]);
      var t := Lookup(s, id).value;
      var j :| 0 <= j < |s| && s[j] == t;
      assert s[j].id == id;
    }
  }

  // ---------------------------------------------------------------- radar and gate

  /** An unknown id is never satisfied; a known one is once it is shipped-complete. */
  predicate Satisfied(s: State, id: TicketId) {
    var t := Lookup(s, id);
    t.Some? && Resolved(t.value.status)
  }

  /** The DEV gate, `selection::deps_satisfied`, will not hand the ticket out; nothing gates a bug. */
  ghost predicate GateRefuses(s: State, t: Ticket) {
    !t.kind.Bug? && exists d :: d in t.dependsOn && !Satisfied(s, d)
  }

  /** `unknown_dependencies`: each declared pair whose target is absent, reported once. */
  method UnknownDependencies(s: State) returns (out: seq<(TicketId, TicketId)>)
    requires UniqueIds(s)
    ensures forall a, b :: (a, b) in out <==> Edge(s, a, b) && b !in Ids(s)
    ensures NoRepeats(out)
  {
    out := [];
    for k := 0 to |s|
      invariant NoRepeats(out)
      invariant forall a, b :: (a, b) in out <==>
        (exists j :: 0 <= j < k && s[j].id == a && b in s[j].dependsOn) && b !in Ids(s)
    {
      var t := s[k];
      var seen: set<TicketId> := {};
      for i := 0 to |t.dependsOn|
        invariant NoRepeats(out)
        invariant forall d :: d in seen <==> d in t.dependsOn[..i]
        invariant forall a, b :: (a, b) in out <==>
          ((exists j :: 0 <= j < k && s[j].id == a && b in s[j].dependsOn) || (a == t.id && b in seen)) && b !in Ids(s)
      {
        var dep := t.dependsOn[i];
        if dep !in seen && Lookup(s, dep).None? {
          out := out + [(t.id, dep)];
        }
        seen := seen + {dep};
      }
      assert t.dependsOn[..|t.dependsOn|] == t.dependsOn;
      assert s[k] == t;
    }
    forall a, b ensures (exists j :: 0 <= j < |s| && s[j].id == a && b in s[j].dependsOn) <==> Edge(s, a, b) {
      if j :| 0 <= j < |s| && s[j].id == a && b in s[j].dependsOn {
        LookupAt(s, j);
      }
    }
  }

  datatype BlockedSummary = BlockedSummary(id: TicketId, blockers: seq<TicketId>)

  /** The second components of the pairs whose first is `id`, in order. */
  function MissingOf(pairs: seq<(TicketId, TicketId)>, id: TicketId): (r: seq<TicketId>)
    ensures forall d :: d in r <==> (id, d) in pairs
    ensures NoRepeats(pairs) ==> NoRepeats(r)
  {
    if pairs == [] then []
    else
      var n := |pairs| - 1;
      var rest := MissingOf(pairs[..n], id);
      assert pairs == pairs[..n] + [pairs[n]];
      if pairs[n].0 == id then rest + [pairs[n].1] else rest
  }

  /** What a badge may name: unfinished work upstream, or an unknown direct dependency. */
  ghost predicate IsBlocker(s: State, id: TicketId, x: TicketId) {
    (x != id && Blocks(s, id, x)) || (Edge(s, id, x) && x !in Ids(s))
  }

  ghost predicate HasBlocker(s: State, id: TicketId) {
    exists x :: IsBlocker(s, id, x)
  }

  /** The badge of a ticket names all its blockers, each once. */
  ghost predicate ExplainsBlock(s: State, b: BlockedSummary) {
    b.blockers != [] && NoRepeats(b.blockers) && forall x :: x in b.blockers <==> IsBlocker(s, b.id, x)
  }

  /** The Ready tickets with a blocker among the first `k`, in backlog order. */
  ghost function BlockedReady(s: State, k: nat): seq<TicketId>
    requires k <= |s|
  {
    if k == 0 then []
    else
      var t := s[k - 1];
      BlockedReady(s, k - 1) + if t.status.Ready? && HasBlocker(s, t.id) then [t.id] else []
  }

  /** One explained entry for each of them, in that order. */
  ghost predicate Reported(s: State, k: nat, blocked: seq<BlockedSummary>)
    requires k <= |s|
  {
    && |blocked| == |BlockedReady(s, k)|
    && forall i :: 0 <= i < |blocked| ==> blocked[i].id == BlockedReady(s, k)[i] && ExplainsBlock(s, blocked[i])
  }

  /** The blocked half of `radar`: one explained entry per Ready ticket with a blocker, in backlog order. */
  method ReportBlocked(s: State) returns (blocked: seq<BlockedSummary>)
    requires UniqueIds(s)
    ensures Reported(s, |s|, blocked)
  {
    var unknown := UnknownDependencies(s);
    blocked := [];
    for k := 0 to |s|
      invariant Reported(s, k, blocked)
    {
      var t := s[k];
      if t.status.Ready? {
        var chain := BlockingChain(s, t.id);
        var missing := MissingOf(unknown, t.id);
        var b := BlockedSummary(t.id, chain + missing);
        Explained(s, t.id, chain, missing);
        ReportedNext(s, k, blocked, b);
        if b.blockers != [] {
          blocked := blocked + [b];
        }
      }
    }
  }

  lemma ReportedNext(s: State, k: nat, blocked: seq<BlockedSummary>, b: BlockedSummary)
    requires k < |s| && Reported(s, k, blocked) && s[k].status.Ready? && b.id == s[k].id
    requires if b.blockers == [] then !HasBlocker(s, b.id) else HasBlocker(s, b.id) && ExplainsBlock(s, b)
    ensures Reported(s, k + 1, if b.blockers == [] then blocked else blocked + [b])
  {
  }

  /** The chain and the missing ids together explain a block exactly when there is one. */
  lemma Explained(s: State, id: TicketId, chain: seq<TicketId>, missing: seq<TicketId>)
    requires NoRepeats(chain) && NoRepeats(missing)
    requires forall x :: x in chain <==> x != id && Blocks(s, id, x)
    requires forall x :: x in missing <==> Edge(s, id, x) && x !in Ids(s)
    ensures if chain + missing == [] then !HasBlocker(s, id)
      else HasBlocker(s, id) && ExplainsBlock(s, BlockedSummary(id, chain + missing))
  {
    var all := chain + missing;
    assert forall x :: x in all <==> x in chain || x in missing;
    forall x | x in chain ensures x !in missing {
      var p :| BlockingWalk(s, p) && |p| >= 2 && p[0] == id && p[|p| - 1] == x;
      assert Unfinished(s, x);
    }
    NoRepeatsConcat(chain, missing);
    assert forall x :: x in all <==> IsBlocker(s, id, x);
    if all != [] {
      assert all[0] in all && IsBlocker(s, id, all[0]);
    }
  }

  // ---------------------------------------------------------------- radar against gate

  /** A dependency other than the ticket itself that the gate would not accept. */
  ghost predicate WaitsOnOther(s: State, t: Ticket) {
    exists d :: d in t.dependsOn && d != t.id && !Satisfied(s, d)
  }

  lemma {:induction false} BlockerIsOther(s: State, t: Ticket)
    requires Lookup(s, t.id) == Some(t)
    ensures HasBlocker(s, t.id) <==> WaitsOnOther(s, t)
  {
    if HasBlocker(s, t.id) {
      var x :| IsBlocker(s, t.id, x);
      if x != t.id && Blocks(s, t.id, x) {
        BlockedByOther(s, t, x);
      } else {
        assert x in t.dependsOn && x != t.id && !Satisfied(s, x);
      }
    }
    if WaitsOnOther(s, t) {
      var d :| d in t.dependsOn && d != t.id && !Satisfied(s, d);
      if Unfinished(s, d) {
        BlocksDirectly(s, t.id, d);
      }
      assert IsBlocker(s, t.id, d);
    }
  }

  lemma {:induction false} BlockedByOther(s: State, t: Ticket, x: TicketId)
    requires Lookup(s, t.id) == Some(t) && x != t.id && Blocks(s, t.id, x)
    ensures WaitsOnOther(s, t)
  {
    var p :| BlockingWalk(s, p) && |p| >= 2 && p[0] == t.id && p[|p| - 1] == x;
    LeavesRoot(s, t.id, p);
    var d :| Edge(s, t.id, d) && d != t.id && Unfinished(s, d);
    assert d in t.dependsOn && !Satisfied(s, d);
  }

  lemma {:induction false} LeavesRoot(s: State, root: TicketId, p: seq<TicketId>)
    requires BlockingWalk(s, p) && |p| >= 2 && p[0] == root && p[|p| - 1] != root
    ensures exists d :: Edge(s, root, d) && d != root && Unfinished(s, d)
  {
    assert Edge(s, p[0], p[1]) && Unfinished(s, p[1]);
    if p[1] == root {
      assert BlockingWalk(s, p[1..]);
      LeavesRoot(s, root, p[1..]);
    }
  }

  lemma {:induction false} BlockedReadyHas(s: State, k: nat, j: nat)
    requires UniqueIds(s) && k <= |s| && j < |s|
    ensures s[j].id in BlockedReady(s, k) <==> j < k && s[j].status.Ready? && HasBlocker(s, s[j].id)
    decreases k
  {
    if k > 0 {
      BlockedReadyHas(s, k - 1, j);
      var t, before := s[k - 1], BlockedReady(s, k - 1);
      assert s[j].id in before + [t.id] <==> s[j].id in before || j == k - 1;
    }
  }

  ghost predicate Names(blocked: seq<BlockedSummary>, id: TicketId) {
    exists b :: b in blocked && b.id == id
  }

  /** The one unmet dependency is the ticket itself. */
  ghost predicate WaitsOnItselfOnly(s: State, t: Ticket) {
    t.id in t.dependsOn && forall d :: d in t.dependsOn && d != t.id ==> Satisfied(s, d)
  }

  /**
   * "The radar and the gate are two views of one fact" holds of a Ready ticket, the radar naming it exactly when
   * the gate refuses it, if and only if it is neither a bug waiting on another ticket, which no lane gates, nor
   * a feature or chore waiting on itself alone: the walk starts with its root marked.
   */
  lemma RadarAgreesWithGate(s: State, blocked: seq<BlockedSummary>, j: nat)
    requires UniqueIds(s) && Reported(s, |s|, blocked) && j < |s| && s[j].status.Ready?
    ensures (Names(blocked, s[j].id) <==> GateRefuses(s, s[j])) 
       <==> if s[j].kind.Bug? then !WaitsOnOther(s, s[j]) else !WaitsOnItselfOnly(s, s[j])
  {
    var t := s[j];
    LookupAt(s, j);
    BlockerIsOther(s, t);
    BlockedReadyHas(s, |s|, j);
    NamesBlockedReady(s, blocked, t.id);
    if t.id in t.dependsOn {
      assert !Satisfied(s, t.id);
    }
  }

  lemma {:induction false} NamesBlockedReady(s: State, blocked: seq<BlockedSummary>, id: TicketId)
    requires Reported(s, |s|, blocked)
    ensures Names(blocked, id) <==> id in BlockedReady(s, |s|)
  {
    var ids := BlockedReady(s, |s|);
    if id in ids {
      var i :| 0 <= i < |ids| && ids[i] == id;
      assert blocked[i] in blocked;
    }
  }

  function SelfDependent(): State {
    [Ticket("a", Feature, "", "", Medium, Ready, ["a"], None)]
  }

  /** One Ready ticket depending on itself: refused by the gate, absent from the radar. */
  lemma SelfDependencyUnreported(blocked: seq<BlockedSummary>)
    requires Reported(SelfDependent(), 1, blocked)
    ensures blocked == [] && GateRefuses(SelfDependent(), SelfDependent()[0])
  {
    var s := SelfDependent();
    LookupAt(s, 0);
    assert s[0].id in s[0].dependsOn && !Satisfied(s, s[0].id);
    BlockerIsOther(s, s[0]);
    assert BlockedReady(s, 1) == BlockedReady(s, 0) == [];
  }

  function BlockedBug(): State {
    [ Ticket("a", Feature, "", "", Medium, Pending, [], None),
      Ticket("g", Bug, "", "", Medium, Ready, ["a"], None) ]
  }

  /** A Ready bug depending on a pending feature: on the radar, though no gate refuses it. */
  lemma BlockedBugReported(blocked: seq<BlockedSummary>)
    requires Reported(BlockedBug(), 2, blocked)
    ensures Names(blocked, "g") && !GateRefuses(BlockedBug(), BlockedBug()[1])
  {
    var s := BlockedBug();
    LookupAt(s, 0);
    LookupAt(s, 1);
    assert s[0].id == "a" && s[1].id == "g";
    assert "a" in s[1].dependsOn && "a" != s[1].id && !Satisfied(s, "a");
    RadarAgreesWithGate(s, blocked, 1);
  }
}
