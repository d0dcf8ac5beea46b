/** Structural validation of a state: unique ids, known dependencies, and a coloured search for cycles. */
module Validation {
  import opened Domain
  import opened Radar

  datatype Color = White | Grey | Black

  /** A stack entry: the node, and whether popping it leaves the node or enters it. */
  datatype Visit = Enter(node: TicketId) | Exit(node: TicketId)

  type Colors = map<TicketId, Color>

  predicate Is(color: Colors, id: TicketId, c: Color) {
    id in color && color[id] == c
  }

  ghost function Whites(color: Colors): set<TicketId> {
    set id | id in color && color[id] == White
  }

  // ---------------------------------------------------------------- what the search keeps

  /** Grey nodes are those whose exit stands on the stack. */
  ghost predicate GreyOnStack(color: Colors, stack: seq<Visit>) {
    forall id :: Is(color, id, Grey) <==> Exit(id) in stack
  }

  /** A node to be left reaches everything stacked above it, and is not stacked above itself. */
  ghost predicate PathBelow(s: State, stack: seq<Visit>) {
    forall i, j :: 0 <= i < j < |stack| && stack[i].Exit? ==>
      Reaches(s, stack[i].node, stack[j].node) && stack[i].node != stack[j].node
  }

  /** A black node lies on no cycle and its known dependencies are black. */
  ghost predicate BlackClosed(s: State, color: Colors) {
    forall b :: Is(color, b, Black) ==> !OnCycle(s, b) && forall d :: Edge(s, b, d) && d in color ==> Is(color, d, Black)
  }

  /** Some entry above position `p` is about `d`. */
  ghost predicate Above(stack: seq<Visit>, p: int, d: TicketId) {
    exists q :: p < q < |stack| && q >= 0 && stack[q].node == d
  }

  /** A known dependency of a node to be left is black or waits above it. */
  ghost predicate Queued(s: State, color: Colors, stack: seq<Visit>) {
    forall p, d :: 0 <= p < |stack| && stack[p].Exit? && Edge(s, stack[p].node, d) && d in color ==>
      Is(color, d, Black) || Above(stack, p, d)
  }

  ghost predicate Searching(s: State, color: Colors, stack: seq<Visit>) {
    && color.Keys == Ids(s)
    && GreyOnStack(color, stack)
    && PathBelow(s, stack)
    && BlackClosed(s, color)
    && Queued(s, color, stack)
  }

  // ---------------------------------------------------------------- leaving a node

  /** Behind a black node everything known is black. */
  lemma {:induction false} BlackBehind(s: State, color: Colors, p: seq<TicketId>)
    requires color.Keys == Ids(s) && BlackClosed(s, color)
    requires Walk(s, p) && Is(color, p[0], Black) && p[|p| - 1] in color
    ensures Is(color, p[|p| - 1], Black)
    decreases |p|
  {
    if |p| > 1 {
      var q := p[..|p| - 1];
      assert Edge(s, q[|q| - 1], p[|p| - 1]);
      assert q[|q| - 1] in Ids(s);
      assert Walk(s, q);
      BlackBehind(s, color, q);
    }
  }

  lemma WalkFrom(s: State, p: seq<TicketId>, i: nat)
    requires Walk(s, p) && i < |p|
    ensures Walk(s, p[i..])
  {
  }

  /** A node that is not black yet and depends on black nodes only lies on no cycle. */
  lemma NotOnCycle(s: State, color: Colors, node: TicketId)
    requires color.Keys == Ids(s) && BlackClosed(s, color)
    requires node in color && !Is(color, node, Black)
    requires forall d :: Edge(s, node, d) && d in color ==> Is(color, d, Black)
    ensures !OnCycle(s, node)
  {
    if OnCycle(s, node) {
      var p :| Walk(s, p) && |p| >= 2 && p[0] == node && p[|p| - 1] == node;
      var q := p[1..];
      assert Edge(s, p[0], p[1]);
      WalkFrom(s, p, 1);
      KnownStart(s, color, q);
      BlackBehind(s, color, q);
    }
  }

  lemma KnownStart(s: State, color: Colors, q: seq<TicketId>)
    requires color.Keys == Ids(s) && Walk(s, q) && q[|q| - 1] in color
    ensures q[0] in color
  {
    if |q| > 1 {
      assert Edge(s, q[0], q[1]);
    }
  }

  /** At the top of the stack nothing is pending: the dependencies of the node to be left are black. */
  lemma TopDependenciesBlack(s: State, color: Colors, stack: seq<Visit>, node: TicketId)
    requires Queued(s, color, stack + [Exit(node)])
    ensures forall d :: Edge(s, node, d) && d in color ==> Is(color, d, Black)
  {
    var full, top := stack + [Exit(node)], |stack|;
    forall d | Edge(s, node, d) && d in color ensures Is(color, d, Black) {
      assert full[top].Exit? && full[top].node == node;
      assert !Above(full, top, d);
    }
  }

  lemma LeaveBlack(s: State, color: Colors, node: TicketId)
    requires color.Keys == Ids(s) && BlackClosed(s, color) && Is(color, node, Grey)
    requires forall d :: Edge(s, node, d) && d in color ==> Is(color, d, Black)
    ensures BlackClosed(s, color[node := Black])
  {
    var next := color[node := Black];
    NotOnCycle(s, color, node);
    forall b | Is(next, b, Black)
      ensures !OnCycle(s, b) && forall d :: Edge(s, b, d) && d in next ==> Is(next, d, Black)
    {
      if b != node {
        assert Is(color, b, Black);
      }
      forall d | Edge(s, b, d) && d in next ensures Is(next, d, Black) {
        assert Is(color, d, Black);
      }
    }
  }

  lemma LeaveGrey(s: State, color: Colors, stack: seq<Visit>, node: TicketId)
    requires GreyOnStack(color, stack + [Exit(node)]) && PathBelow(s, stack + [Exit(node)])
    ensures Is(color, node, Grey) && GreyOnStack(color[node := Black], stack)
  {
    var full, next, top := stack + [Exit(node)], color[node := Black], |stack|;
    assert full[top] == Exit(node) && Exit(node) in full;
    forall id ensures Is(next, id, Grey) <==> Exit(id) in stack {
      if Exit(id) in stack {
        var i :| 0 <= i < |stack| && stack[i] == Exit(id);
        assert full[i] == Exit(id) && full[i].node != full[top].node;
      }
    }
  }

  lemma LeaveQueued(s: State, color: Colors, stack: seq<Visit>, node: TicketId)
    requires Queued(s, color, stack + [Exit(node)]) && node in color
    ensures Queued(s, color[node := Black], stack)
  {
    var next := color[node := Black];
    forall p, d | 0 <= p < |stack| && stack[p].Exit? && Edge(s, stack[p].node, d) && d in next
      ensures Is(next, d, Black) || Above(stack, p, d)
    {
      StillQueued(s, color, stack, Exit(node), p, d);
    }
  }

  lemma LeaveNode(s: State, color: Colors, stack: seq<Visit>, node: TicketId)
    requires Searching(s, color, stack + [Exit(node)])
    ensures Searching(s, color[node := Black], stack) && Is(color, node, Grey)
  {
    LeaveGrey(s, color, stack, node);
    TopDependenciesBlack(s, color, stack, node);
    LeaveBlack(s, color, node);
    PathPrefix(s, stack, Exit(node));
    LeaveQueued(s, color, stack, node);
  }

  lemma PathPrefix(s: State, stack: seq<Visit>, v: Visit)
    requires PathBelow(s, stack + [v])
    ensures PathBelow(s, stack)
  {
    var full := stack + [v];
    assert forall i :: 0 <= i < |stack| ==> full[i] == stack[i];
  }

  /** Dropping the top entry loses what waits for its node alone. */
  lemma StillQueued(s: State, color: Colors, stack: seq<Visit>, v: Visit, p: nat, d: TicketId)
    requires Queued(s, color, stack + [v])
    requires p < |stack| && stack[p].Exit? && Edge(s, stack[p].node, d) && d in color
    ensures Is(color, d, Black) || Above(stack, p, d) || d == v.node
  {
    var full := stack + [v];
    assert full[p] == stack[p];
    if !Is(color, d, Black) {
      assert Above(full, p, d);
      var q :| p < q < |full| && q >= 0 && full[q].node == d;
      if q < |stack| {
        assert stack[q].node == d;
      }
    }
  }

  // ---------------------------------------------------------------- skipping an entry

  lemma SkipNode(s: State, color: Colors, stack: seq<Visit>, node: TicketId)
    requires Searching(s, color, stack + [Enter(node)]) && !Is(color, node, White)
    ensures Searching(s, color, stack)
  {
    var full := stack + [Enter(node)];
    assert forall id :: Exit(id) in full <==> Exit(id) in stack;
    PathPrefix(s, stack, Enter(node));
    if Is(color, node, Grey) {
      var i :| 0 <= i < |stack| && stack[i] == Exit(node);
      assert full[i].node != full[|stack|].node;
    }
    forall p, d | 0 <= p < |stack| && stack[p].Exit? && Edge(s, stack[p].node, d) && d in color
      ensures Is(color, d, Black) || Above(stack, p, d)
    {
      StillQueued(s, color, stack, Enter(node), p, d);
    }
  }

  // ---------------------------------------------------------------- entering a node

  /** The search while the dependencies of the node just entered are being stacked. */
  ghost predicate Entering(s: State, color: Colors, stack: seq<Visit>, at: nat, k: nat) {
    && color.Keys == Ids(s)
    && GreyOnStack(color, stack)
    && PathBelow(s, stack)
    && BlackClosed(s, color)
    && at < |stack| && stack[at].Exit?
    && k <= |DepsOf(s, stack[at].node)|
    && QueuedBut(s, color, stack, at)
    && StackedSoFar(s, color, stack, at, k)
  }

  /** As `Queued`, for every node to be left except the one being entered. */
  ghost predicate QueuedBut(s: State, color: Colors, stack: seq<Visit>, at: nat) {
    forall p, d :: 0 <= p < |stack| && p != at && stack[p].Exit? && Edge(s, stack[p].node, d) && d in color ==>
      Is(color, d, Black) || Above(stack, p, d)
  }

  ghost predicate StackedSoFar(s: State, color: Colors, stack: seq<Visit>, at: nat, k: nat)
    requires at < |stack| && k <= |DepsOf(s, stack[at].node)|
  {
    forall i :: 0 <= i < k ==>
      var d := DepsOf(s, stack[at].node)[i]; d in color ==> Is(color, d, Black) || Above(stack, at, d)
  }

  /** Entering turns the entry on top into an exit; the nodes on the stack stay. */
  lemma EnterPath(s: State, stack: seq<Visit>, node: TicketId)
    requires PathBelow(s, stack + [Enter(node)])
    ensures PathBelow(s, stack + [Exit(node)])
  {
    var was, next := stack + [Enter(node)], stack + [Exit(node)];
    forall i, j | 0 <= i < j < |next| && next[i].Exit?
      ensures Reaches(s, next[i].node, next[j].node) && next[i].node != next[j].node
    {
      assert was[i].Exit? && was[i].node == next[i].node && was[j].node == next[j].node;
    }
  }

  lemma EnterGrey(color: Colors, stack: seq<Visit>, node: TicketId)
    requires GreyOnStack(color, stack + [Enter(node)]) && node in color
    ensures GreyOnStack(color[node := Grey], stack + [Exit(node)])
  {
  }

  lemma EnterQueued(s: State, color: Colors, stack: seq<Visit>, node: TicketId)
    requires Queued(s, color, stack + [Enter(node)]) && Is(color, node, White)
    ensures QueuedBut(s, color[node := Grey], stack + [Exit(node)], |stack|)
  {
    var was, next, grey := stack + [Enter(node)], stack + [Exit(node)], color[node := Grey];
    forall p, d | 0 <= p < |next| && p != |stack| && next[p].Exit? && Edge(s, next[p].node, d) && d in grey
      ensures Is(grey, d, Black) || Above(next, p, d)
    {
      assert was[p] == next[p];
      if !Is(color, d, Black) {
        var q :| p < q < |was| && q >= 0 && was[q].node == d;
        assert next[q].node == d;
      }
    }
  }

  lemma EnterNode(s: State, color: Colors, stack: seq<Visit>, node: TicketId)
    requires Searching(s, color, stack + [Enter(node)]) && Is(color, node, White)
    ensures Entering(s, color[node := Grey], stack + [Exit(node)], |stack|, 0)
  {
    EnterPath(s, stack, node);
    EnterGrey(color, stack, node);
    EnterQueued(s, color, stack, node);
    EnterBlack(s, color, node);
  }

  lemma EnterBlack(s: State, color: Colors, node: TicketId)
    requires BlackClosed(s, color) && Is(color, node, White)
    ensures BlackClosed(s, color[node := Grey])
  {
    var grey := color[node := Grey];
    assert forall id :: Is(grey, id, Black) <==> Is(color, id, Black);
  }

  /** A dependency already black needs no entry. */
  lemma PassDependency(s: State, color: Colors, stack: seq<Visit>, at: nat, k: nat)
    requires Entering(s, color, stack, at, k) && k < |DepsOf(s, stack[at].node)|
    requires Is(color, DepsOf(s, stack[at].node)[k], Black)
    ensures Entering(s, color, stack, at, k + 1)
  {
  }

  lemma StackDependency(s: State, color: Colors, stack: seq<Visit>, at: nat, k: nat, dep: TicketId)
    requires Entering(s, color, stack, at, k) && k < |DepsOf(s, stack[at].node)| && dep == DepsOf(s, stack[at].node)[k]
    requires !Is(color, dep, Black) && !Is(color, dep, Grey)
    requires forall q :: at < q < |stack| ==> stack[q].Enter?
    ensures Entering(s, color, stack + [Enter(dep)], at, k + 1)
    ensures forall q :: at < q < |stack + [Enter(dep)]| ==> (stack + [Enter(dep)])[q].Enter?
  {
    var next, node := stack + [Enter(dep)], stack[at].node;
    assert forall i :: 0 <= i < |stack| ==> next[i] == stack[i];
    assert next[|stack|].node == dep;
    assert forall id :: Exit(id) in next <==> Exit(id) in stack;
    forall i | 0 <= i < |stack| && next[i].Exit?
      ensures Reaches(s, next[i].node, dep) && next[i].node != dep
    {
      assert Exit(stack[i].node) in stack;
      ReachesDependency(s, stack, at, i, dep);
    }
    forall p, d | 0 <= p < |stack| && Above(stack, p, d) ensures Above(next, p, d) {
      var q :| p < q < |stack| && q >= 0 && stack[q].node == d;
      assert next[q].node == d;
    }
    assert Above(next, at, dep);
  }

  lemma ReachesDependency(s: State, stack: seq<Visit>, at: nat, i: nat, dep: TicketId)
    requires PathBelow(s, stack) && i <= at < |stack| && stack[i].Exit? && Edge(s, stack[at].node, dep)
    ensures Reaches(s, stack[i].node, dep)
  {
    if i == at {
      EdgeReaches(s, stack[at].node, dep);
    } else {
      ReachesStep(s, stack[i].node, stack[at].node, dep);
    }
  }

  /** A dependency found grey closes a cycle. */
  lemma GreyClosesCycle(s: State, color: Colors, stack: seq<Visit>, at: nat, dep: TicketId)
    requires GreyOnStack(color, stack) && PathBelow(s, stack) && at < |stack|
    requires forall q :: at < q < |stack| ==> stack[q].Enter?
    requires Edge(s, stack[at].node, dep) && Is(color, dep, Grey)
    ensures OnCycle(s, dep)
  {
    var i: nat :| i < |stack| && stack[i] == Exit(dep);
    ReachesDependency(s, stack, at, i, dep);
  }

  lemma Entered(s: State, color: Colors, stack: seq<Visit>, at: nat)
    requires at < |stack| && Entering(s, color, stack, at, |DepsOf(s, stack[at].node)|)
    ensures Searching(s, color, stack)
  {
  }

  /** Stacks the dependencies of a node just turned grey, unless one of them closes a cycle. */
  method StackDependencies(s: State, color: Colors, stack: seq<Visit>) returns (next: seq<Visit>, found: Option<TicketId>)
    requires stack != [] && Entering(s, color, stack, |stack| - 1, 0)
    ensures found.Some? ==> OnCycle(s, found.value)
    ensures found.None? ==> Searching(s, color, next) && |next| >= |stack| && next[..|stack|] == stack
  {
    ghost var at := |stack| - 1;
    var deps := DepsOf(s, stack[|stack| - 1].node);
    next := stack;
    for k := 0 to |deps|
      invariant |next| >= |stack| && next[..|stack|] == stack && next[at] == stack[at]
      invariant Entering(s, color, next, at, k)
      invariant forall q :: at < q < |next| ==> next[q].Enter?
    {
      var dep := deps[k];
      if Is(color, dep, Grey) {
        GreyClosesCycle(s, color, next, at, dep);
        return next, Some(dep);
      } else if Is(color, dep, Black) {
        PassDependency(s, color, next, at, k);
      } else {
        StackDependency(s, color, next, at, k, dep);
        next := next + [Enter(dep)];
      }
    }
    Entered(s, color, next, at);
    found := None;
  }

  // ---------------------------------------------------------------- the search

  /** The ids colored black stay black. */
  ghost predicate KeepsBlack(before: Colors, after: Colors) {
    forall id :: Is(before, id, Black) ==> Is(after, id, Black)
  }

  /** No node is half-visited. */
  ghost predicate Settled(s: State, color: Colors) {
    color.Keys == Ids(s) && BlackClosed(s, color) && forall id :: !Is(color, id, Grey)
  }

  lemma BeginSearch(s: State, color: Colors, start: TicketId)
    requires Settled(s, color)
    ensures Searching(s, color, [Enter(start)])
  {
  }

  lemma EndSearch(s: State, color: Colors)
    requires Searching(s, color, [])
    ensures Settled(s, color)
  {
    forall id ensures !Is(color, id, Grey) {
      assert Is(color, id, Grey) <==> Exit(id) in [];
    }
  }

  lemma SettledIsBlack(s: State, color: Colors, id: TicketId)
    requires Settled(s, color) && id in color && !Is(color, id, White)
    ensures Is(color, id, Black)
  {
    assert !Is(color, id, Grey);
  }

  /** The inner loop of `first_dependency_cycle`, from one white start. */
  method Search(s: State, color0: Colors, start: TicketId) returns (color: Colors, found: Option<TicketId>)
    requires Settled(s, color0) && Is(color0, start, White)
    ensures found.Some? ==> OnCycle(s, found.value)
    ensures found.None? ==> Settled(s, color) && KeepsBlack(color0, color) && Is(color, start, Black)
  {
    color := color0;
    var stack := [Enter(start)];
    BeginSearch(s, color, start);
    while stack != []
      invariant SearchingFrom(s, color0, start, color, stack)
      decreases Whites(color), |stack|
    {
      var rest, top := stack[..|stack| - 1], stack[|stack| - 1];
      assert stack == rest + [top];
      var node := top.node;
      if top.Exit? {
        FromLeave(s, color0, start, color, rest, node);
        color, stack := color[node := Black], rest;
      } else if !Is(color, node, White) {
        SkipNode(s, color, rest, node);
        stack := rest;
      } else {
        EnterNode(s, color, rest, node);
        WhitesShrink(color, node);
        color := color[node := Grey];
        stack, found := StackDependencies(s, color, rest + [Exit(node)]);
        if found.Some? {
          return;
        }
        assert stack[0] == stack[..|rest| + 1][0];
      }
    }
    EndSearch(s, color);
    SettledIsBlack(s, color, start);
    found := None;
  }

  /** The search from `start`, begun with `color0`: its entry, then its exit, stays at the bottom. */
  ghost predicate SearchingFrom(s: State, color0: Colors, start: TicketId, color: Colors, stack: seq<Visit>) {
    && Searching(s, color, stack) && KeepsBlack(color0, color) && start in color
    && (stack != [] ==> stack[0].node == start) && (stack == [] ==> !Is(color, start, White))
  }

  lemma FromLeave(s: State, color0: Colors, start: TicketId, color: Colors, rest: seq<Visit>, node: TicketId)
    requires SearchingFrom(s, color0, start, color, rest + [Exit(node)])
    ensures SearchingFrom(s, color0, start, color[node := Black], rest)
    ensures Whites(color[node := Black]) == Whites(color)
  {
    LeaveNode(s, color, rest, node);
    assert (rest + [Exit(node)])[0].node == start;
  }

  lemma WhitesShrink(color: Colors, node: TicketId)
    requires Is(color, node, White)
    ensures Whites(color[node := Grey]) == Whites(color) - {node} && node in Whites(color)
  {
  }

  /** `first_dependency_cycle`: a node on a cycle, or nothing exactly when there is no cycle. */
  method FirstDependencyCycle(s: State) returns (found: Option<TicketId>)
    ensures found.Some? ==> OnCycle(s, found.value)
    ensures found.None? ==> Acyclic(s)
  {
    var color: Colors := map id | id in Ids(s) :: White;
    NothingVisited(s, color);
    for k := 0 to |s|
      invariant Settled(s, color) && BlackUpTo(s, color, k)
    {
      var start := s[k].id;
      assert start in Ids(s);
      ghost var was := color;
      if Is(color, start, White) {
        color, found := Search(s, color, start);
        if found.Some? {
          return;
        }
      } else {
        SettledIsBlack(s, color, start);
      }
      OneMoreBlack(s, was, color, k);
    }
    AllBlack(s, color);
    found := None;
  }

  ghost predicate BlackUpTo(s: State, color: Colors, k: nat) {
    k <= |s| && forall j :: 0 <= j < k ==> Is(color, s[j].id, Black)
  }

  lemma NothingVisited(s: State, color: Colors)
    requires color.Keys == Ids(s) && forall id :: id in color ==> color[id] == White
    ensures Settled(s, color) && BlackUpTo(s, color, 0)
  {
    assert forall id :: !Is(color, id, Black) && !Is(color, id, Grey);
  }

  lemma OneMoreBlack(s: State, was: Colors, color: Colors, k: nat)
    requires BlackUpTo(s, was, k) && k < |s| && KeepsBlack(was, color) && Is(color, s[k].id, Black)
    ensures BlackUpTo(s, color, k + 1)
  {
  }

  lemma AllBlack(s: State, color: Colors)
    requires Settled(s, color) && BlackUpTo(s, color, |s|)
    ensures Acyclic(s)
  {
    forall id ensures !OnCycle(s, id) {
      if id in Ids(s) {
        var t :| t in s && t.id == id;
        var j :| 0 <= j < |s| && s[j] == t;
        assert Is(color, s[j].id, Black);
      } else {
        UnknownOffCycle(s, id);
      }
    }
  }

  lemma UnknownOffCycle(s: State, id: TicketId)
    requires id !in Ids(s)
    ensures !OnCycle(s, id)
  {
    forall p | Walk(s, p) && |p| >= 2 ensures p[0] != id {
      assert Edge(s, p[0], p[1]);
    }
  }

  // ---------------------------------------------------------------- the whole validation

  datatype Verdict =
    | Sound
    | DuplicateId(id: TicketId)
    | UnknownDependency(ticket: TicketId, dep: TicketId)
    | Cyclic(node: TicketId)

  ghost predicate DependenciesKnown(s: State) {
    forall t, d :: t in s && d in t.dependsOn ==> d in Ids(s)
  }

  /** What the planner relies on: one ticket per id, every dependency known, no cycle. */
  ghost predicate WellFormed(s: State) {
    UniqueIds(s) && DependenciesKnown(s) && Acyclic(s)
  }

  /** The complaint names an actual fault, faults being looked for in this order. */
  ghost predicate Justified(s: State, v: Verdict) {
    match v
    case Sound => WellFormed(s)
    case DuplicateId(id) => exists i, j :: 0 <= i < j < |s| && s[i].id == id && s[j].id == id
    case UnknownDependency(ticket, dep) =>
      UniqueIds(s) && dep !in Ids(s) && Edge(s, ticket, dep)
    case Cyclic(node) => UniqueIds(s) && DependenciesKnown(s) && OnCycle(s, node)
  }

  method FindDuplicate(s: State) returns (dup: Option<TicketId>, seen: set<TicketId>)
    ensures dup.None? ==> UniqueIds(s) && seen == Ids(s)
    ensures dup.Some? ==> Justified(s, DuplicateId(dup.value))
  {
    seen := {};
    for k := 0 to |s|
      invariant UniqueIds(s[..k]) && seen == Ids(s[..k])
    {
      assert s[..k + 1] == s[..k] + [s[k]];
      if s[k].id in seen {
        var t :| t in s[..k] && t.id == s[k].id;
        var i :| 0 <= i < k && s[..k][i] == t;
        assert s[i].id == s[k].id;
        return Some(s[k].id), seen;
      }
      assert forall i :: 0 <= i < k ==> s[..k][i] in s[..k];
      seen := seen + {s[k].id};
    }
    assert s[..|s|] == s;
    dup := None;
  }

  method FindUnknown(s: State, seen: set<TicketId>) returns (bad: Option<(TicketId, TicketId)>)
    requires UniqueIds(s) && seen == Ids(s)
    ensures bad.None? ==> DependenciesKnown(s)
    ensures bad.Some? ==> Justified(s, UnknownDependency(bad.value.0, bad.value.1))
  {
    for k := 0 to |s|
      invariant forall j, d :: 0 <= j < k && d in s[j].dependsOn ==> d in seen
    {
      var deps := s[k].dependsOn;
      for i := 0 to |deps|
        invariant forall n :: 0 <= n < i ==> deps[n] in seen
      {
        if deps[i] !in seen {
          LookupAt(s, k);
          return Some((s[k].id, deps[i]));
        }
      }
    }
    bad := None;
  }

  /** `validate`: sound exactly for well-formed states, and every complaint names an actual fault. */
  method Validate(s: State) returns (v: Verdict)
    ensures v == Sound <==> WellFormed(s)
    ensures Justified(s, v)
  {
    var dup, seen := FindDuplicate(s);
    if dup.Some? {
      return DuplicateId(dup.value);
    }
    var bad := FindUnknown(s, seen);
    if bad.Some? {
      EdgeOfTicket(s, bad.value.0, bad.value.1);
      return UnknownDependency(bad.value.0, bad.value.1);
    }
    var found := FirstDependencyCycle(s);
    v := if found.Some? then Cyclic(found.value) else Sound;
  }

  lemma EdgeOfTicket(s: State, a: TicketId, b: TicketId)
    requires Edge(s, a, b)
    ensures exists t :: t in s && t.id == a && b in t.dependsOn
  {
    var t := Lookup(s, a).value;
    assert t in s && t.id == a && b in t.dependsOn;
  }
}
