/**
 * The shim-directory sweep: many hubs start, write their directory, die, and
 * sweep the temp directory for what dead hubs left behind.
 */
module Shims {
  import opened Domain
  import opened Sequences
  import opened Text

  const SHIM_DIR_PREFIX := "coxagent-shims-"
  const LEGACY_SHARED_SHIM_DIR := "coxagent-shims"

  type Pid = p: nat | p < U32

  // ---------------------------------------------------------------- names

  /** `shim_dir_for_process`: the directory a hub writes for itself. */
  function ShimDir(pid: Pid): string {
    SHIM_DIR_PREFIX + Decimal(pid)
  }

  /** The pid a pid-suffixed shim directory name carries. */
  function PidOf(name: string): Option<Pid> {
    if !(SHIM_DIR_PREFIX <= name) then None
    else
      var suffix := name[|SHIM_DIR_PREFIX|..];
      if suffix == [] || !AllDigits(suffix) then None
      else
        var n := ParseUnsigned(suffix, U32);
        if n.Some? then Some(n.value) else None
  }

  /** `is_stale_shim_dir`. */
  predicate IsStale(name: string, me: Pid, live: set<Pid>) {
    var pid := PidOf(name);
    pid.Some? && pid.value != me && pid.value !in live
  }

  /** Names lead back to their hub, so distinct hubs never share a directory. */
  lemma ShimDirRoundTrip(pid: Pid)
    ensures PidOf(ShimDir(pid)) == Some(pid)
    ensures ShimDir(pid) != LEGACY_SHARED_SHIM_DIR
  {
    ParseDecimal(pid, U32);
    DecimalRoundTrip(pid);
    assert ShimDir(pid)[|SHIM_DIR_PREFIX|..] == Decimal(pid);
    assert |ShimDir(pid)| > |LEGACY_SHARED_SHIM_DIR|;
  }

  /** A hub's own directory is stale to another hub exactly when that hub misses it in its snapshot. */
  lemma OwnDirStale(pid: Pid, me: Pid, live: set<Pid>)
    ensures IsStale(ShimDir(pid), me, live) <==> pid != me && pid !in live
    ensures !IsStale(LEGACY_SHARED_SHIM_DIR, me, live)
  {
    ShimDirRoundTrip(pid);
    assert |LEGACY_SHARED_SHIM_DIR| < |SHIM_DIR_PREFIX|;
  }

  // ---------------------------------------------------------------- one reaping loop

  datatype Entry = Entry(name: string, isDir: bool)

  /** What the loop may delete, given the names the file system lets it delete. */
  predicate Reapable(e: Entry, me: Pid, live: set<Pid>, removable: set<string>) {
    live != {} && e.isDir && IsStale(e.name, me, live) && e.name in removable
  }

  /** `reap_listed_shim_dirs`: the listing and the snapshot arrive as data; an empty snapshot reaps nothing. */
  method ReapListed(dirs: set<string>, entries: seq<Entry>, me: Pid, live: set<Pid>, removable: set<string>)
    returns (left: set<string>, reaped: nat)
    ensures left <= dirs
    ensures forall n :: n in dirs ==> (n !in left <==> exists e :: e in entries && e.name == n && Reapable(e, me, live, removable))
    ensures NoRepeats(entries) ==> reaped == |set e | e in entries && Reapable(e, me, live, removable)|
  {
    left, reaped := dirs, 0;
    if live == {} {
      assert (set e | e in entries && Reapable(e, me, live, removable)) == {};
      return;
    }
    ghost var gone: set<Entry> := {};
    for i := 0 to |entries|
      invariant gone == set e | e in entries[..i] && Reapable(e, me, live, removable)
      invariant left <= dirs && forall n :: n in dirs ==> (n !in left <==> Names(gone, n))
      invariant NoRepeats(entries) ==> reaped == |gone|
    {
      var e := entries[i];
      assert entries[..i + 1] == entries[..i] + [e];
      if Reapable(e, me, live, removable) {
        left, reaped := left - {e.name}, reaped + 1;
        NamesMore(gone, e);
        assert NoRepeats(entries) ==> e !in gone;
        gone := gone + {e};
      }
    }
    assert entries[..|entries|] == entries;
  }

  ghost predicate Names(gone: set<Entry>, n: string) {
    exists e :: e in gone && e.name == n
  }

  lemma NamesMore(gone: set<Entry>, e: Entry)
    ensures forall n :: Names(gone + {e}, n) <==> Names(gone, n) || n == e.name
  {
    forall n ensures Names(gone + {e}, n) <==> Names(gone, n) || n == e.name {
      assert e in gone + {e};
    }
  }

  // ---------------------------------------------------------------- the protocol

  /** Where a hub stands in its start-up. */
  datatype Phase =
    | Started
    | Written
    | Listed(listing: set<string>)
    // `born` records the pids that started after the snapshot was taken.
    | Sweeping(listing: set<string>, snapshot: set<Pid>, born: set<Pid>)
    | Running

  /** The processes alive, the hubs among them, and the entries of the shared temp directory. */
  datatype World = World(live: set<Pid>, hubs: map<Pid, Phase>, dirs: set<string>)

  datatype Step =
    | Spawn(pid: Pid)                  // an unrelated process starts
    | Start(pid: Pid)                  // a hub starts
    | Exit(pid: Pid)                   // a process, hub or not, ends
    | Create(name: string)             // somebody creates an entry
    | Write(pid: Pid)                  // the hub writes its directory
    | List(pid: Pid)                   // the hub lists the temp directory
    | Late(pid: Pid, name: string)     // the listing delivers an entry after the snapshot
    | Snapshot(pid: Pid)               // the hub takes its live-pid snapshot
    | NoSnapshot(pid: Pid)             // ps failed or lied: reap nothing
    | Remove(pid: Pid, name: string)   // the hub removes a listed stale entry
    | Finish(pid: Pid)

  predicate Enabled(w: World, step: Step) {
    match step
    case Spawn(p) => p !in w.live
    case Start(p) => p !in w.live
    case Exit(p) => p in w.live
    case Create(_) => true
    case Write(p) => p in w.hubs && w.hubs[p].Started?
    case List(p) => p in w.hubs && w.hubs[p].Written?
    case Late(p, name) => p in w.hubs && w.hubs[p].Sweeping? && name in w.dirs
    case Snapshot(p) => p in w.hubs && w.hubs[p].Listed?
    case NoSnapshot(p) => p in w.hubs && w.hubs[p].Listed?
    case Remove(p, name) =>
      p in w.hubs && w.hubs[p].Sweeping? && name in w.hubs[p].listing && IsStale(name, p, w.hubs[p].snapshot)
    case Finish(p) => p in w.hubs && w.hubs[p].Sweeping?
  }

  /** A newly started pid enters the history of every running sweep. */
  function Born(hubs: map<Pid, Phase>, pid: Pid): map<Pid, Phase> {
    map p | p in hubs :: if hubs[p].Sweeping? then hubs[p].(born := hubs[p].born + {pid}) else hubs[p]
  }

  function After(w: World, step: Step): World
    requires Enabled(w, step)
  {
    match step
    case Spawn(p) => World(w.live + {p}, Born(w.hubs, p), w.dirs)
    case Start(p) => World(w.live + {p}, Born(w.hubs, p)[p := Started], w.dirs)
    case Exit(p) => World(w.live - {p}, w.hubs - {p}, w.dirs)
    case Create(name) => w.(dirs := w.dirs + {name})
    case Write(p) => World(w.live, w.hubs[p := Written], w.dirs + {ShimDir(p)})
    case List(p) => w.(hubs := w.hubs[p := Listed(w.dirs)])
    case Late(p, name) => w.(hubs := w.hubs[p := w.hubs[p].(listing := w.hubs[p].listing + {name})])
    case Snapshot(p) => w.(hubs := w.hubs[p := Sweeping(w.hubs[p].listing, w.live, {})])
    case NoSnapshot(p) => w.(hubs := w.hubs[p := Running])
    case Remove(_, name) => w.(dirs := w.dirs - {name})
    case Finish(p) => w.(hubs := w.hubs[p := Running])
  }

  /** A run: any leftovers, any processes, no hub yet, then any interleaving of enabled steps. */
  ghost predicate Run(worlds: seq<World>, steps: seq<Step>) {
    && |worlds| == |steps| + 1
    && worlds[0].hubs == map[]
    && forall i :: 0 <= i < |steps| ==> Enabled(worlds[i], steps[i]) && worlds[i + 1] == After(worlds[i], steps[i])
  }

  /** Hubs are alive, and whoever is alive was in a sweep's snapshot or has started since. */
  ghost predicate Accounted(w: World) {
    && w.hubs.Keys <= w.live
    && forall h, p :: h in w.hubs && w.hubs[h].Sweeping? && p in w.live ==>
      p in w.hubs[h].snapshot || p in w.hubs[h].born
  }

  lemma AccountedStep(w: World, step: Step)
    requires Accounted(w) && Enabled(w, step)
    ensures Accounted(After(w, step))
  {
  }

  lemma {:induction false} AccountedAlways(worlds: seq<World>, steps: seq<Step>, i: nat)
    requires Run(worlds, steps) && i < |worlds|
    ensures Accounted(worlds[i])
  {
    if i > 0 {
      AccountedAlways(worlds, steps, i - 1);
      AccountedStep(worlds[i - 1], steps[i - 1]);
    }
  }

  /** Sweep `h` is about to delete the directory of the live hub `g`. */
  ghost predicate Hits(w: World, h: Pid, g: Pid) {
    g in w.hubs && Enabled(w, Remove(h, ShimDir(g)))
  }

  /**
   * In every run a sweep can hit a live hub exactly when that hub started after
   * the sweep's snapshot on a pid the snapshot lacks, while the listing names it.
   */
  lemma HitsExactlyTheReborn(worlds: seq<World>, steps: seq<Step>, i: nat, h: Pid, g: Pid)
    requires Run(worlds, steps) && i < |worlds|
    ensures var w := worlds[i];
      Hits(w, h, g) <==>
        && h in w.hubs && w.hubs[h].Sweeping? && g in w.hubs && g != h
        && g in w.hubs[h].born && g !in w.hubs[h].snapshot && ShimDir(g) in w.hubs[h].listing
  {
    AccountedAlways(worlds, steps, i);
    var w := worlds[i];
    if h in w.hubs && w.hubs[h].Sweeping? {
      OwnDirStale(g, h, w.hubs[h].snapshot);
    }
  }

  /** Some sweep has listed the directory of `pid` and missed the pid in its snapshot. */
  ghost predicate Condemned(w: World, pid: Pid) {
    exists h :: h in w.hubs && w.hubs[h].Sweeping? && ShimDir(pid) in w.hubs[h].listing && pid !in w.hubs[h].snapshot
  }

  /** The late entry names the directory of a live hub, not the sweeper, that the snapshot lacks. */
  ghost predicate LateVictim(w: World, h: Pid, name: string)
    requires h in w.hubs && w.hubs[h].Sweeping?
  {
    exists g :: g in w.hubs && g != h && name == ShimDir(g) && g !in w.hubs[h].snapshot
  }

  /** The two steps that put a live hub at risk: a start on a condemned pid, a late entry naming a victim. */
  ghost predicate Exposing(w: World, step: Step) {
    || (step.Start? && Condemned(w, step.pid))
    || (step.Late? && step.pid in w.hubs && w.hubs[step.pid].Sweeping? && LateVictim(w, step.pid, step.name))
  }

  /** A live hub whose directory a sweep has listed is in that sweep's snapshot. */
  ghost predicate Vouched(w: World) {
    forall h, g :: h in w.hubs && w.hubs[h].Sweeping? && g in w.hubs && g != h && ShimDir(g) in w.hubs[h].listing ==>
      g in w.hubs[h].snapshot
  }

  /** Which is to say that no sweep is about to hit anybody. */
  lemma VouchedMeansSafe(w: World)
    ensures Vouched(w) <==> forall h, g :: !Hits(w, h, g)
  {
    forall h, g ensures Hits(w, h, g) <==>
      h in w.hubs && w.hubs[h].Sweeping? && g in w.hubs && g != h && ShimDir(g) in w.hubs[h].listing && g !in w.hubs[h].snapshot
    {
      if h in w.hubs && w.hubs[h].Sweeping? {
        OwnDirStale(g, h, w.hubs[h].snapshot);
      }
    }
  }

  lemma VouchedStep(w: World, step: Step)
    requires Accounted(w) && Vouched(w) && Enabled(w, step) && !Exposing(w, step)
    ensures Vouched(After(w, step))
  {
  }

  /** An exposing step does put somebody in front of a sweep. */
  lemma ExposingHits(w: World, step: Step) returns (h: Pid, g: Pid)
    requires Accounted(w) && Enabled(w, step) && Exposing(w, step)
    ensures Hits(After(w, step), h, g)
  {
    if step.Start? {
      g := step.pid;
      h :| h in w.hubs && w.hubs[h].Sweeping? && ShimDir(g) in w.hubs[h].listing && g !in w.hubs[h].snapshot;
    } else {
      h := step.pid;
      g :| g in w.hubs && g != h && step.name == ShimDir(g) && g !in w.hubs[h].snapshot;
    }
    OwnDirStale(g, h, w.hubs[h].snapshot);
  }

  lemma {:induction false} VouchedAlways(worlds: seq<World>, steps: seq<Step>, i: nat)
    requires Run(worlds, steps) && i < |worlds|
    requires forall k :: 0 <= k < i ==> !Exposing(worlds[k], steps[k])
    ensures Vouched(worlds[i])
  {
    if i > 0 {
      VouchedAlways(worlds, steps, i - 1);
      AccountedAlways(worlds, steps, i - 1);
      VouchedStep(worlds[i - 1], steps[i - 1]);
    }
  }

  ghost predicate NeverHits(worlds: seq<World>) {
    forall i, h, g :: 0 <= i < |worlds| ==> !Hits(worlds[i], h, g)
  }

  ghost predicate NeverExposes(worlds: seq<World>, steps: seq<Step>)
    requires |worlds| == |steps| + 1
  {
    forall k :: 0 <= k < |steps| ==> !Exposing(worlds[k], steps[k])
  }

  /**
   * Over every run, whatever the interleaving and whenever the listing delivers its entries: no sweep ever
   * stands before a live hub's directory exactly when no step of the schedule is exposing.
   */
  lemma SafeExactlyUnexposed(worlds: seq<World>, steps: seq<Step>)
    requires Run(worlds, steps)
    ensures NeverHits(worlds) <==> NeverExposes(worlds, steps)
  {
    if NeverExposes(worlds, steps) {
      forall i: nat, h, g | i < |worlds| ensures !Hits(worlds[i], h, g) {
        VouchedAlways(worlds, steps, i);
        VouchedMeansSafe(worlds[i]);
      }
    } else {
      var k: nat :| k < |steps| && Exposing(worlds[k], steps[k]);
      AccountedAlways(worlds, steps, k);
      var h, g := ExposingHits(worlds[k], steps[k]);
      assert Hits(worlds[k + 1], h, g);
    }
  }

  /**
   * Safety up to any moment: as long as no step has been exposing, no step removes a live hub's directory.
   */
  lemma NoLiveDirRemoved(worlds: seq<World>, steps: seq<Step>, i: nat, g: Pid)
    requires Run(worlds, steps) && i < |steps| && g in worlds[i].hubs
    requires forall k :: 0 <= k < i ==> !Exposing(worlds[k], steps[k])
    ensures ShimDir(g) in worlds[i].dirs ==> ShimDir(g) in worlds[i + 1].dirs
  {
    VouchedAlways(worlds, steps, i);
    VouchedMeansSafe(worlds[i]);
    if steps[i].Remove? {
      assert !Hits(worlds[i], steps[i].pid, g);
    }
  }

  /** Once written, a hub's directory stays for as long as the hub lives. */
  lemma {:induction false} WrittenDirStays(worlds: seq<World>, steps: seq<Step>, i: nat, j: nat, g: Pid)
    requires Run(worlds, steps) && i <= j < |worlds|
    requires forall k :: 0 <= k < j ==> !Exposing(worlds[k], steps[k])
    requires forall k :: i <= k <= j ==> g in worlds[k].hubs
    requires ShimDir(g) in worlds[i].dirs
    ensures ShimDir(g) in worlds[j].dirs
    decreases j
  {
    if j > i {
      WrittenDirStays(worlds, steps, i, j - 1, g);
      NoLiveDirRemoved(worlds, steps, j - 1, g);
    }
  }

  // ---------------------------------------------------------------- why the order matters

  /** Each pid starts once: no recycling at all. */
  ghost predicate FreshPids(steps: seq<Step>) {
    forall i, j :: 0 <= i < j < |steps| && steps[i].Start? && steps[j].Start? ==> steps[i].pid != steps[j].pid
  }

  function LateSteps(): seq<Step> {
    [Start(1), Write(1), List(1), Snapshot(1), Start(2), Write(2), Late(1, ShimDir(2)), Remove(1, ShimDir(2))]
  }

  function LateWorlds(): seq<World> {
    var one, two := ShimDir(1), ShimDir(2);
    [ World({}, map[], {}),
      World({1}, map[1 := Started], {}),
      World({1}, map[1 := Written], {one}),
      World({1}, map[1 := Listed({one})], {one}),
      World({1}, map[1 := Sweeping({one}, {1}, {})], {one}),
      World({1, 2}, map[1 := Sweeping({one}, {1}, {2}), 2 := Started], {one}),
      World({1, 2}, map[1 := Sweeping({one}, {1}, {2}), 2 := Written], {one, two}),
      World({1, 2}, map[1 := Sweeping({one, two}, {1}, {2}), 2 := Written], {one, two}),
      World({1, 2}, map[1 := Sweeping({one, two}, {1}, {2}), 2 := Written], {one}) ]
  }

  ghost predicate StepFits(w: World, step: Step, next: World) {
    Enabled(w, step) && After(w, step) == next && (Exposing(w, step) <==> step.Late?)
  }

  /** Up to the snapshot: one hub alone. */
  lemma LateStepEarly(k: nat)
    requires k < 4
    ensures StepFits(LateWorlds()[k], LateSteps()[k], LateWorlds()[k + 1])
  {
  }

  /** After it: the second hub starts, writes, and is swept. */
  lemma LateStepAfter(k: nat)
    requires 4 <= k < |LateSteps()|
    ensures StepFits(LateWorlds()[k], LateSteps()[k], LateWorlds()[k + 1])
  {
    if k == 4 {
      ShimDirRoundTrip(1);
      ShimDirRoundTrip(2);
      var w := LateWorlds()[4];
      assert ShimDir(2) !in w.hubs[1].listing;
      assert !Condemned(w, 2);
      assert {} + {2} == {2};
      assert Born(w.hubs, 2) == map[1 := Sweeping({ShimDir(1)}, {1}, {2})];
    } else if k == 5 {
    } else if k == 6 {
      assert LateVictim(LateWorlds()[6], 1, ShimDir(2));
      assert {ShimDir(1)} + {ShimDir(2)} == {ShimDir(1), ShimDir(2)};
    } else {
      ShimDirRoundTrip(1);
      ShimDirRoundTrip(2);
      OwnDirStale(2, 1, {1});
    }
  }

  /**
   * A directory entry delivered after the snapshot is enough to lose a live hub's
   * directory, even if no pid is ever recycled: hub 2 is born after hub 1's snapshot.
   */
  lemma LateListingLosesLiveDir()
    ensures Run(LateWorlds(), LateSteps()) && FreshPids(LateSteps())
    ensures forall k :: 0 <= k < |LateSteps()| ==> (Exposing(LateWorlds()[k], LateSteps()[k]) <==> LateSteps()[k].Late?)
    ensures 2 in LateWorlds()[7].hubs && ShimDir(2) in LateWorlds()[7].dirs
    ensures 2 in LateWorlds()[8].hubs && ShimDir(2) !in LateWorlds()[8].dirs
  {
    ShimDirRoundTrip(1);
    ShimDirRoundTrip(2);
    forall k | 0 <= k < |LateSteps()|
      ensures Enabled(LateWorlds()[k], LateSteps()[k])
      ensures LateWorlds()[k + 1] == After(LateWorlds()[k], LateSteps()[k])
      ensures Exposing(LateWorlds()[k], LateSteps()[k]) <==> LateSteps()[k].Late?
    {
      if k < 4 {
        LateStepEarly(k);
      } else {
        LateStepAfter(k);
      }
    }
  }
}
