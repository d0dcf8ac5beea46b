/** Versions as lockfiles pin them, and the scan that turns lockfiles into findings. */
module LockScan {
  import opened Domain
  import opened Ordering
  import opened Sequences
  import opened Sorting
  import opened Text
  import opened DepsScan

  // ---------------------------------------------------------------- versions

  datatype Ver = Ver(major: nat, minor: nat, patch: nat)

  /** The components fit the machine word they are parsed into. */
  predicate Fits(v: Ver) {
    v.major < U64 && v.minor < U64 && v.patch < U64
  }

  function Show(v: Ver): string {
    Decimal(v.major) + "." + Decimal(v.minor) + "." + Decimal(v.patch)
  }

  /** Where the first character of `stops` stands, or the length. */
  function Cut(s: string, stops: string): (n: nat)
    ensures n <= |s|
  {
    if s == [] || s[0] in stops then 0 else 1 + Cut(s[1..], stops)
  }

  /** The first dot-separated segment and, if there is a dot, what follows it. */
  function Segment(s: string): (string, Option<string>) {
    var n := Cut(s, ".");
    (s[..n], if n < |s| then Some(s[n + 1..]) else None)
  }

  /** A segment that may be absent, which counts as "0". */
  function NextSegment(s: Option<string>): (string, Option<string>) {
    if s.Some? then Segment(s.value) else ("0", None)
  }

  /** `Ver::parse`: build and pre-release decoration dropped, missing segments zero. */
  function ParseVer(raw: string): Option<Ver> {
    var core := raw[..Cut(raw, "+-")];
    var (a, rest1) := Segment(core);
    var (b, rest2) := NextSegment(rest1);
    var (c, _) := NextSegment(rest2);
    var major, minor, patch := ParseUnsigned(a, U64), ParseUnsigned(b, U64), ParseUnsigned(c, U64);
    if major.Some? && minor.Some? && patch.Some? then Some(Ver(major.value, minor.value, patch.value)) else None
  }

  /** No character of `s` is a stop. */
  predicate Free(s: string, stops: string) {
    forall i :: 0 <= i < |s| ==> s[i] !in stops
  }

  lemma {:induction false} CutAfter(s: string, rest: string, stops: string)
    requires Free(s, stops) && (rest == [] || rest[0] in stops)
    ensures Cut(s + rest, stops) == |s|
    decreases |s|
  {
    if s == [] {
      assert s + rest == rest;
    } else {
      assert (s + rest)[0] == s[0] && (s + rest)[1..] == s[1..] + rest;
      CutAfter(s[1..], rest, stops);
    }
  }

  lemma {:induction false} DecimalFree(n: nat)
    ensures Free(Decimal(n), ".") && Free(Decimal(n), "+-")
  {
    DecimalRoundTrip(n);
    forall i | 0 <= i < |Decimal(n)| ensures Decimal(n)[i] !in "." && Decimal(n)[i] !in "+-" {
      assert IsDigit(Decimal(n)[i]);
    }
  }

  lemma SegmentOf(s: string, rest: string)
    requires Free(s, ".")
    ensures Segment(s + "." + rest) == (s, Some(rest))
    ensures Segment(s) == (s, None)
  {
    CutAfter(s, "." + rest, ".");
    CutAfter(s, "", ".");
    var all := s + ("." + rest);
    assert all == s + "." + rest && all[..|s|] == s && all[|s| + 1..] == rest;
    assert s + "" == s && s[..|s|] == s;
  }

  lemma ShowFree(v: Ver)
    ensures Free(Show(v), "+-")
  {
    DecimalFree(v.major);
    DecimalFree(v.minor);
    DecimalFree(v.patch);
  }

  /** Parsing the printed form of a version gives it back, whatever decoration follows. */
  lemma VerRoundTrip(v: Ver, decoration: string)
    requires Fits(v) && (decoration == [] || decoration[0] in "+-")
    ensures ParseVer(Show(v) + decoration) == Some(v)
  {
    var raw := Show(v) + decoration;
    ShowFree(v);
    CutAfter(Show(v), decoration, "+-");
    assert raw[..Cut(raw, "+-")] == Show(v);
    var a, b, c := Decimal(v.major), Decimal(v.minor), Decimal(v.patch);
    DecimalFree(v.major);
    DecimalFree(v.minor);
    DecimalFree(v.patch);
    assert Show(v) == a + "." + (b + "." + c);
    SegmentOf(a, b + "." + c);
    SegmentOf(b, c);
    SegmentOf(c, "");
    ParseDecimal(v.major, U64);
    ParseDecimal(v.minor, U64);
    ParseDecimal(v.patch, U64);
  }

  // ---------------------------------------------------------------- lockfiles

  datatype Lockfile = Lockfile(path: string, body: string)

  /** What the scan is given besides the lockfiles; `parse` stands for the parsers chosen by file name. */
  datatype Sources = Sources(
    parse: Lockfile -> map<string, Ver>, registry: map<string, string>, cves: map<string, string>)

  function PathOf(l: Lockfile): string {
    l.path
  }

  predicate Pins(src: Sources, l: Lockfile, name: string) {
    name in src.parse(l)
  }

  /** The pin that counts: of the first lockfile, in path order, that has one. */
  ghost predicate Decides(src: Sources, files: seq<Lockfile>, name: string, i: nat) {
    && i < |files| && Pins(src, files[i], name)
    && forall j :: 0 <= j < |files| && j != i && Pins(src, files[j], name) ==> Before(PathOf, files, i, j)
  }

  /** Some file of the list at this path pins the package. */
  ghost predicate PinnedAt(src: Sources, files: seq<Lockfile>, name: string, path: string) {
    exists l :: l in files && l.path == path && Pins(src, l, name)
  }

  /** Every path pinning the package, each once, in path order. */
  ghost predicate Affected(src: Sources, files: seq<Lockfile>, name: string, paths: seq<string>) {
    StrictlySorted(Same, paths) && forall p :: p in paths <==> PinnedAt(src, files, name, p)
  }

  function Same(p: string): string {
    p
  }

  /** `gap`, as written: the highest component in which `latest` is ahead. */
  function Gap(older: Ver, latest: Ver): Option<BumpTier> {
    if latest.major > older.major then Some(MajorBump)
    else if latest.minor > older.minor then Some(MinorBump)
    else if latest.patch > older.patch then Some(PatchBump)
    else None
  }

  /** Version order. */
  predicate VerLess(a: Ver, b: Ver) {
    || a.major < b.major
    || (a.major == b.major && (a.minor < b.minor || (a.minor == b.minor && a.patch < b.patch)))
  }

  function FirstLag(older: Ver, latest: Ver): BumpTier {
    if older.major != latest.major then MajorBump else if older.minor != latest.minor then MinorBump else PatchBump
  }

  /**
   * "None when `older` already satisfies or exceeds `latest`" is what `gap` does exactly when `latest` is
   * ahead, or behind in no lower component; and a version that is ahead is classed by its first difference.
   */
  lemma GapAsDocumentedExactly(older: Ver, latest: Ver)
    ensures (Gap(older, latest).None? <==> !VerLess(older, latest))
       <==> VerLess(older, latest) || (older.minor >= latest.minor && older.patch >= latest.patch)
    ensures VerLess(older, latest) ==> Gap(older, latest) == Some(FirstLag(older, latest))
  {
  }

  /** A newer major pinned, and yet a minor gap. */
  lemma GapBehindLatest()
    ensures VerLess(Ver(1, 5, 0), Ver(2, 0, 0)) && Gap(Ver(2, 0, 0), Ver(1, 5, 0)) == Some(MinorBump)
  {
  }

  predicate IsUrgent(severity: string) {
    var norm := Map(LowerAscii, Trim(severity));
    norm == "high" || norm == "critical"
  }

  function LatestOf(src: Sources, name: string): Option<Ver> {
    if name in src.registry then ParseVer(src.registry[name]) else None
  }

  function UrgentOf(src: Sources, name: string): Option<string> {
    if name in src.cves && IsUrgent(src.cves[name]) then Some(src.cves[name]) else None
  }

  function TierOf(src: Sources, name: string, pinned: Ver): Option<BumpTier> {
    var latest := LatestOf(src, name);
    if latest.Some? then Gap(pinned, latest.value) else None
  }

  /** The finding for a package pinned at a version in some files, worth reporting or not. */
  function FindingOf(src: Sources, name: string, pinned: Ver, paths: seq<string>): Finding {
    var latest := LatestOf(src, name);
    Finding(name, Show(pinned), if latest.Some? then Some(Show(latest.value)) else None,
      TierOf(src, name, pinned), UrgentOf(src, name), paths)
  }

  predicate Actionable(f: Finding) {
    f.tier.Some? || f.urgentCve.Some?
  }

  /** `f` reports a package of the lockfiles: its deciding pin, its files, and a reason to act. */
  ghost predicate Reports(src: Sources, files: seq<Lockfile>, f: Finding) {
    && Affected(src, files, f.package, f.affectedFiles) && Actionable(f)
    && exists i: nat :: Decides(src, files, f.package, i) && FoundAt(src, files[i], f)
  }

  /** `f` is what the pin in one lockfile gives. */
  predicate FoundAt(src: Sources, l: Lockfile, f: Finding) {
    Pins(src, l, f.package) && f == FindingOf(src, f.package, src.parse(l)[f.package], f.affectedFiles)
  }

  function PackageOf(f: Finding): string {
    f.package
  }

  /** What `scan_locks` must return: exactly the reportable findings, strictly by package. */
  ghost predicate ScanResult(src: Sources, files: seq<Lockfile>, fs: seq<Finding>) {
    StrictlySorted(PackageOf, fs) && forall f :: f in fs <==> Reports(src, files, f)
  }

  // ---------------------------------------------------------------- order of the lockfiles

  /** The same lockfiles, however often and in whatever order. */
  ghost predicate SameFiles(a: seq<Lockfile>, b: seq<Lockfile>) {
    forall l :: l in a <==> l in b
  }

  /** No file before this path pins the package. */
  ghost predicate LeastPin(src: Sources, files: seq<Lockfile>, name: string, path: string) {
    forall l :: l in files && Pins(src, l, name) ==> !StrLess(l.path, path)
  }

  ghost predicate Conflict(src: Sources, files: seq<Lockfile>, l: Lockfile, m: Lockfile, name: string) {
    l.path == m.path && Pins(src, l, name) && Pins(src, m, name) && LeastPin(src, files, name, l.path)
  }

  lemma DeciderIsLeast(src: Sources, files: seq<Lockfile>, name: string, i: nat)
    requires Decides(src, files, name, i)
    ensures LeastPin(src, files, name, files[i].path)
  {
    forall l | l in files && Pins(src, l, name) ensures !StrLess(l.path, files[i].path) {
      var j: nat :| j < |files| && files[j] == l;
      if j != i {
        assert Before(PathOf, files, i, j);
      }
      StrLessTotal(l.path, files[i].path);
    }
  }

  /** What a pinned version leads to, apart from the files: a finding or nothing. */
  function Outcome(src: Sources, name: string, pinned: Ver): Option<Finding> {
    var f := FindingOf(src, name, pinned, []);
    if Actionable(f) then Some(f) else None
  }

  /** Files that share a path and are the first to pin a package lead to the same outcome for it. */
  ghost predicate OutcomesAgree(src: Sources, files: seq<Lockfile>) {
    forall l, m, name :: l in files && m in files && Conflict(src, files, l, m, name) ==>
      Outcome(src, name, src.parse(l)[name]) == Outcome(src, name, src.parse(m)[name])
  }

  /** The deciding pins of two arrangements of the same files have the same outcome. */
  lemma DecidersAgree(src: Sources, a: seq<Lockfile>, b: seq<Lockfile>, name: string, i: nat, j: nat)
    requires SameFiles(a, b) && OutcomesAgree(src, a)
    requires Decides(src, a, name, i) && Decides(src, b, name, j)
    ensures Outcome(src, name, src.parse(a[i])[name]) == Outcome(src, name, src.parse(b[j])[name])
  {
    assert a[i] in b && b[j] in a;
    DeciderIsLeast(src, a, name, i);
    DeciderIsLeast(src, b, name, j);
    StrLessTotal(a[i].path, b[j].path);
    assert Conflict(src, a, a[i], b[j], name);
  }

  lemma AffectedAgree(src: Sources, a: seq<Lockfile>, b: seq<Lockfile>, name: string, paths: seq<string>)
    requires SameFiles(a, b) && Affected(src, a, name, paths)
    ensures Affected(src, b, name, paths)
  {
    forall p ensures PinnedAt(src, a, name, p) <==> PinnedAt(src, b, name, p) {
    }
  }

  /** Among pinning files some one decides. */
  lemma {:induction false} SomeDecides(src: Sources, files: seq<Lockfile>, name: string, j: nat, n: nat) returns (i: nat)
    requires j < |files| && Pins(src, files[j], name) && n <= |files|
    ensures i < |files| && Pins(src, files[i], name)
    ensures forall k :: 0 <= k < n && k != i && Pins(src, files[k], name) ==> Before(PathOf, files, i, k)
    decreases n
  {
    i := j;
    if n > 0 {
      i := SomeDecides(src, files, name, j, n - 1);
      var m := n - 1;
      if m != i && Pins(src, files[m], name) {
        BeforeTotal(PathOf, files, i, m);
        if Before(PathOf, files, m, i) {
          var was := i;
          i := m;
          forall k | 0 <= k < n && k != i && Pins(src, files[k], name) ensures Before(PathOf, files, i, k) {
            if k != was {
              BeforeTransitive(PathOf, files, m, was, k);
            }
          }
        }
      }
    }
  }

  /** A finding is its outcome with the files filled in. */
  lemma FoundMeansOutcome(src: Sources, l: Lockfile, f: Finding)
    requires Pins(src, l, f.package) && Actionable(f)
    ensures FoundAt(src, l, f) <==> Outcome(src, f.package, src.parse(l)[f.package]) == Some(f.(affectedFiles := []))
  {
  }

  lemma ReportsAgree(src: Sources, a: seq<Lockfile>, b: seq<Lockfile>, f: Finding)
    requires SameFiles(a, b) && OutcomesAgree(src, a) && Reports(src, a, f)
    ensures Reports(src, b, f)
  {
    var i: nat :| Decides(src, a, f.package, i) && FoundAt(src, a[i], f);
    var j := DeciderOf(src, a, b, f.package, i);
    FoundMeansOutcome(src, a[i], f);
    FoundMeansOutcome(src, b[j], f);
    AffectedAgree(src, a, b, f.package, f.affectedFiles);
  }

  /** The other arrangement has its deciding file, and it leads to the same outcome. */
  lemma DeciderOf(src: Sources, a: seq<Lockfile>, b: seq<Lockfile>, name: string, i: nat) returns (j: nat)
    requires SameFiles(a, b) && OutcomesAgree(src, a) && Decides(src, a, name, i)
    ensures Decides(src, b, name, j)
    ensures Outcome(src, name, src.parse(a[i])[name]) == Outcome(src, name, src.parse(b[j])[name])
  {
    assert a[i] in b;
    var k :| 0 <= k < |b| && b[k] == a[i];
    j := SomeDecides(src, b, name, k, |b|);
    DecidersAgree(src, a, b, name, i, j);
  }

  lemma OutcomesAgreeToo(src: Sources, a: seq<Lockfile>, b: seq<Lockfile>)
    requires SameFiles(a, b) && OutcomesAgree(src, a)
    ensures OutcomesAgree(src, b)
  {
    forall l, m, name | l in b && m in b && Conflict(src, b, l, m, name)
      ensures Outcome(src, name, src.parse(l)[name]) == Outcome(src, name, src.parse(m)[name])
    {
      assert Conflict(src, a, l, m, name);
    }
  }

  /** Both arrangements report the same. */
  ghost predicate SameFindings(src: Sources, a: seq<Lockfile>, b: seq<Lockfile>) {
    forall f :: Reports(src, a, f) <==> Reports(src, b, f)
  }

  /** Which is to say that the scan returns the same list. */
  lemma SameFindingsSameResult(src: Sources, a: seq<Lockfile>, b: seq<Lockfile>, fa: seq<Finding>, fb: seq<Finding>)
    requires ScanResult(src, a, fa) && ScanResult(src, b, fb)
    ensures fa == fb <==> SameFindings(src, a, b)
  {
    if SameFindings(src, a, b) {
      forall f ensures f in fa <==> f in fb {
        assert Reports(src, a, f) <==> Reports(src, b, f);
      }
      StrictlySortedUnique(PackageOf, fa, fb);
    }
  }

  lemma AgreeingFindings(src: Sources, a: seq<Lockfile>, b: seq<Lockfile>)
    requires SameFiles(a, b) && OutcomesAgree(src, a)
    ensures SameFindings(src, a, b)
  {
    OutcomesAgreeToo(src, a, b);
    forall f ensures Reports(src, a, f) <==> Reports(src, b, f) {
      if Reports(src, a, f) {
        ReportsAgree(src, a, b, f);
      }
      if Reports(src, b, f) {
        ReportsAgree(src, b, a, f);
      }
    }
  }

  /** The scan does not depend on the order in which the lockfiles are handed in. */
  lemma ScanIgnoresOrder(src: Sources, a: seq<Lockfile>, b: seq<Lockfile>, fa: seq<Finding>, fb: seq<Finding>)
    requires SameFiles(a, b) && OutcomesAgree(src, a) && ScanResult(src, a, fa) && ScanResult(src, b, fb)
    ensures fa == fb
  {
    AgreeingFindings(src, a, b);
    SameFindingsSameResult(src, a, b, fa, fb);
  }

  /** Distinct paths meet the condition. */
  lemma DistinctPathsAgree(src: Sources, files: seq<Lockfile>)
    requires forall i, j :: 0 <= i < j < |files| ==> files[i].path != files[j].path
    ensures OutcomesAgree(src, files)
  {
  }

  ghost predicate Reordered(a: seq<Lockfile>, b: seq<Lockfile>) {
    multiset(a) == multiset(b)
  }

  lemma ReorderedSame(a: seq<Lockfile>, b: seq<Lockfile>)
    requires Reordered(a, b)
    ensures SameFiles(a, b)
  {
    forall l ensures l in a <==> l in b {
      assert l in a <==> l in multiset(a);
      assert l in b <==> l in multiset(b);
    }
  }

  function Swapped(files: seq<Lockfile>, i: nat, j: nat): seq<Lockfile>
    requires i < j < |files|
  {
    files[i := files[j]][j := files[i]]
  }

  /** Behind the deciding file, another at its path takes over once the two change places. */
  lemma SwapDecides(src: Sources, files: seq<Lockfile>, name: string, d: nat, x: nat)
    requires Decides(src, files, name, d) && x < |files| && x != d
    requires Pins(src, files[x], name) && files[x].path == files[d].path
    ensures d < x && Decides(src, Swapped(files, d, x), name, d)
  {
    assert Before(PathOf, files, d, x);
    StrLessTotal(files[d].path, files[x].path);
    var b := Swapped(files, d, x);
    forall k | 0 <= k < |b| && k != d && Pins(src, b[k], name) ensures Before(PathOf, b, d, k) {
      if k != x {
        assert Before(PathOf, files, d, k);
      }
    }
  }

  lemma {:induction false} LeastOf(keys: set<string>) returns (k: string)
    requires keys != {}
    ensures k in keys && forall x :: x in keys ==> x == k || StrLess(k, x)
    decreases keys
  {
    k :| k in keys;
    var rest := keys - {k};
    assert keys == rest + {k};
    if rest != {} {
      var other := LeastOf(rest);
      StrLessTotal(k, other);
      forall x | x in rest && StrLess(k, other) ensures StrLess(k, x) {
        if x != other {
          StrLessTransitive(k, other, x);
        }
      }
      k := if StrLess(k, other) then k else other;
    }
  }

  /** Any set of strings can be listed in order. */
  lemma {:induction false} Listed(keys: set<string>) returns (r: seq<string>)
    ensures StrictlySorted(Same, r) && forall k :: k in r <==> k in keys
    decreases keys
  {
    r := [];
    if keys != {} {
      var k := LeastOf(keys);
      var rest := Listed(keys - {k});
      r := [k] + rest;
      forall a, b | 0 <= a < b < |r| ensures StrLess(Same(r[a]), Same(r[b])) {
        if a == 0 {
          assert rest[b - 1] in rest;
        } else {
          assert StrLess(Same(rest[a - 1]), Same(rest[b - 1]));
        }
      }
    }
  }

  /** A deciding pin with an outcome is reported. */
  lemma OutcomeReported(src: Sources, files: seq<Lockfile>, name: string, d: nat) returns (f: Finding)
    requires Decides(src, files, name, d) && Outcome(src, name, src.parse(files[d])[name]).Some?
    ensures Reports(src, files, f) && f.package == name && FoundAt(src, files[d], f)
  {
    var paths := Listed(set l | l in files && Pins(src, l, name) :: l.path);
    forall p ensures p in paths <==> PinnedAt(src, files, name, p) {
    }
    f := Outcome(src, name, src.parse(files[d])[name]).value.(affectedFiles := paths);
    FoundMeansOutcome(src, files[d], f);
  }

  /** Deciding pins that differ in outcome show in the findings. */
  lemma OutcomeShows(src: Sources, a: seq<Lockfile>, b: seq<Lockfile>, name: string, d: nat, e: nat)
    requires Decides(src, a, name, d) && Decides(src, b, name, e)
    requires Outcome(src, name, src.parse(a[d])[name]).Some?
    requires Outcome(src, name, src.parse(a[d])[name]) != Outcome(src, name, src.parse(b[e])[name])
    ensures !SameFindings(src, a, b)
  {
    var f := OutcomeReported(src, a, name, d);
    if Reports(src, b, f) {
      var j: nat :| Decides(src, b, f.package, j) && FoundAt(src, b[j], f);
      OneDecider(src, b, name, j, e);
      FoundMeansOutcome(src, a[d], f);
      FoundMeansOutcome(src, b[e], f);
    }
  }

  /** A file at the deciding path with another outcome shows, once it changes places with the deciding one. */
  lemma TakeOver(src: Sources, files: seq<Lockfile>, name: string, d: nat, x: nat) returns (b: seq<Lockfile>)
    requires Decides(src, files, name, d) && x < |files|
    requires Pins(src, files[x], name) && files[x].path == files[d].path
    requires Outcome(src, name, src.parse(files[d])[name]) != Outcome(src, name, src.parse(files[x])[name])
    ensures Reordered(files, b) && !SameFindings(src, files, b)
  {
    SwapDecides(src, files, name, d, x);
    b := Swapped(files, d, x);
    if Outcome(src, name, src.parse(files[d])[name]).Some? {
      OutcomeShows(src, files, b, name, d, d);
    } else {
      OutcomeShows(src, b, files, name, d, d);
    }
  }

  /** Two files at odds over a package both first pin: some reordering changes the findings. */
  lemma ConflictShows(src: Sources, files: seq<Lockfile>, l: Lockfile, m: Lockfile, name: string) returns (b: seq<Lockfile>)
    requires l in files && m in files && Conflict(src, files, l, m, name)
    requires Outcome(src, name, src.parse(l)[name]) != Outcome(src, name, src.parse(m)[name])
    ensures Reordered(files, b) && !SameFindings(src, files, b)
  {
    var i: nat :| i < |files| && files[i] == l;
    var j: nat :| j < |files| && files[j] == m;
    var d := SomeDecides(src, files, name, i, |files|);
    DeciderIsLeast(src, files, name, d);
    assert files[d] in files;
    StrLessTotal(files[d].path, l.path);
    var had := Outcome(src, name, src.parse(files[d])[name]);
    var x := if had == Outcome(src, name, src.parse(l)[name]) then j else i;
    b := TakeOver(src, files, name, d, x);
  }

  /**
   * Every reordering of the lockfiles gives the same findings exactly when files that share a path and are the
   * first to pin a package agree on its outcome.
   */
  lemma OrderIrrelevantExactly(src: Sources, files: seq<Lockfile>)
    ensures (forall b :: Reordered(files, b) ==> SameFindings(src, files, b)) <==> OutcomesAgree(src, files)
  {
    if OutcomesAgree(src, files) {
      forall b | Reordered(files, b) ensures SameFindings(src, files, b) {
        ReorderedSame(files, b);
        AgreeingFindings(src, files, b);
      }
    } else {
      var l, m, name :| l in files && m in files && Conflict(src, files, l, m, name)
        && Outcome(src, name, src.parse(l)[name]) != Outcome(src, name, src.parse(m)[name]);
      var b := ConflictShows(src, files, l, m, name);
    }
  }

  // ---------------------------------------------------------------- witnesses

  const OLD_PIN: Lockfile := Lockfile("a/Cargo.lock", "old")
  const NEW_PIN: Lockfile := Lockfile("b/Cargo.lock", "new")
  const SAME_PATH: Lockfile := Lockfile("a/Cargo.lock", "new")

  /** One package, pinned at 1.0.0 in a body "old" and at 2.0.0 otherwise, with an urgent CVE. */
  function Sample(): Sources {
    Sources((l: Lockfile) => map["p" := if l.body == "old" then Ver(1, 0, 0) else Ver(2, 0, 0)], map[], map["p" := "high"])
  }

  lemma SampleOutcomes()
    ensures var src := Sample();
      && Outcome(src, "p", Ver(1, 0, 0)) == Some(FindingOf(src, "p", Ver(1, 0, 0), []))
      && Outcome(src, "p", Ver(2, 0, 0)) == Some(FindingOf(src, "p", Ver(2, 0, 0), []))
      && Show(Ver(1, 0, 0)) != Show(Ver(2, 0, 0))
  {
    var high := "high";
    assert Trim(high) == high by {
      assert !IsWhitespace(high[0]) && !IsWhitespace(high[3]);
    }
    assert forall i :: 0 <= i < |high| ==> LowerAscii(high[i]) == high[i];
    assert Map(LowerAscii, high) == high;
    VerRoundTrip(Ver(1, 0, 0), "");
    VerRoundTrip(Ver(2, 0, 0), "");
    assert Show(Ver(1, 0, 0)) + "" == Show(Ver(1, 0, 0)) && Show(Ver(2, 0, 0)) + "" == Show(Ver(2, 0, 0));
  }

  /** Two bodies under one path: the order of the caller shows in the findings. */
  lemma RepeatedPathMatters()
    ensures Reordered([OLD_PIN, SAME_PATH], [SAME_PATH, OLD_PIN])
    ensures !SameFindings(Sample(), [OLD_PIN, SAME_PATH], [SAME_PATH, OLD_PIN])
  {
    var src, a, b := Sample(), [OLD_PIN, SAME_PATH], [SAME_PATH, OLD_PIN];
    assert a == [OLD_PIN] + [SAME_PATH] && b == [SAME_PATH] + [OLD_PIN];
    SampleOutcomes();
    assert Decides(src, a, "p", 0) && Decides(src, b, "p", 0);
    OutcomeShows(src, a, b, "p", 0, 0);
  }

  // ---------------------------------------------------------------- the files of a finding

  /** Some file of the list at this path pins the package at the version shown. */
  ghost predicate PinnedAtVersion(src: Sources, files: seq<Lockfile>, name: string, path: string, shown: string) {
    exists l :: l in files && l.path == path && Pins(src, l, name) && Show(src.parse(l)[name]) == shown
  }

  /**
   * A finding's files are, as documented, those pinning the package at its current version exactly when every
   * path pinning it at all also pins it at that version.
   */
  lemma FilesAtCurrentExactly(src: Sources, files: seq<Lockfile>, f: Finding)
    requires Reports(src, files, f)
    ensures (forall p :: p in f.affectedFiles <==> PinnedAtVersion(src, files, f.package, p, f.currentVersion))
       <==> (forall l :: l in files && Pins(src, l, f.package) ==> PinnedAtVersion(src, files, f.package, l.path, f.currentVersion))
  {
    forall p ensures PinnedAtVersion(src, files, f.package, p, f.currentVersion) ==> p in f.affectedFiles {
      assert p in f.affectedFiles <==> PinnedAt(src, files, f.package, p);
    }
    forall l | l in files && Pins(src, l, f.package) ensures l.path in f.affectedFiles {
      assert PinnedAt(src, files, f.package, l.path);
    }
  }

  /** Two lockfiles pinning a package at different versions: the finding names both files. */
  lemma OtherVersionListed() returns (f: Finding)
    ensures Reports(Sample(), [OLD_PIN, NEW_PIN], f) && f.currentVersion == Show(Ver(1, 0, 0))
    ensures NEW_PIN.path in f.affectedFiles
    ensures !PinnedAtVersion(Sample(), [OLD_PIN, NEW_PIN], "p", NEW_PIN.path, f.currentVersion)
  {
    var src, files := Sample(), [OLD_PIN, NEW_PIN];
    SampleOutcomes();
    assert StrLess(OLD_PIN.path, NEW_PIN.path);
    assert Decides(src, files, "p", 0);
    f := OutcomeReported(src, files, "p", 0);
    assert files[1] in files && PinnedAt(src, files, "p", NEW_PIN.path);
    assert OLD_PIN.path[0] != NEW_PIN.path[0];
  }

  // ---------------------------------------------------------------- the scan itself

  /** What `by_name` holds for one package: the version taken and the files noted. */
  datatype Entry = Entry(ver: Ver, paths: seq<string>)

  function EntryAt(agg: map<string, Entry>, name: string): Option<Entry> {
    if name in agg then Some(agg[name]) else None
  }

  /** One more pin: the first version stays, a path is noted once. */
  function Absorb(e: Option<Entry>, ver: Ver, path: string): Entry {
    match e
    case None => Entry(ver, [path])
    case Some(had) => if path in had.paths then had else Entry(had.ver, had.paths + [path])
  }

  /** The entry of a package after some lockfiles, taken in turn. */
  function EntryAfter(src: Sources, files: seq<Lockfile>, name: string): Option<Entry> {
    if files == [] then None
    else
      var last := files[|files| - 1];
      var e := EntryAfter(src, files[..|files| - 1], name);
      if Pins(src, last, name) then Some(Absorb(e, src.parse(last)[name], last.path)) else e
  }

  ghost predicate PathSorted(files: seq<Lockfile>) {
    forall a, b :: 0 <= a < b < |files| ==> !StrLess(files[b].path, files[a].path)
  }

  /** The first of the files pinning the package. */
  ghost predicate FirstPin(src: Sources, files: seq<Lockfile>, name: string, a: nat) {
    a < |files| && Pins(src, files[a], name) && forall b :: 0 <= b < a ==> !Pins(src, files[b], name)
  }

  /** An entry exactly when some file pins the package; then the first pin and all the paths. */
  ghost predicate EntryRight(src: Sources, files: seq<Lockfile>, name: string, e: Option<Entry>) {
    match e
    case None => forall l :: l in files ==> !Pins(src, l, name)
    case Some(had) =>
      && Affected(src, files, name, had.paths)
      && exists a: nat :: FirstPin(src, files, name, a) && had.ver == src.parse(files[a])[name]
  }

  lemma {:induction false} EntryIsRight(src: Sources, files: seq<Lockfile>, name: string)
    requires PathSorted(files)
    ensures EntryRight(src, files, name, EntryAfter(src, files, name))
    decreases |files|
  {
    if files != [] {
      var init, last := files[..|files| - 1], files[|files| - 1];
      assert files == init + [last];
      EntryIsRight(src, init, name);
      var e := EntryAfter(src, init, name);
      FirstPinKept(src, init, last, name, e);
      if Pins(src, last, name) {
        PathsAbsorbed(src, init, last, name, e);
      } else if e.Some? {
        forall p ensures PinnedAt(src, files, name, p) <==> PinnedAt(src, init, name, p) {
        }
      }
    }
  }

  lemma FirstPinKept(src: Sources, init: seq<Lockfile>, last: Lockfile, name: string, e: Option<Entry>)
    requires EntryRight(src, init, name, e)
    ensures e.Some? ==> exists a: nat ::
      FirstPin(src, init + [last], name, a) && e.value.ver == src.parse((init + [last])[a])[name]
    ensures e.None? && Pins(src, last, name) ==> FirstPin(src, init + [last], name, |init|)
  {
    if e.Some? {
      var a: nat :| FirstPin(src, init, name, a) && e.value.ver == src.parse(init[a])[name];
      assert FirstPin(src, init + [last], name, a) && (init + [last])[a] == init[a];
    } else {
      assert forall b :: 0 <= b < |init| ==> init[b] in init && (init + [last])[b] == init[b];
    }
  }

  lemma PathsAbsorbed(src: Sources, init: seq<Lockfile>, last: Lockfile, name: string, e: Option<Entry>)
    requires PathSorted(init + [last]) && EntryRight(src, init, name, e) && Pins(src, last, name)
    ensures Affected(src, init + [last], name, Absorb(e, src.parse(last)[name], last.path).paths)
  {
    var files := init + [last];
    forall p ensures PinnedAt(src, files, name, p) <==> PinnedAt(src, init, name, p) || p == last.path {
      assert forall l :: l in files <==> l in init || l == last;
    }
    if e.Some? {
      var paths := e.value.paths;
      forall a | 0 <= a < |paths| && last.path !in paths ensures StrLess(paths[a], last.path) {
        assert paths[a] in paths;
        PathNotAfter(src, init, last, name, paths[a]);
        StrLessTotal(paths[a], last.path);
      }
    }
  }

  lemma {:induction false} PathNotAfter(src: Sources, init: seq<Lockfile>, last: Lockfile, name: string, p: string)
    requires PathSorted(init + [last]) && PinnedAt(src, init, name, p)
    ensures !StrLess(last.path, p)
  {
    var l :| l in init && l.path == p && Pins(src, l, name);
    var k :| 0 <= k < |init| && init[k] == l;
    assert (init + [last])[k] == l && (init + [last])[|init|] == last;
  }

  /** `r` lists every position of `files` in path order. */
  ghost predicate PathOrder(files: seq<Lockfile>, r: seq<nat>) {
    InRange(files, r) && SortedBy(PathOf, files, r) && forall i: nat :: i in r <==> i < |files|
  }

  function Picked<T>(s: seq<T>, r: seq<nat>): (q: seq<T>)
    requires InRange(s, r)
    ensures |q| == |r| && forall a :: 0 <= a < |r| ==> q[a] == s[r[a]]
  {
    seq(|r|, a requires 0 <= a < |r| => s[r[a]])
  }

  function Positions(n: nat): (g: seq<nat>)
    ensures |g| == n && forall i :: 0 <= i < n ==> g[i] == i
    ensures forall i: nat :: i in g <==> i < n
  {
    if n == 0 then [] else Positions(n - 1) + [n - 1]
  }

  lemma OrderedFiles(files: seq<Lockfile>, r: seq<nat>)
    requires PathOrder(files, r)
    ensures PathSorted(Picked(files, r)) && SameFiles(files, Picked(files, r))
  {
    var q := Picked(files, r);
    forall a, b | 0 <= a < b < |q| ensures !StrLess(q[b].path, q[a].path) {
      assert Before(PathOf, files, r[a], r[b]);
      StrLessTotal(q[a].path, q[b].path);
    }
    forall l ensures l in files <==> l in q {
      if l in files {
        var k: nat :| 0 <= k < |files| && files[k] == l;
        assert k in r;
        var a :| 0 <= a < |r| && r[a] == k;
        assert q[a] == l;
      }
    }
  }

  lemma FirstPinDecides(src: Sources, files: seq<Lockfile>, r: seq<nat>, name: string, a: nat)
    requires PathOrder(files, r) && FirstPin(src, Picked(files, r), name, a)
    ensures Decides(src, files, name, r[a])
  {
    forall j: nat | j < |files| && j != r[a] && Pins(src, files[j], name) ensures Before(PathOf, files, r[a], j) {
      assert j in r;
      var b :| 0 <= b < |r| && r[b] == j;
      assert Picked(files, r)[b] == files[j];
    }
  }

  /** The aggregate of a list of lockfiles, package by package. */
  ghost predicate Aggregated(src: Sources, files: seq<Lockfile>, agg: map<string, Entry>) {
    forall name :: AggregatedFor(src, files, agg, name)
  }

  ghost predicate AggregatedFor(src: Sources, files: seq<Lockfile>, agg: map<string, Entry>, name: string) {
    && (name in agg <==> exists l :: l in files && Pins(src, l, name))
    && (name in agg ==> Affected(src, files, name, agg[name].paths))
    && (name in agg ==> exists i: nat :: Decides(src, files, name, i) && agg[name].ver == src.parse(files[i])[name])
  }

  lemma {:induction false} EntryAggregates(src: Sources, files: seq<Lockfile>, r: seq<nat>, agg: map<string, Entry>, name: string)
    requires PathOrder(files, r) && EntryAt(agg, name) == EntryAfter(src, Picked(files, r), name)
    ensures AggregatedFor(src, files, agg, name)
  {
    var q := Picked(files, r);
    OrderedFiles(files, r);
    EntryIsRight(src, q, name);
    if name in agg {
      var a: nat :| FirstPin(src, q, name, a) && agg[name].ver == src.parse(q[a])[name];
      FirstPinDecides(src, files, r, name, a);
      assert files[r[a]] in files;
      AffectedAgree(src, q, files, name, agg[name].paths);
    }
  }

  method Least(keys: set<string>) returns (k: string)
    requires keys != {}
    ensures k in keys && forall x :: x in keys ==> x == k || StrLess(k, x)
  {
    k :| k in keys;
    var rest := keys - {k};
    while rest != {}
      invariant rest <= keys && k in keys
      invariant forall x :: x in keys && x !in rest ==> x == k || StrLess(k, x)
      decreases |rest|
    {
      var y :| y in rest;
      StrLessTotal(k, y);
      if StrLess(y, k) {
        forall x | x in keys && x !in rest && x != k ensures StrLess(y, x) {
          StrLessTransitive(y, k, x);
        }
        k := y;
      }
      rest := rest - {y};
    }
  }

  /** The order in which a `BTreeMap` is walked. */
  method SortedKeys(keys: set<string>) returns (r: seq<string>)
    ensures StrictlySorted(Same, r) && forall k :: k in r <==> k in keys
  {
    r := [];
    var rest := keys;
    while rest != {}
      invariant rest <= keys && forall k :: k in r <==> k in keys && k !in rest
      invariant StrictlySorted(Same, r)
      invariant forall a, x :: 0 <= a < |r| && x in rest ==> StrLess(r[a], x)
      decreases |rest|
    {
      var k := Least(rest);
      r := r + [k];
      rest := rest - {k};
    }
  }

  /** The entry of a package once the pins of `done` in one lockfile are taken in. */
  ghost function Taken(src: Sources, agg: map<string, Entry>, l: Lockfile, done: set<string>, name: string): Option<Entry>
    requires done <= src.parse(l).Keys
  {
    if name in done then Some(Absorb(EntryAt(agg, name), src.parse(l)[name], l.path)) else EntryAt(agg, name)
  }

  /** The pins of one lockfile taken into `by_name`. */
  method AbsorbFile(src: Sources, agg: map<string, Entry>, l: Lockfile) returns (next: map<string, Entry>)
    ensures forall name :: EntryAt(next, name) == Taken(src, agg, l, src.parse(l).Keys, name)
  {
    var parsed := src.parse(l);
    var names := SortedKeys(parsed.Keys);
    next := agg;
    ghost var done: set<string> := {};
    for n := 0 to |names|
      invariant done <= parsed.Keys && forall x :: x in done <==> x in names[..n]
      invariant forall x :: EntryAt(next, x) == Taken(src, agg, l, done, x)
    {
      var name := names[n];
      StrictlySortedDistinct(names, n);
      ghost var was, had := next, done;
      next := next[name := Absorb(EntryAt(next, name), parsed[name], l.path)];
      done := done + {name};
      forall x ensures EntryAt(next, x) == Taken(src, agg, l, done, x) {
        assert EntryAt(was, x) == Taken(src, agg, l, had, x);
      }
      assert names[..n + 1] == names[..n] + [name];
    }
    assert names[..|names|] == names && done == parsed.Keys;
  }

  lemma StrictlySortedDistinct(names: seq<string>, n: nat)
    requires StrictlySorted(Same, names) && n < |names|
    ensures names[n] !in names[..n]
  {
    forall a | 0 <= a < n ensures names[a] != names[n] {
      StrLessTotal(Same(names[a]), Same(names[n]));
    }
  }

  /** `aggregate_locks`: files in path order, the first pin decides, every pinning path noted once. */
  method AggregateLocks(src: Sources, files: seq<Lockfile>) returns (agg: map<string, Entry>)
    ensures Aggregated(src, files, agg)
  {
    var r := StableSort(PathOf, files, Positions(|files|));
    var ordered := Picked(files, r);
    agg := map[];
    for n := 0 to |ordered|
      invariant forall name :: EntryAt(agg, name) == EntryAfter(src, ordered[..n], name)
    {
      assert ordered[..n + 1][..n] == ordered[..n];
      agg := AbsorbFile(src, agg, ordered[n]);
    }
    assert ordered[..|ordered|] == ordered;
    forall name ensures AggregatedFor(src, files, agg, name) {
      EntryAggregates(src, files, r, agg, name);
    }
  }

  lemma ReportsAre(src: Sources, files: seq<Lockfile>, agg: map<string, Entry>, f: Finding)
    requires AggregatedFor(src, files, agg, f.package)
    ensures Reports(src, files, f) <==>
      f.package in agg && f == FindingOf(src, f.package, agg[f.package].ver, agg[f.package].paths) && Actionable(f)
  {
    var name := f.package;
    if name in agg {
      var i: nat :| Decides(src, files, name, i) && agg[name].ver == src.parse(files[i])[name];
      if Reports(src, files, f) {
        var j: nat :| Decides(src, files, name, j) && FoundAt(src, files[j], f);
        OneDecider(src, files, name, i, j);
        StrictlySortedUnique(Same, f.affectedFiles, agg[name].paths);
      }
    } else if Reports(src, files, f) {
      NoReportUnpinned(src, files, f);
    }
  }

  lemma NoReportUnpinned(src: Sources, files: seq<Lockfile>, f: Finding)
    requires Reports(src, files, f)
    ensures exists l :: l in files && Pins(src, l, f.package)
  {
    var j: nat :| Decides(src, files, f.package, j) && FoundAt(src, files[j], f);
    assert files[j] in files;
  }

  lemma OneDecider(src: Sources, files: seq<Lockfile>, name: string, i: nat, j: nat)
    requires Decides(src, files, name, i) && Decides(src, files, name, j)
    ensures i == j
  {
    if i != j {
      BeforeTotal(PathOf, files, i, j);
    }
  }

  /** The finding `scan_locks` builds from one entry. */
  function Candidate(src: Sources, agg: map<string, Entry>, name: string): Finding
    requires name in agg
  {
    FindingOf(src, name, agg[name].ver, agg[name].paths)
  }

  /** Exactly the actionable candidates among some packages. */
  ghost predicate Collected(src: Sources, agg: map<string, Entry>, names: seq<string>, fs: seq<Finding>)
    requires forall x :: x in names ==> x in agg
  {
    forall f :: f in fs <==> f.package in names && f == Candidate(src, agg, f.package) && Actionable(f)
  }

  lemma CollectedPackages(src: Sources, agg: map<string, Entry>, names: seq<string>, n: nat, fs: seq<Finding>)
    requires StrictlySorted(Same, names) && n < |names| && forall x :: x in names ==> x in agg
    requires Collected(src, agg, names[..n], fs)
    ensures forall k :: 0 <= k < |fs| ==> StrLess(fs[k].package, names[n])
  {
  }

  method Collect(src: Sources, agg: map<string, Entry>, names: seq<string>) returns (fs: seq<Finding>)
    requires StrictlySorted(Same, names) && forall x :: x in names ==> x in agg
    ensures Collected(src, agg, names, fs) && StrictlySorted(PackageOf, fs)
  {
    fs := [];
    for n := 0 to |names|
      invariant Collected(src, agg, names[..n], fs) && StrictlySorted(PackageOf, fs)
    {
      var f := Candidate(src, agg, names[n]);
      CollectedPackages(src, agg, names, n, fs);
      assert forall x :: x in names[..n + 1] <==> x in names[..n] || x == names[n];
      if Actionable(f) {
        fs := fs + [f];
      }
    }
    assert names[..|names|] == names;
  }

  /** The closing sort, which finds its input in order. */
  method SortFindings(fs: seq<Finding>) returns (sorted: seq<Finding>)
    requires StrictlySorted(PackageOf, fs)
    ensures sorted == fs
  {
    var r := StableSort(PackageOf, fs, Positions(|fs|));
    sorted := Picked(fs, r);
    SortedStays(fs, r);
  }

  lemma SortedStays(fs: seq<Finding>, r: seq<nat>)
    requires StrictlySorted(PackageOf, fs) && InRange(fs, r) && SortedBy(PackageOf, fs, r)
    requires forall i: nat :: i in r <==> i < |fs|
    ensures Picked(fs, r) == fs
  {
    var q := Picked(fs, r);
    forall f ensures f in q <==> f in fs {
      if f in fs {
        var k: nat :| 0 <= k < |fs| && fs[k] == f;
        assert k in r;
        var a :| 0 <= a < |r| && r[a] == k;
        assert q[a] == f;
      }
    }
    forall a, b | 0 <= a < b < |q| ensures StrLess(PackageOf(q[a]), PackageOf(q[b])) {
      assert Before(PackageOf, fs, r[a], r[b]);
    }
    StrictlySortedUnique(PackageOf, q, fs);
  }

  /** `scan_locks`: exactly one finding per package with an upgrade gap or an urgent CVE, by package. */
  method ScanLocks(src: Sources, files: seq<Lockfile>) returns (findings: seq<Finding>)
    ensures ScanResult(src, files, findings)
  {
    var agg := AggregateLocks(src, files);
    var names := SortedKeys(agg.Keys);
    findings := Collect(src, agg, names);
    findings := SortFindings(findings);
    forall f ensures f in findings <==> Reports(src, files, f) {
      assert AggregatedFor(src, files, agg, f.package);
      ReportsAre(src, files, agg, f);
    }
  }
}
