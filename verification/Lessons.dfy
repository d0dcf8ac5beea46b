/**
 * Seeding the shipped lesson base into the two capped lesson stores, and what
 * repeated boots converge to.
 */
module Lessons {
  import opened Domain
  import opened Sequences

  const MAX_PROMPT_LESSONS: nat := 12
  const MAX_LESSON_RECORDS: nat := 24
  const SHIPPED_SOURCE := "shipped"
  const SHIPPED_AT := "2026-09-05T00:00:00Z"

  datatype ShippedLesson = ShippedLesson(id: string, text: string)

  /** The two lesson stores and the cycle stamped on new records. */
  datatype Stores = Stores(cycle: nat, lessons: seq<string>, records: seq<LessonRecord>)

  /** A shipped base: ids and texts are each stable identities, and it fits the prompt list. */
  ghost predicate Curated(shipped: seq<ShippedLesson>) {
    && (forall i, j :: 0 <= i < j < |shipped| ==> shipped[i].id != shipped[j].id)
    && (forall i, j :: 0 <= i < j < |shipped| ==> shipped[i].text != shipped[j].text)
    && |shipped| <= MAX_PROMPT_LESSONS
  }

  predicate Known(st: Stores, l: ShippedLesson) {
    || l.text in st.lessons
    || (exists r :: r in st.records && (r.id == Some(l.id) || r.text == l.text))
  }

  function RecordOf(cycle: nat, l: ShippedLesson): LessonRecord {
    LessonRecord(l.text, SHIPPED_AT, cycle, 0, Some(l.id), Some(SHIPPED_SOURCE))
  }

  function Texts(ls: seq<ShippedLesson>): seq<string> {
    seq(|ls|, i requires 0 <= i < |ls| => ls[i].text)
  }

  function Names(ls: seq<ShippedLesson>): seq<string> {
    seq(|ls|, i requires 0 <= i < |ls| => ls[i].id)
  }

  function Records(cycle: nat, ls: seq<ShippedLesson>): seq<LessonRecord> {
    seq(|ls|, i requires 0 <= i < |ls| => RecordOf(cycle, ls[i]))
  }

  /** The shipped lessons a store does not know yet, in shipping order. */
  function Missing(st: Stores, shipped: seq<ShippedLesson>): (r: seq<ShippedLesson>)
    ensures forall l :: l in r <==> l in shipped && !Known(st, l)
    ensures |r| <= |shipped|
  {
    if shipped == [] then []
    else
      var n := |shipped| - 1;
      assert shipped == shipped[..n] + [shipped[n]];
      Missing(st, shipped[..n]) + if Known(st, shipped[n]) then [] else [shipped[n]]
  }

  function Extended(st: Stores, added: seq<ShippedLesson>): Stores {
    Stores(st.cycle, st.lessons + Texts(added), st.records + Records(st.cycle, added))
  }

  function Pushed(st: Stores, l: ShippedLesson): Stores {
    Stores(st.cycle, st.lessons + [l.text], st.records + [RecordOf(st.cycle, l)])
  }

  function Capped(st: Stores): Stores {
    Stores(st.cycle, Last(st.lessons, MAX_PROMPT_LESSONS), Last(st.records, MAX_LESSON_RECORDS))
  }

  /** One pass: the missing lessons appended, each store cut to its newest entries. */
  function Seeded(st: Stores, shipped: seq<ShippedLesson>): Stores {
    Capped(Extended(st, Missing(st, shipped)))
  }

  function View(p: ProjectState): Stores
    reads p
  {
    Stores(p.cycle, p.lessons, p.lessonRecords)
  }

  /** Overflow leaves both stores from the oldest end. */
  method DrainOldest(p: ProjectState)
    modifies p`lessons, p`lessonRecords
    ensures View(p) == Capped(old(View(p)))
  {
    if |p.lessonRecords| > MAX_LESSON_RECORDS {
      p.lessonRecords := p.lessonRecords[|p.lessonRecords| - MAX_LESSON_RECORDS..];
    }
    if |p.lessons| > MAX_PROMPT_LESSONS {
      p.lessons := p.lessons[|p.lessons| - MAX_PROMPT_LESSONS..];
    }
  }

  /** One turn of the loop: an unknown lesson is pushed into both stores. */
  method SeedOne(p: ProjectState, l: ShippedLesson) returns (pushed: bool)
    modifies p`lessons, p`lessonRecords
    ensures pushed <==> !Known(old(View(p)), l)
    ensures View(p) == if pushed then Pushed(old(View(p)), l) else old(View(p))
  {
    pushed := !Known(View(p), l);
    if pushed {
      p.lessonRecords := p.lessonRecords + [RecordOf(p.cycle, l)];
      p.lessons := p.lessons + [l.text];
    }
  }

  /** `seed_lessons`: one loop pushing what is unknown, then both stores drained; the ids newly added. */
  method SeedLessons(p: ProjectState, shipped: seq<ShippedLesson>) returns (seeded: seq<string>)
    requires Curated(shipped)
    modifies p`lessons, p`lessonRecords
    ensures View(p) == Seeded(old(View(p)), shipped)
    ensures seeded == Names(Missing(old(View(p)), shipped))
    ensures var added := Missing(old(View(p)), shipped);
      && p.lessons == Last(old(p.lessons) + Texts(added), MAX_PROMPT_LESSONS)
      && p.lessonRecords == Last(old(p.lessonRecords) + Records(old(p.cycle), added), MAX_LESSON_RECORDS)
  {
    seeded := [];
    ghost var st := View(p);
    for k := 0 to |shipped|
      invariant View(p) == Extended(st, Missing(st, shipped[..k]))
      invariant seeded == Names(Missing(st, shipped[..k]))
    {
      MissingStep(st, shipped, k);
      ExtendedSnoc(st, Missing(st, shipped[..k]), shipped[k]);
      var pushed := SeedOne(p, shipped[k]);
      if pushed {
        seeded := seeded + [shipped[k].id];
      }
    }
    assert shipped[..|shipped|] == shipped;
    DrainOldest(p);
    SeedIsAdditive(st, shipped);
  }

  /** Extending with other lessons never makes a lesson known. */
  lemma KnownExtended(st: Stores, added: seq<ShippedLesson>, l: ShippedLesson)
    ensures Known(Extended(st, added), l) <==>
      Known(st, l) || exists i :: 0 <= i < |added| && (added[i].id == l.id || added[i].text == l.text)
  {
    var ex := Extended(st, added);
    var texts, records := Texts(added), Records(st.cycle, added);
    assert forall t :: t in ex.lessons <==> t in st.lessons || t in texts;
    assert forall r :: r in ex.records <==> r in st.records || r in records;
    if l.text in texts {
      var i :| 0 <= i < |texts| && texts[i] == l.text;
      assert added[i].text == l.text;
    }
    if r :| r in records && (r.id == Some(l.id) || r.text == l.text) {
      var i :| 0 <= i < |records| && records[i] == r;
      assert added[i].id == l.id || added[i].text == l.text;
    }
    if i :| 0 <= i < |added| && (added[i].id == l.id || added[i].text == l.text) {
      assert records[i] in ex.records;
    }
  }

  /** Within a pass a lesson is as unknown as it was before the pass. */
  lemma {:induction false} MissingStep(st: Stores, shipped: seq<ShippedLesson>, k: nat)
    requires Curated(shipped) && k < |shipped|
    ensures var added := Missing(st, shipped[..k]);
      Missing(st, shipped[..k + 1]) == if Known(Extended(st, added), shipped[k]) then added else added + [shipped[k]]
  {
    var l, added := shipped[k], Missing(st, shipped[..k]);
    assert shipped[..k + 1][..k] == shipped[..k];
    KnownExtended(st, added, l);
    forall i | 0 <= i < |added| ensures added[i].id != l.id && added[i].text != l.text {
      assert added[i] in shipped[..k];
    }
  }

  lemma ExtendedSnoc(st: Stores, added: seq<ShippedLesson>, l: ShippedLesson)
    ensures Extended(st, added + [l]) == Pushed(Extended(st, added), l)
    ensures Names(added + [l]) == Names(added) + [l.id]
  {
    assert Texts(added + [l]) == Texts(added) + [l.text];
    assert Records(st.cycle, added + [l]) == Records(st.cycle, added) + [RecordOf(st.cycle, l)];
  }

  // ---------------------------------------------------------------- repeated boots

  /** The stores as boot after boot leaves them, with no other writer in between. */
  ghost predicate BootRun(run: seq<Stores>, shipped: seq<ShippedLesson>) {
    run != [] && forall i :: 0 <= i < |run| - 1 ==> Boot(run, shipped, i)
  }

  ghost predicate Boot(run: seq<Stores>, shipped: seq<ShippedLesson>, i: nat)
    requires i + 1 < |run|
  {
    run[i + 1] == Seeded(run[i], shipped)
  }

  /** Everything the first `n` boots of a run seeded, in order. */
  ghost function Log(run: seq<Stores>, shipped: seq<ShippedLesson>, n: nat): seq<ShippedLesson>
    requires n < |run|
  {
    if n == 0 then [] else Log(run, shipped, n - 1) + Missing(run[n - 1], shipped)
  }

  ghost predicate EndsWith<T>(s: seq<T>, t: seq<T>) {
    |t| <= |s| && s[|s| - |t|..] == t
  }

  lemma CapKeepsNewest<T>(s: seq<T>, t: seq<T>, u: seq<T>, cap: nat)
    requires EndsWith(s, t) && |t| + |u| <= cap
    ensures EndsWith(Last(s + u, cap), t + u)
  {
    var r := Last(s + u, cap);
    assert r[|r| - |t + u|..] == s[|s| - |t|..] + u;
  }

  lemma {:induction false} MissingOnce(st: Stores, shipped: seq<ShippedLesson>)
    requires Curated(shipped)
    ensures NoRepeats(Missing(st, shipped))
  {
    if shipped != [] {
      var n := |shipped| - 1;
      MissingOnce(st, shipped[..n]);
      NoRepeatsConcat(Missing(st, shipped[..n]), [shipped[n]]);
    }
  }

  /** `now` still carries, as its newest entries, everything in `log`. */
  ghost predicate Carries(now: Stores, cycle: nat, shipped: seq<ShippedLesson>, log: seq<ShippedLesson>) {
    && now.cycle == cycle
    && NoRepeats(log) && |log| <= |shipped|
    && (forall l :: l in log ==> l in shipped)
    && EndsWith(now.lessons, Texts(log)) && EndsWith(now.records, Records(cycle, log))
  }

  lemma {:induction false} CarriesOn(before: Stores, cycle: nat, shipped: seq<ShippedLesson>, log: seq<ShippedLesson>)
    requires Curated(shipped) && Carries(before, cycle, shipped, log)
    ensures Carries(Seeded(before, shipped), cycle, shipped, log + Missing(before, shipped))
  {
    var more := Missing(before, shipped);
    MissingOnce(before, shipped);
    NewestAreKnown(before, log);
    NoRepeatsConcat(log, more);
    CoveredIsShorter(log + more, shipped);
    NewestSeeded(before, log, more);
  }

  lemma NewestSeeded(st: Stores, log: seq<ShippedLesson>, more: seq<ShippedLesson>)
    requires |log + more| <= MAX_PROMPT_LESSONS
    requires EndsWith(st.lessons, Texts(log)) && EndsWith(st.records, Records(st.cycle, log))
    ensures var now := Capped(Extended(st, more));
      EndsWith(now.lessons, Texts(log + more)) && EndsWith(now.records, Records(st.cycle, log + more))
  {
    assert Texts(log + more) == Texts(log) + Texts(more);
    assert Records(st.cycle, log + more) == Records(st.cycle, log) + Records(st.cycle, more);
    CapKeepsNewest(st.lessons, Texts(log), Texts(more), MAX_PROMPT_LESSONS);
    CapKeepsNewest(st.records, Records(st.cycle, log), Records(st.cycle, more), MAX_LESSON_RECORDS);
  }

  /** What has been seeded is never evicted by later boots, hence never seeded again. */
  lemma {:induction false} SeededStays(run: seq<Stores>, shipped: seq<ShippedLesson>, n: nat)
    requires Curated(shipped) && BootRun(run, shipped) && n < |run|
    ensures Carries(run[n], run[0].cycle, shipped, Log(run, shipped, n))
    decreases n
  {
    if n > 0 {
      SeededStays(run, shipped, n - 1);
      CarriesOn(run[n - 1], run[0].cycle, shipped, Log(run, shipped, n - 1));
      assert Boot(run, shipped, n - 1);
    }
  }

  lemma NewestAreKnown(now: Stores, log: seq<ShippedLesson>)
    requires EndsWith(now.lessons, Texts(log))
    ensures forall l :: l in log ==> Known(now, l)
  {
    forall l | l in log ensures l.text in now.lessons {
      var i :| 0 <= i < |log| && log[i] == l;
      assert Texts(log)[i] == l.text == now.lessons[|now.lessons| - |log| + i];
    }
  }

  /** Every store is always the newest entries of what it was followed by what was seeded. */
  lemma {:induction false} SeedIsAdditive(st: Stores, shipped: seq<ShippedLesson>)
    ensures var added, now := Missing(st, shipped), Seeded(st, shipped);
      && now.lessons == Last(st.lessons + Texts(added), MAX_PROMPT_LESSONS)
      && now.records == Last(st.records + Records(st.cycle, added), MAX_LESSON_RECORDS)
      && |now.lessons| <= MAX_PROMPT_LESSONS && |now.records| <= MAX_LESSON_RECORDS
  {
  }

  /** A boot that finds nothing missing in capped stores changes nothing, */
  lemma {:induction false} QuietBoot(now: Stores, shipped: seq<ShippedLesson>)
    requires Missing(now, shipped) == []
    requires |now.lessons| <= MAX_PROMPT_LESSONS && |now.records| <= MAX_LESSON_RECORDS
    ensures Seeded(now, shipped) == now
  {
    assert now.lessons + Texts([]) == now.lessons && now.records + Records(now.cycle, []) == now.records;
  }

  lemma BootedIsCapped(run: seq<Stores>, shipped: seq<ShippedLesson>, m: nat)
    requires BootRun(run, shipped) && 1 <= m < |run|
    ensures |run[m].lessons| <= MAX_PROMPT_LESSONS && |run[m].records| <= MAX_LESSON_RECORDS
  {
    assert Boot(run, shipped, m - 1);
    SeedIsAdditive(run[m - 1], shipped);
  }

  lemma {:induction false} BootsQuiet(run: seq<Stores>, shipped: seq<ShippedLesson>, m: nat)
    requires BootRun(run, shipped) && 1 <= m < |run| - 1 && Missing(run[m], shipped) == []
    ensures run[m + 1] == run[m]
  {
    BootedIsCapped(run, shipped, m);
    QuietBoot(run[m], shipped);
    assert Boot(run, shipped, m);
  }

  /** and so on for ever. */
  lemma {:induction false} QuietForever(run: seq<Stores>, shipped: seq<ShippedLesson>, m: nat, n: nat)
    requires BootRun(run, shipped) && 1 <= m <= n < |run| && Missing(run[m], shipped) == []
    ensures run[n] == run[m]
    decreases n
  {
    if n > m {
      QuietForever(run, shipped, m, n - 1);
      BootsQuiet(run, shipped, n - 1);
    }
  }

  lemma {:induction false} NothingMissing(now: Stores, shipped: seq<ShippedLesson>)
    requires forall l :: l in shipped ==> Known(now, l)
    ensures Missing(now, shipped) == []
  {
    HeadIsMember(Missing(now, shipped));
  }

  /** Until the boots fall quiet, each one after the first seeds something. */
  lemma {:induction false} BusyBootsSeed(run: seq<Stores>, shipped: seq<ShippedLesson>, n: nat)
    requires BootRun(run, shipped) && 1 <= n < |run| && Missing(run[n], shipped) != []
    ensures |Log(run, shipped, n)| >= n - 1
    decreases n
  {
    if n >= 2 {
      if Missing(run[n - 1], shipped) == [] {
        BootsQuiet(run, shipped, n - 1);
      } else {
        BusyBootsSeed(run, shipped, n - 1);
      }
    }
  }

  /**
   * With n shipped lessons, from any stores, no lesson is ever seeded twice and the
   * state reached after n + 1 boots is left unchanged by every later one.
   */
  lemma BootsConverge(run: seq<Stores>, shipped: seq<ShippedLesson>, n: nat)
    requires Curated(shipped) && BootRun(run, shipped) && |shipped| + 1 <= n < |run|
    ensures run[n] == run[|shipped| + 1]
    ensures Missing(run[n], shipped) == []
    ensures NoRepeats(Log(run, shipped, n))
  {
    var m := |shipped| + 1;
    var log := Log(run, shipped, m);
    SeededStays(run, shipped, m);
    CoveredIsShorter(log, shipped);
    if |log| == |shipped| {
      NewestAreKnown(run[m], log);
      NothingMissing(run[m], shipped);
    } else if Missing(run[m], shipped) != [] {
      BusyBootsSeed(run, shipped, m);
    }
    QuietForever(run, shipped, m, n);
    SeededStays(run, shipped, n);
  }

  // ---------------------------------------------------------------- the second boot

  /** The old entries that survive a pass seeding `m` lessons. */
  function Survivors(st: Stores, m: nat): Stores
    requires m <= MAX_PROMPT_LESSONS
  {
    Stores(st.cycle, Last(st.lessons, MAX_PROMPT_LESSONS - m), Last(st.records, MAX_LESSON_RECORDS - m))
  }

  /** No known shipped lesson rests only on entries the pass will rotate out. */
  ghost predicate KeepsWitnesses(st: Stores, shipped: seq<ShippedLesson>)
    requires Curated(shipped)
  {
    forall l :: l in shipped && Known(st, l) ==> Known(Survivors(st, |Missing(st, shipped)|), l)
  }

  lemma {:induction false} SeededSplits(st: Stores, shipped: seq<ShippedLesson>)
    requires Curated(shipped)
    ensures Seeded(st, shipped) ==
      Extended(Survivors(st, |Missing(st, shipped)|), Missing(st, shipped))
  {
    var added := Missing(st, shipped);
    var kept := Survivors(st, |added|);
    assert Last(st.lessons + Texts(added), MAX_PROMPT_LESSONS) == kept.lessons + Texts(added);
    assert Last(st.records + Records(st.cycle, added), MAX_LESSON_RECORDS) == kept.records + Records(st.cycle, added);
  }

  /**
   * The documented idempotence, "a second boot seeds nothing", holds exactly when
   * every shipped lesson known beforehand keeps a witness among the survivors.
   */
  lemma {:induction false} SecondBootQuietExactlyWhen(st: Stores, shipped: seq<ShippedLesson>)
    requires Curated(shipped)
    ensures Missing(Seeded(st, shipped), shipped) == [] <==> KeepsWitnesses(st, shipped)
    ensures Seeded(Seeded(st, shipped), shipped) == Seeded(st, shipped) <==> KeepsWitnesses(st, shipped)
  {
    var added, now := Missing(st, shipped), Seeded(st, shipped);
    var kept := Survivors(st, |added|);
    SeededSplits(st, shipped);
    forall l | l in shipped
      ensures Known(now, l) <==> !Known(st, l) || Known(kept, l)
    {
      KnownExtended(kept, added, l);
      if i :| 0 <= i < |added| && (added[i].id == l.id || added[i].text == l.text) {
        assert added[i] in shipped;
        assert added[i] == l && l in added;
      }
      if !Known(st, l) {
        assert l in added;
      }
    }
    var again := Missing(now, shipped);
    if again == [] {
      SeedIsAdditive(st, shipped);
      assert now.lessons + Texts([]) == now.lessons && now.records + Records(now.cycle, []) == now.records;
    } else {
      var l := again[0];
      assert l in again && !Known(now, l);
      SeededSplits(now, shipped);
      KnownExtended(Survivors(now, |again|), again, l);
      assert Known(Seeded(now, shipped), l);
    }
  }

  /** A full prompt list whose oldest entry is the only trace of the shipped lesson `a`. */
  function OldestOnly(a: ShippedLesson, filler: string): Stores {
    Stores(0, [a.text] + seq(MAX_PROMPT_LESSONS - 1, i => filler), [])
  }

  /** There the second boot does seed: the first one, adding `b`, has rotated `a` out. */
  lemma SecondBootCanSeed(a: ShippedLesson, b: ShippedLesson, filler: string)
    requires a.id != b.id && a.text != b.text && filler != a.text && filler != b.text
    ensures Missing(Seeded(OldestOnly(a, filler), [a, b]), [a, b]) != []
  {
    var st, shipped := OldestOnly(a, filler), [a, b];
    assert st.lessons[0] == a.text;
    assert Known(st, a) && !Known(st, b);
    assert shipped[..1] == [a] && [a][..0] == [];
    assert Missing(st, [a]) == [] && Missing(st, shipped) == [b];
    assert Survivors(st, 1).lessons == st.lessons[1..];
    assert !Known(Survivors(st, 1), a);
    SecondBootQuietExactlyWhen(st, shipped);
  }
}
