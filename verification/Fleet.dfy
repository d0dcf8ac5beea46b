/** The fleet's daily soft ceiling: what the watchdog counts, when it speaks and whom it names. Money is `real`. */
module Fleet {
  import opened Domain
  import opened Sequences

  /** A project's id with the money it burned today. */
  type Burn = (string, real)

  /** What a project's store gives for the spend counter: the day it belongs to and the sum. */
  datatype Counter = Counter(day: string, usd: real)

  function LiveToday(c: Option<Counter>, today: string): real {
    if c.Some? && c.value.day == today then c.value.usd else 0.0
  }

  function Total(burns: seq<Burn>): real {
    if burns == [] then 0.0 else Total(burns[..|burns| - 1]) + burns[|burns| - 1].1
  }

  /** `fleet_today`: the total is the sum of the rows, one row per project, unreadable and stale ones at zero. */
  method FleetToday(projects: seq<(string, Option<Counter>)>, today: string) returns (total: real, burns: seq<Burn>)
    ensures total == Total(burns) && |burns| == |projects|
    ensures forall k :: 0 <= k < |projects| ==> burns[k].0 == projects[k].0
    ensures forall k :: 0 <= k < |projects| && burns[k].1 != 0.0 ==> projects[k].1 == Some(Counter(today, burns[k].1))
    ensures forall k :: 0 <= k < |projects| && projects[k].1.Some? && projects[k].1.value.day == today
              ==> burns[k].1 == projects[k].1.value.usd
  {
    total, burns := 0.0, [];
    for n := 0 to |projects|
      invariant |burns| == n && total == Total(burns)
      invariant forall k :: 0 <= k < n ==> burns[k] == (projects[k].0, LiveToday(projects[k].1, today))
    {
      var usd := LiveToday(projects[n].1, today);
      total := total + usd;
      var was := burns;
      burns := burns + [(projects[n].0, usd)];
      assert burns[..n] == was;
    }
  }

  // ---------------------------------------------------------------- one evaluation

  datatype HubAlert = Fire | Hold | ReArm | Clear

  function HubSoftAlert(total: real, ceiling: real, warned: bool, pct: real): HubAlert {
    if ceiling <= 0.0 then (if warned then Clear else Hold)
    else if total >= ceiling * pct then (if warned then Hold else Fire)
    else if warned then ReArm else Hold
  }

  /** What the watchdog remembers afterwards. */
  function Remember(alert: HubAlert, warned: bool): bool {
    match alert
    case Fire => true
    case Hold => warned
    case ReArm => false
    case Clear => false
  }

  function Share(burns: seq<Burn>, ceiling: real, pct: real): real
    requires burns != []
  {
    ceiling * pct / (|burns| as real)
  }

  function Filter(burns: seq<Burn>, line: real): seq<Burn> {
    if burns == [] then []
    else if burns[0].1 >= line then [burns[0]] + Filter(burns[1..], line)
    else Filter(burns[1..], line)
  }

  /** `above_pro_rata`: the projects at or above an even share of the warning line. */
  function AboveProRata(burns: seq<Burn>, ceiling: real, pct: real): seq<Burn> {
    if burns == [] || ceiling <= 0.0 then [] else Filter(burns, Share(burns, ceiling, pct))
  }

  lemma {:induction false} FilterMembers(burns: seq<Burn>, line: real)
    ensures forall b :: b in Filter(burns, line) <==> b in burns && b.1 >= line
    decreases |burns|
  {
    if burns != [] {
      FilterMembers(burns[1..], line);
      assert burns == [burns[0]] + burns[1..];
    }
  }

  lemma {:induction false} AllBelow(burns: seq<Burn>, line: real)
    requires burns != [] && forall b :: b in burns ==> b.1 < line
    ensures Total(burns) < (|burns| as real) * line
    decreases |burns|
  {
    var n := |burns| - 1;
    assert burns[n] in burns;
    if n > 0 {
      AllBelow(burns[..n], line);
      assert ((n + 1) as real) * line == (n as real) * line + line;
    } else {
      assert burns[..n] == [];
    }
  }

  /** The even share times the number of projects is the warning line. */
  lemma SharesAddUp(burns: seq<Burn>, ceiling: real, pct: real)
    requires burns != []
    ensures (|burns| as real) * Share(burns, ceiling, pct) == ceiling * pct
  {
  }

  // ---------------------------------------------------------------- the watchdog

  /** What one poll sees. */
  datatype Reading = Reading(burns: seq<Burn>, ceiling: real)

  predicate InBand(r: Reading, pct: real) {
    r.ceiling > 0.0 && Total(r.burns) >= r.ceiling * pct
  }

  /** Poll `i` finds the fleet in the band and the one before, if any, did not. */
  predicate Enters(readings: seq<Reading>, pct: real, i: nat)
    requires i < |readings|
  {
    InBand(readings[i], pct) && (i > 0 ==> !InBand(readings[i - 1], pct))
  }

  /** The notices of a run, poll by poll: at each entry into the band one notice, with the projects it names. */
  ghost predicate NoticesOf(readings: seq<Reading>, pct: real, notices: seq<Option<seq<Burn>>>) {
    && |notices| == |readings|
    && forall i: nat :: i < |readings| ==>
        notices[i] == if Enters(readings, pct, i)
                      then Some(AboveProRata(readings[i].burns, readings[i].ceiling, pct)) else None
  }

  method Watchdog(readings: seq<Reading>, pct: real) returns (notices: seq<Option<seq<Burn>>>)
    ensures NoticesOf(readings, pct, notices)
  {
    notices := [];
    var warned := false;
    for n := 0 to |readings|
      invariant warned == (n > 0 && InBand(readings[n - 1], pct))
      invariant |notices| == n
      invariant forall i: nat :: i < n ==>
        notices[i] == if Enters(readings, pct, i)
                      then Some(AboveProRata(readings[i].burns, readings[i].ceiling, pct)) else None
    {
      var r := readings[n];
      var alert := HubSoftAlert(Total(r.burns), r.ceiling, warned, pct);
      notices := notices + [if alert == Fire then Some(AboveProRata(r.burns, r.ceiling, pct)) else None];
      warned := Remember(alert, warned);
    }
  }

  /**
   * Whenever a notice goes out it names somebody, unless there is no project at all (which needs a
   * warning line at or below zero), and with a positive `pct` it names only projects that burned money.
   */
  lemma NoticeNamesSomebody(readings: seq<Reading>, pct: real, notices: seq<Option<seq<Burn>>>, i: nat)
    requires NoticesOf(readings, pct, notices) && i < |readings| && notices[i].Some?
    ensures notices[i].value == [] <==> readings[i].burns == []
    ensures pct > 0.0 ==> notices[i].value != []
    ensures pct > 0.0 ==> forall b :: b in notices[i].value ==> b in readings[i].burns && b.1 > 0.0
  {
    var r := readings[i];
    if r.burns != [] {
      var line := Share(r.burns, r.ceiling, pct);
      FilterMembers(r.burns, line);
      SharesAddUp(r.burns, r.ceiling, pct);
      if Filter(r.burns, line) == [] {
        AllBelow(r.burns, line);
      }
      if pct > 0.0 {
        assert r.ceiling * pct > 0.0;
        assert line > 0.0;
      }
    } else if pct > 0.0 {
      PositiveLine(r.ceiling, pct);
    }
  }

  lemma PositiveLine(ceiling: real, pct: real)
    requires ceiling > 0.0 && pct > 0.0
    ensures ceiling * pct > 0.0
  {
  }

  // ---------------------------------------------------------------- how often it speaks

  function Spoken(notices: seq<Option<seq<Burn>>>, lo: nat, hi: nat): (n: nat)
    requires lo <= hi <= |notices|
    decreases hi
  {
    if lo == hi then 0 else Spoken(notices, lo, hi - 1) + (if notices[hi - 1].Some? then 1 else 0)
  }

  /** Polls `lo .. hi` are in the band, and the run cannot be widened. */
  ghost predicate MaximalStretch(readings: seq<Reading>, pct: real, lo: nat, hi: nat) {
    && lo < hi <= |readings| && (forall i :: lo <= i < hi ==> InBand(readings[i], pct))
    && (lo > 0 ==> !InBand(readings[lo - 1], pct)) && (hi < |readings| ==> !InBand(readings[hi], pct))
  }

  lemma {:induction false} SpokenInBand(
    readings: seq<Reading>, pct: real, notices: seq<Option<seq<Burn>>>, lo: nat, hi: nat)
    requires NoticesOf(readings, pct, notices) && lo < hi <= |readings|
    requires forall i :: lo <= i < hi ==> InBand(readings[i], pct)
    ensures Spoken(notices, lo, hi) == if Enters(readings, pct, lo) then 1 else 0
    decreases hi
  {
    if lo + 1 < hi {
      SpokenInBand(readings, pct, notices, lo, hi - 1);
      assert InBand(readings[hi - 2], pct);
    } else {
      assert Spoken(notices, lo, lo) == 0;
    }
  }

  /** One notice per maximal stretch in the band, at its first poll, and none outside such stretches. */
  lemma {:induction false} OncePerStretch(readings: seq<Reading>, pct: real, notices: seq<Option<seq<Burn>>>, lo: nat, hi: nat)
    requires NoticesOf(readings, pct, notices) && MaximalStretch(readings, pct, lo, hi)
    ensures Spoken(notices, lo, hi) == 1 && notices[lo].Some?
    ensures forall i :: 0 <= i < |readings| && !InBand(readings[i], pct) ==> notices[i].None?
  {
    SpokenInBand(readings, pct, notices, lo, hi);
  }

  lemma {:induction false} SpokenOutside(
    readings: seq<Reading>, pct: real, notices: seq<Option<seq<Burn>>>, lo: nat, hi: nat)
    requires NoticesOf(readings, pct, notices) && lo <= hi <= |readings|
    requires forall i :: lo <= i < hi ==> !InBand(readings[i], pct)
    ensures Spoken(notices, lo, hi) == 0
    decreases hi
  {
    if lo < hi {
      SpokenOutside(readings, pct, notices, lo, hi - 1);
    }
  }

  lemma {:induction false} SpokenSplit(notices: seq<Option<seq<Burn>>>, lo: nat, mid: nat, hi: nat)
    requires lo <= mid <= hi <= |notices|
    ensures Spoken(notices, lo, hi) == Spoken(notices, lo, mid) + Spoken(notices, mid, hi)
    decreases hi
  {
    if mid < hi {
      SpokenSplit(notices, lo, mid, hi - 1);
    }
  }

  /** The polls of one day under one ceiling: the total only grows. */
  ghost predicate OneDay(readings: seq<Reading>, lo: nat, hi: nat) {
    && lo < hi <= |readings|
    && (forall i :: lo <= i < hi ==> readings[i].ceiling == readings[lo].ceiling)
    && (forall i, j :: lo <= i <= j < hi ==> Total(readings[i].burns) <= Total(readings[j].burns))
  }

  /** The first poll of a range in the band, or the end of the range. */
  ghost function FirstInBand(readings: seq<Reading>, pct: real, lo: nat, hi: nat): (m: nat)
    requires lo <= hi <= |readings|
    ensures lo <= m <= hi && (m < hi ==> InBand(readings[m], pct))
    ensures forall i :: lo <= i < m ==> !InBand(readings[i], pct)
    decreases hi - lo
  {
    if lo == hi || InBand(readings[lo], pct) then lo else FirstInBand(readings, pct, lo + 1, hi)
  }

  lemma StaysInBand(readings: seq<Reading>, pct: real, lo: nat, hi: nat, m: nat)
    requires OneDay(readings, lo, hi) && lo <= m < hi && InBand(readings[m], pct)
    ensures forall i :: m <= i < hi ==> InBand(readings[i], pct)
  {
    forall i | m <= i < hi ensures InBand(readings[i], pct) {
      assert Total(readings[m].burns) <= Total(readings[i].burns);
    }
  }

  /**
   * At most one notice a day, and exactly one precisely when the day ends in the band and some poll was
   * outside it since the previous day's last: the day's first poll or that last one. A day that is over the
   * line at its first poll, after a day that ended over it, passes in silence.
   */
  lemma {:induction false} OneNoticeADayExactly(readings: seq<Reading>, pct: real, notices: seq<Option<seq<Burn>>>, lo: nat, hi: nat)
    requires NoticesOf(readings, pct, notices) && OneDay(readings, lo, hi)
    ensures Spoken(notices, lo, hi) <= 1
    ensures Spoken(notices, lo, hi) == 1 <==>
      InBand(readings[hi - 1], pct) && (!InBand(readings[lo], pct) || lo == 0 || !InBand(readings[lo - 1], pct))
  {
    var m := FirstInBand(readings, pct, lo, hi);
    SpokenSplit(notices, lo, m, hi);
    SpokenOutside(readings, pct, notices, lo, m);
    if m < hi {
      StaysInBand(readings, pct, lo, hi, m);
      SpokenInBand(readings, pct, notices, m, hi);
    }
  }

  /** Two days over the line with no poll between them below it: the second gets no notice. */
  lemma SilentDay(notices: seq<Option<seq<Burn>>>)
    requires NoticesOf([Reading([("api", 90.0)], 100.0), Reading([("api", 85.0)], 100.0)], 0.8, notices)
    ensures notices[0] == Some([("api", 90.0)]) && notices[1] == None
  {
    var first, second := Reading([("api", 90.0)], 100.0), Reading([("api", 85.0)], 100.0);
    assert Total(first.burns) == 90.0 by {
      assert first.burns[..0] == [];
    }
    assert Total(second.burns) == 85.0 by {
      assert second.burns[..0] == [];
    }
    assert Filter(first.burns, 80.0) == first.burns by {
      assert first.burns[1..] == [];
    }
    assert Share(first.burns, 100.0, 0.8) == 80.0;
  }

  // ---------------------------------------------------------------- the cockpit's roll-up

  /** A project of the snapshot: its space, if it is filed in one, and its three spend counters. */
  datatype Project = Project(space: Option<string>, spend: real, today: real, week: real)

  datatype SpaceRow = SpaceRow(id: string, spend: real, today: real, week: real)

  /** The projects for whose space `keep` answers true. */
  function Kept(projects: seq<Project>, keep: Option<string> -> bool): seq<Project> {
    if projects == [] then []
    else (if keep(projects[0].space) then [projects[0]] else []) + Kept(projects[1..], keep)
  }

  function Sum<T>(xs: seq<T>, amount: T -> real): real {
    if xs == [] then 0.0 else amount(xs[0]) + Sum(xs[1..], amount)
  }

  function In(space: string): Option<string> -> bool {
    (s: Option<string>) => s == Some(space)
  }

  /** Projects in no space, or in one that is not listed. */
  function Unlisted(spaces: seq<string>): Option<string> -> bool {
    (s: Option<string>) => s.None? || s.value !in spaces
  }

  /** `build_cockpit`'s row for one space: its members' counters added up. */
  function RowOf(projects: seq<Project>, space: string): SpaceRow {
    var members := Kept(projects, In(space));
    SpaceRow(space, Sum(members, (p: Project) => p.spend), Sum(members, (p: Project) => p.today),
      Sum(members, (p: Project) => p.week))
  }

  function Rows(projects: seq<Project>, spaces: seq<string>): seq<SpaceRow> {
    if spaces == [] then [] else [RowOf(projects, spaces[0])] + Rows(projects, spaces[1..])
  }

  /** One column over all spaces. */
  function Column(projects: seq<Project>, spaces: seq<string>, amount: Project -> real): real {
    if spaces == [] then 0.0
    else Sum(Kept(projects, In(spaces[0])), amount) + Column(projects, spaces[1..], amount)
  }

  /** The space rows and the unlisted projects together hold a column's whole, nothing twice. */
  lemma {:induction false} ColumnConserves(projects: seq<Project>, spaces: seq<string>, amount: Project -> real)
    requires NoRepeats(spaces)
    ensures Column(projects, spaces, amount) + Sum(Kept(projects, Unlisted(spaces)), amount) == Sum(projects, amount)
    decreases |projects|
  {
    if projects == [] {
      EmptyColumn(spaces, amount);
    } else {
      ColumnConserves(projects[1..], spaces, amount);
      ColumnStep(projects, spaces, amount);
      KeptStep(projects, Unlisted(spaces), amount);
    }
  }

  lemma {:induction false} KeptStep(projects: seq<Project>, keep: Option<string> -> bool, amount: Project -> real)
    requires projects != []
    ensures Sum(Kept(projects, keep), amount)
      == Sum(Kept(projects[1..], keep), amount) + (if keep(projects[0].space) then amount(projects[0]) else 0.0)
  {
    var rest := Kept(projects[1..], keep);
    assert ([projects[0]] + rest)[1..] == rest && [] + rest == rest;
  }

  lemma {:induction false} EmptyColumn(spaces: seq<string>, amount: Project -> real)
    ensures Column([], spaces, amount) == 0.0
    decreases |spaces|
  {
    if spaces != [] {
      EmptyColumn(spaces[1..], amount);
    }
  }

  /** The first project shows in one row if its space is listed, else in none. */
  lemma {:induction false} ColumnStep(projects: seq<Project>, spaces: seq<string>, amount: Project -> real)
    requires NoRepeats(spaces) && projects != []
    ensures Column(projects, spaces, amount)
      == Column(projects[1..], spaces, amount) + (if Unlisted(spaces)(projects[0].space) then 0.0 else amount(projects[0]))
    decreases |spaces|
  {
    if spaces != [] {
      ColumnStep(projects, spaces[1..], amount);
      KeptStep(projects, In(spaces[0]), amount);
      assert spaces == [spaces[0]] + spaces[1..];
      assert spaces[0] !in spaces[1..];
    }
  }

  lemma {:induction false} RowsAreColumns(projects: seq<Project>, spaces: seq<string>)
    ensures Sum(Rows(projects, spaces), (r: SpaceRow) => r.spend) == Column(projects, spaces, (p: Project) => p.spend)
    ensures Sum(Rows(projects, spaces), (r: SpaceRow) => r.today) == Column(projects, spaces, (p: Project) => p.today)
    ensures Sum(Rows(projects, spaces), (r: SpaceRow) => r.week) == Column(projects, spaces, (p: Project) => p.week)
    decreases |spaces|
  {
    if spaces != [] {
      RowsAreColumns(projects, spaces[1..]);
      assert Rows(projects, spaces)[1..] == Rows(projects, spaces[1..]);
    }
  }

  /** All three columns of the cockpit: space rows and unlisted projects add up to the fleet's totals. */
  lemma {:induction false} RollUpConserves(projects: seq<Project>, spaces: seq<string>)
    requires NoRepeats(spaces)
    ensures var rows, rest := Rows(projects, spaces), Kept(projects, Unlisted(spaces));
      && Sum(rows, (r: SpaceRow) => r.spend) + Sum(rest, (p: Project) => p.spend) == Sum(projects, (p: Project) => p.spend)
      && Sum(rows, (r: SpaceRow) => r.today) + Sum(rest, (p: Project) => p.today) == Sum(projects, (p: Project) => p.today)
      && Sum(rows, (r: SpaceRow) => r.week) + Sum(rest, (p: Project) => p.week) == Sum(projects, (p: Project) => p.week)
  {
    RowsAreColumns(projects, spaces);
    ColumnConserves(projects, spaces, (p: Project) => p.spend);
    ColumnConserves(projects, spaces, (p: Project) => p.today);
    ColumnConserves(projects, spaces, (p: Project) => p.week);
  }
}
