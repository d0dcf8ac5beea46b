/** Merging a forge's issue backlog into the project as Pending tickets, and what re-runs do. */
module Import {
  import opened Domain
  import opened Sequences
  import opened Text
  import opened Titles

  datatype IssueDraft = IssueDraft(number: nat, title: string, body: string, labels: seq<string>, url: string)

  datatype ImportReport = ImportReport(imported: nat, skipped: nat)

  // ---------------------------------------------------------------- the imported ticket

  function LinkLine(d: IssueDraft): string {
    "Imported from issue #" + Decimal(d.number) + ": " + d.url + "\n"
  }

  /** `imported_body`: the body verbatim, then the back-link and the labels. */
  function ImportedBody(d: IssueDraft): string {
    var body := Trim(d.body);
    var gap := if body == [] then "" else "\n\n";
    var link := if d.url == [] then "" else gap + LinkLine(d);
    var labels := if d.labels == [] then "" else "Labels: " + Join(d.labels, ", ") + "\n";
    body + link + labels
  }

  /** Some ticket's description embeds the URL, closed off by its line end. */
  predicate Tracked(tickets: seq<Ticket>, url: string) {
    exists t :: t in tickets && Contains(t.description, url + "\n")
  }

  /** The identity of the source issue survives in the ticket: the back-link closes its line. */
  lemma BodyEmbedsUrl(d: IssueDraft)
    requires d.url != []
    ensures Contains(ImportedBody(d), d.url + "\n")
  {
    var body := Trim(d.body);
    var gap := if body == [] then "" else "\n\n";
    var head := "Imported from issue #" + Decimal(d.number) + ": ";
    var labels := if d.labels == [] then "" else "Labels: " + Join(d.labels, ", ") + "\n";
    assert ImportedBody(d) == (body + (gap + head)) + (d.url + "\n") + labels;
    ContainsPart(body + (gap + head), d.url + "\n", labels);
  }

  // ---------------------------------------------------------------- minting ids

  function Prefix(alias: string): string {
    if alias == [] then "F" else alias + "-F"
  }

  /** The number behind the prefix of an id, if it has both. */
  function NumberOf(prefix: string, id: TicketId): Option<nat> {
    if prefix <= id then ParseUnsigned(id[|prefix|..], U64) else None
  }

  /** The largest number present, 0 if none is. */
  function Largest(ns: seq<Option<nat>>): nat {
    if ns == [] then 0
    else
      var rest := Largest(ns[..|ns| - 1]);
      var n := ns[|ns| - 1];
      if n.Some? && n.value > rest then n.value else rest
  }

  function Highest(prefix: string, tickets: seq<Ticket>): nat {
    Largest(Map((t: Ticket) => NumberOf(prefix, t.id), tickets))
  }

  function PadZeros(s: string, width: nat): string
    decreases width - |s|
  {
    if |s| >= width then s else PadZeros("0" + s, width)
  }

  /** One past the highest number, in the 64 bits it is counted in: past the last it wraps to 0. */
  function NextNumber(alias: string, tickets: seq<Ticket>): nat {
    (Highest(Prefix(alias), tickets) + 1) % U64
  }

  /** The id of a number: at least three digits wide. */
  function IdOf(alias: string, n: nat): TicketId {
    Prefix(alias) + PadZeros(Decimal(n), 3)
  }

  /** `mint_id` for a feature. */
  function MintId(alias: string, tickets: seq<Ticket>): TicketId {
    IdOf(alias, NextNumber(alias, tickets))
  }

  lemma {:induction false} LeadingZero(s: string)
    requires AllDigits(s)
    ensures AllDigits("0" + s) && DigitsValue("0" + s) == DigitsValue(s)
    decreases |s|
  {
    var z := "0" + s;
    if s == [] {
      assert z[..0] == [];
    } else {
      assert z[..|z| - 1] == "0" + s[..|s| - 1];
      LeadingZero(s[..|s| - 1]);
    }
  }

  lemma {:induction false} PadZerosValue(s: string, width: nat)
    requires s != [] && AllDigits(s)
    ensures PadZeros(s, width) != [] && AllDigits(PadZeros(s, width))
    ensures DigitsValue(PadZeros(s, width)) == DigitsValue(s)
    decreases width - |s|
  {
    if |s| < width {
      LeadingZero(s);
      PadZerosValue("0" + s, width);
    }
  }

  lemma {:induction false} LargestIsLargest(ns: seq<Option<nat>>, k: nat)
    requires k < |ns| && ns[k].Some?
    ensures ns[k].value <= Largest(ns)
    decreases |ns|
  {
    if k < |ns| - 1 {
      LargestIsLargest(ns[..|ns| - 1], k);
    }
  }

  lemma {:induction false} LargestFits(ns: seq<Option<nat>>)
    requires forall k :: 0 <= k < |ns| && ns[k].Some? ==> ns[k].value < U64
    ensures Largest(ns) < U64
    decreases |ns|
  {
    if ns != [] {
      LargestFits(ns[..|ns| - 1]);
    }
  }

  /** The number is read back from the id. */
  lemma NumberOfId(alias: string, n: nat)
    requires n < U64
    ensures NumberOf(Prefix(alias), IdOf(alias, n)) == Some(n)
  {
    var prefix, digits := Prefix(alias), PadZeros(Decimal(n), 3);
    DecimalRoundTrip(n);
    PadZerosValue(Decimal(n), 3);
    assert IdOf(alias, n)[|prefix|..] == digits;
    assert IsDigit(digits[0]);
  }

  lemma NumbersAreBelow(alias: string, tickets: seq<Ticket>, n: nat)
    requires Highest(Prefix(alias), tickets) < n < U64
    ensures IdOf(alias, n) !in Ids(tickets)
  {
    NumberOfId(alias, n);
    forall t | t in tickets ensures t.id != IdOf(alias, n) {
      if t.id == IdOf(alias, n) {
        var k :| 0 <= k < |tickets| && tickets[k] == t;
        LargestIsLargest(Map((x: Ticket) => NumberOf(Prefix(alias), x.id), tickets), k);
      }
    }
  }

  /**
   * Whatever was deleted or renumbered before, minting repeats no id, unless the numbers are used up and the
   * id of number 0, to which the count wraps, is taken; and then it does.
   */
  lemma MintIsFreshExactly(alias: string, tickets: seq<Ticket>)
    ensures MintId(alias, tickets) !in Ids(tickets)
       <==> Highest(Prefix(alias), tickets) + 1 < U64 || IdOf(alias, 0) !in Ids(tickets)
  {
    var h := Highest(Prefix(alias), tickets);
    HighestFits(alias, tickets);
    if h + 1 < U64 {
      assert (h + 1) % U64 == h + 1;
      NumbersAreBelow(alias, tickets, h + 1);
    } else {
      assert (h + 1) % U64 == 0;
    }
  }

  lemma {:induction false} HighestWith(alias: string, tickets: seq<Ticket>, t: Ticket)
    ensures var n, h := NumberOf(Prefix(alias), t.id), Highest(Prefix(alias), tickets);
      Highest(Prefix(alias), tickets + [t]) == if n.Some? && n.value > h then n.value else h
  {
    var f := (x: Ticket) => NumberOf(Prefix(alias), x.id);
    MapSnoc(f, tickets, t);
    var ns := Map(f, tickets) + [f(t)];
    assert ns[..|ns| - 1] == Map(f, tickets);
  }

  lemma {:induction false} HighestFits(alias: string, tickets: seq<Ticket>)
    ensures Highest(Prefix(alias), tickets) < U64
  {
    LargestFits(Map((x: Ticket) => NumberOf(Prefix(alias), x.id), tickets));
  }

  // ---------------------------------------------------------------- numbers through a run

  /** How many numbers are left. */
  function Room(alias: string, tickets: seq<Ticket>): int {
    U64 - 1 - Highest(Prefix(alias), tickets)
  }

  predicate HasZero(alias: string, tickets: seq<Ticket>) {
    IdOf(alias, 0) in Ids(tickets)
  }

  /** For `n` more ids: there is room, or for all but one and number 0 is free. */
  predicate NumbersSuffice(alias: string, tickets: seq<Ticket>, n: nat) {
    n <= Room(alias, tickets) || (n == Room(alias, tickets) + 1 && !HasZero(alias, tickets))
  }

  /** The backlog after `n` imports: numbered on while there is room, then stuck at number 0. */
  ghost predicate Numbered(alias: string, tickets: seq<Ticket>, now: seq<Ticket>, n: nat) {
    var prefix := Prefix(alias);
    if n <= Room(alias, tickets) then
      && UniqueIds(now) && Highest(prefix, now) == Highest(prefix, tickets) + n
      && (HasZero(alias, now) <==> HasZero(alias, tickets))
    else
      && Highest(prefix, now) == U64 - 1 && HasZero(alias, now)
      && (UniqueIds(now) <==> n == Room(alias, tickets) + 1 && !HasZero(alias, tickets))
  }

  lemma {:induction false} UniqueWith(ts: seq<Ticket>, t: Ticket)
    ensures UniqueIds(ts + [t]) <==> UniqueIds(ts) && t.id !in Ids(ts)
  {
    var all := ts + [t];
    assert forall i :: 0 <= i < |ts| ==> all[i] == ts[i];
    if t.id in Ids(ts) {
      var u :| u in ts && u.id == t.id;
      var i :| 0 <= i < |ts| && ts[i] == u;
      assert all[i].id == all[|ts|].id;
    } else if UniqueIds(ts) {
      UniqueAppend(ts, t);
    } else {
      var i, j :| 0 <= i < j < |ts| && ts[i].id == ts[j].id;
      assert all[i].id == all[j].id;
    }
  }

  lemma {:induction false} ZeroWith(alias: string, ts: seq<Ticket>, t: Ticket)
    ensures HasZero(alias, ts + [t]) <==> HasZero(alias, ts) || t.id == IdOf(alias, 0)
  {
    assert Ids(ts + [t]) == Ids(ts) + {t.id} by {
      assert forall x :: x in ts + [t] <==> x in ts || x == t;
    }
  }

  /** With room left the next id is new and one higher, */
  lemma {:induction false} NumberedOn(alias: string, tickets: seq<Ticket>, now: seq<Ticket>, n: nat, t: Ticket)
    requires Numbered(alias, tickets, now, n) && n < Room(alias, tickets) && t.id == MintId(alias, now)
    ensures Numbered(alias, tickets, now + [t], n + 1)
  {
    var k := Highest(Prefix(alias), now) + 1;
    assert k % U64 == k;
    NumberOfId(alias, k);
    NumberOfId(alias, 0);
    NumbersAreBelow(alias, now, k);
    UniqueWith(now, t);
    ZeroWith(alias, now, t);
    HighestWith(alias, now, t);
  }

  /** and after the last number it is number 0, every time. */
  lemma {:induction false} NumberedOut(alias: string, tickets: seq<Ticket>, now: seq<Ticket>, n: nat, t: Ticket)
    requires Numbered(alias, tickets, now, n) && n >= Room(alias, tickets) >= 0 && t.id == MintId(alias, now)
    ensures Numbered(alias, tickets, now + [t], n + 1)
  {
    assert Highest(Prefix(alias), now) == U64 - 1;
    assert U64 % U64 == 0;
    NumberOfId(alias, 0);
    UniqueWith(now, t);
    ZeroWith(alias, now, t);
    HighestWith(alias, now, t);
  }

  // ---------------------------------------------------------------- one run

  predicate Active(t: Ticket) {
    !(t.status.Done? || t.status.Documented? || t.status.Rejected? || t.status.Verified?)
  }

  function TitlesOf(tickets: seq<Ticket>, keep: Ticket -> bool): (r: seq<string>)
    ensures forall x :: x in r <==> exists t :: t in tickets && keep(t) && t.title == x
  {
    if tickets == [] then []
    else
      var n := |tickets| - 1;
      assert tickets == tickets[..n] + [tickets[n]];
      TitlesOf(tickets[..n], keep) + if keep(tickets[n]) then [tickets[n].title] else []
  }

  /** What a run is given and computes before its loop. */
  datatype Setting = Setting(
    alias: string, cap: nat, kin: (string, string) -> bool, active: seq<string>, rejected: seq<string>)

  function SettingOf(alias: string, cap: nat, kin: (string, string) -> bool, tickets: seq<Ticket>): Setting {
    Setting(alias, cap, kin, TitlesOf(tickets, t => Active(t)), TitlesOf(tickets, (t: Ticket) => t.status.Rejected?))
  }

  /** The loop state; `taken` lists the drafts imported so far. */
  datatype Merge = Merge(
    tickets: seq<Ticket>, skipped: nat, batchUrls: set<string>, batchTitles: seq<string>, taken: seq<IssueDraft>)

  function NewTicket(alias: string, tickets: seq<Ticket>, d: IssueDraft): Ticket {
    Ticket(MintId(alias, tickets), Feature, Trim(d.title), ImportedBody(d), Medium, Pending, [], None)
  }

  /** Beyond the cap, or blank. */
  predicate Refused(c: Setting, m: Merge, d: IssueDraft) {
    |m.taken| >= c.cap || Trim(d.title) == []
  }

  /** The source issue is already in the backlog, or earlier in the batch. */
  predicate KnownIssue(m: Merge, d: IssueDraft) {
    d.url != [] && (Tracked(m.tickets, d.url) || d.url in m.batchUrls)
  }

  predicate KnownTitle(c: Setting, m: Merge, d: IssueDraft) {
    Duplicates(c.kin, d.title, c.active) || Duplicates(c.kin, d.title, c.rejected) || Duplicates(c.kin, d.title, m.batchTitles)
  }

  function Step(c: Setting, m: Merge, d: IssueDraft): Merge {
    if Refused(c, m, d) || KnownIssue(m, d) then m.(skipped := m.skipped + 1)
    else
      var urls := if d.url == [] then m.batchUrls else m.batchUrls + {d.url};
      if KnownTitle(c, m, d) then m.(skipped := m.skipped + 1, batchUrls := urls)
      else Merge(m.tickets + [NewTicket(c.alias, m.tickets, d)], m.skipped, urls, m.batchTitles + [d.title], m.taken + [d])
  }

  function Steps(c: Setting, m: Merge, drafts: seq<IssueDraft>): Merge {
    if drafts == [] then m else Step(c, Steps(c, m, drafts[..|drafts| - 1]), drafts[|drafts| - 1])
  }

  function Start(tickets: seq<Ticket>): Merge {
    Merge(tickets, 0, {}, [], [])
  }

  /** The whole run. */
  function Merged(alias: string, cap: nat, kin: (string, string) -> bool, tickets: seq<Ticket>, drafts: seq<IssueDraft>): Merge {
    Steps(SettingOf(alias, cap, kin, tickets), Start(tickets), drafts)
  }

  /** `merge_pending`: one loop over the drafts, each skipped or appended as a Pending feature. */
  method MergePending(p: ProjectState, drafts: seq<IssueDraft>, cap: nat, kin: (string, string) -> bool)
    returns (report: ImportReport)
    modifies p`tickets
    ensures var m := Merged(p.alias, cap, kin, old(p.tickets), drafts);
      p.tickets == m.tickets && report == ImportReport(|m.taken|, m.skipped)
  {
    var imported, skipped := 0, 0;
    var active := TitlesOf(p.tickets, t => Active(t));
    var rejected := TitlesOf(p.tickets, (t: Ticket) => t.status.Rejected?);
    var batchUrls: set<string>, batchTitles: seq<string> := {}, [];
    ghost var c, start := SettingOf(p.alias, cap, kin, p.tickets), Start(p.tickets);
    ghost var taken := [];
    for k := 0 to |drafts|
      invariant Merge(p.tickets, skipped, batchUrls, batchTitles, taken) == Steps(c, start, drafts[..k])
      invariant imported == |taken|
    {
      var d := drafts[k];
      assert drafts[..k + 1][..k] == drafts[..k];
      if imported >= cap || Trim(d.title) == [] {
        skipped := skipped + 1;
      } else if d.url != [] && (Tracked(p.tickets, d.url) || d.url in batchUrls) {
        skipped := skipped + 1;
      } else {
        if d.url != [] {
          batchUrls := batchUrls + {d.url};
        }
        if Duplicates(kin, d.title, active) || Duplicates(kin, d.title, rejected) || Duplicates(kin, d.title, batchTitles) {
          skipped := skipped + 1;
        } else {
          p.tickets := p.tickets + [NewTicket(p.alias, p.tickets, d)];
          batchTitles := batchTitles + [d.title];
          imported := imported + 1;
          taken := taken + [d];
        }
      }
    }
    assert drafts[..|drafts|] == drafts;
    report := ImportReport(imported, skipped);
  }

  // ---------------------------------------------------------------- what a run keeps

  /** Every draft is accounted for, the cap is respected, and old tickets are an untouched prefix. */
  lemma {:induction false} RunAccounts(c: Setting, tickets: seq<Ticket>, drafts: seq<IssueDraft>)
    ensures var m := Steps(c, Start(tickets), drafts);
      && |m.taken| + m.skipped == |drafts|
      && |m.taken| <= c.cap
      && tickets <= m.tickets && |m.tickets| == |tickets| + |m.taken|
      && (forall i :: |tickets| <= i < |m.tickets| ==> m.tickets[i].status == Pending && m.tickets[i].kind == Feature)
    decreases |drafts|
  {
    if drafts != [] {
      RunAccounts(c, tickets, drafts[..|drafts| - 1]);
    }
  }

  lemma {:induction false} RunNumbers(c: Setting, tickets: seq<Ticket>, drafts: seq<IssueDraft>)
    requires UniqueIds(tickets)
    ensures var m := Steps(c, Start(tickets), drafts); Numbered(c.alias, tickets, m.tickets, |m.taken|)
    decreases |drafts|
  {
    HighestFits(c.alias, tickets);
    if drafts != [] {
      var n := |drafts| - 1;
      RunNumbers(c, tickets, drafts[..n]);
      var m := Steps(c, Start(tickets), drafts[..n]);
      var t := NewTicket(c.alias, m.tickets, drafts[n]);
      if |m.taken| < Room(c.alias, tickets) {
        NumberedOn(c.alias, tickets, m.tickets, |m.taken|, t);
      } else {
        NumberedOut(c.alias, tickets, m.tickets, |m.taken|, t);
      }
    }
  }

  /**
   * A run keeps ids unique exactly when it imports no more tickets than there are numbers left, or one more while
   * the id of number 0, to which the count then wraps, is free.
   */
  lemma {:induction false} RunKeepsIdsUniqueExactly(c: Setting, tickets: seq<Ticket>, drafts: seq<IssueDraft>)
    requires UniqueIds(tickets)
    ensures var m := Steps(c, Start(tickets), drafts);
      UniqueIds(m.tickets) <==> NumbersSuffice(c.alias, tickets, |m.taken|)
  {
    RunNumbers(c, tickets, drafts);
  }

  // ---------------------------------------------------------------- no issue twice, over runs

  /** The source URLs of the imported drafts that have one. */
  function Urls(taken: seq<IssueDraft>): (r: seq<string>)
    ensures forall u :: u in r ==> u != []
  {
    if taken == [] then []
    else Urls(taken[..|taken| - 1]) + if taken[|taken| - 1].url == [] then [] else [taken[|taken| - 1].url]
  }

  /** Everything imported so far is tracked, and nothing was imported twice. */
  ghost predicate Remembered(tickets: seq<Ticket>, urls: seq<string>) {
    NoRepeats(urls) && forall u :: u in urls ==> Tracked(tickets, u)
  }

  lemma TrackedGrows(tickets: seq<Ticket>, more: seq<Ticket>, url: string)
    requires Tracked(tickets, url)
    ensures Tracked(tickets + more, url)
  {
    var t :| t in tickets && Contains(t.description, url + "\n");
    assert t in tickets + more;
  }

  lemma {:induction false} UrlsSnoc(taken: seq<IssueDraft>, d: IssueDraft)
    ensures Urls(taken + [d]) == Urls(taken) + if d.url == [] then [] else [d.url]
  {
    assert (taken + [d])[..|taken|] == taken;
  }

  /** Importing an untracked issue leaves it tracked beside all the others. */
  lemma ImportRemembers(alias: string, tickets: seq<Ticket>, urls: seq<string>, d: IssueDraft)
    requires Remembered(tickets, urls) && (d.url != [] ==> !Tracked(tickets, d.url))
    ensures Remembered(tickets + [NewTicket(alias, tickets, d)], urls + if d.url == [] then [] else [d.url])
  {
    var t := NewTicket(alias, tickets, d);
    forall u | u in urls ensures Tracked(tickets + [t], u) {
      TrackedGrows(tickets, [t], u);
    }
    if d.url == [] {
      assert urls + [] == urls;
    } else {
      BodyEmbedsUrl(d);
      assert t in tickets + [t];
      NoRepeatsConcat(urls, [d.url]);
    }
  }

  lemma StepRemembers(c: Setting, m: Merge, d: IssueDraft, urls: seq<string>)
    requires Remembered(m.tickets, urls + Urls(m.taken))
    ensures var m' := Step(c, m, d); Remembered(m'.tickets, urls + Urls(m'.taken))
  {
    if !Refused(c, m, d) && !KnownIssue(m, d) && !KnownTitle(c, m, d) {
      var all, last := urls + Urls(m.taken), if d.url == [] then [] else [d.url];
      ImportRemembers(c.alias, m.tickets, all, d);
      UrlsSnoc(m.taken, d);
      assert urls + (Urls(m.taken) + last) == all + last;
    }
  }

  lemma {:induction false} RunRemembers(c: Setting, tickets: seq<Ticket>, drafts: seq<IssueDraft>, urls: seq<string>)
    requires Remembered(tickets, urls)
    ensures var m := Steps(c, Start(tickets), drafts); Remembered(m.tickets, urls + Urls(m.taken))
    decreases |drafts|
  {
    if drafts == [] {
      assert urls + Urls([]) == urls;
    } else {
      var n := |drafts| - 1;
      RunRemembers(c, tickets, drafts[..n], urls);
      StepRemembers(c, Steps(c, Start(tickets), drafts[..n]), drafts[n], urls);
    }
  }

  /** What can happen between and during imports: a run, a status change, a ticket filed by others, reworded or leaving. */
  datatype Event =
    | ImportRun(drafts: seq<IssueDraft>, cap: nat)
    | ChangeStatus(index: nat, status: Status)
    | FileOther(ticket: Ticket)
    | Restate(index: nat, description: string)
    | Leave(index: nat)

  /** The backlog and the URLs imported into it so far. */
  datatype History = History(tickets: seq<Ticket>, urls: seq<string>)

  function Happens(alias: string, kin: (string, string) -> bool, h: History, e: Event): History {
    match e
    case ImportRun(drafts, cap) =>
      var m := Merged(alias, cap, kin, h.tickets, drafts);
      History(m.tickets, h.urls + Urls(m.taken))
    case ChangeStatus(i, status) =>
      if i < |h.tickets| then h.(tickets := h.tickets[i := h.tickets[i].(status := status)]) else h
    case FileOther(t) => h.(tickets := h.tickets + [t])
    case Restate(i, text) =>
      if i < |h.tickets| then h.(tickets := h.tickets[i := h.tickets[i].(description := text)]) else h
    case Leave(i) => if i < |h.tickets| then h.(tickets := h.tickets[..i] + h.tickets[i + 1..]) else h
  }

  function After(alias: string, kin: (string, string) -> bool, h: History, events: seq<Event>): History {
    if events == [] then h
    else Happens(alias, kin, After(alias, kin, h, events[..|events| - 1]), events[|events| - 1])
  }

  lemma StatusKeepsTracked(tickets: seq<Ticket>, i: nat, status: Status, url: string)
    requires i < |tickets| && Tracked(tickets, url)
    ensures Tracked(tickets[i := tickets[i].(status := status)], url)
  {
    var t :| t in tickets && Contains(t.description, url + "\n");
    var k :| 0 <= k < |tickets| && tickets[k] == t;
    var now := tickets[i := tickets[i].(status := status)];
    assert now[k] in now && now[k].description == t.description;
  }

  lemma EventRemembers(alias: string, kin: (string, string) -> bool, h: History, e: Event)
    requires Remembered(h.tickets, h.urls) && !e.Leave? && !e.Restate?
    ensures Remembered(Happens(alias, kin, h, e).tickets, Happens(alias, kin, h, e).urls)
  {
    match e
    case ImportRun(drafts, cap) =>
      RunRemembers(SettingOf(alias, cap, kin, h.tickets), h.tickets, drafts, h.urls);
    case ChangeStatus(i, status) =>
      if i < |h.tickets| {
        forall u | u in h.urls ensures Tracked(h.tickets[i := h.tickets[i].(status := status)], u) {
          StatusKeepsTracked(h.tickets, i, status, u);
        }
      }
    case FileOther(t) =>
      forall u | u in h.urls ensures Tracked(h.tickets + [t], u) {
        TrackedGrows(h.tickets, [t], u);
      }
  }

  /**
   * From any backlog, over any sequence of import runs, status changes and other
   * filings, no source issue is ever imported twice.
   */
  lemma {:induction false} NeverImportedTwice(
    alias: string, kin: (string, string) -> bool, tickets: seq<Ticket>, events: seq<Event>)
    requires forall k :: 0 <= k < |events| ==> !events[k].Leave? && !events[k].Restate?
    ensures var h := After(alias, kin, History(tickets, []), events); Remembered(h.tickets, h.urls)
    decreases |events|
  {
    if events != [] {
      var n := |events| - 1;
      NeverImportedTwice(alias, kin, tickets, events[..n]);
      EventRemembers(alias, kin, After(alias, kin, History(tickets, []), events[..n]), events[n]);
    }
  }

  // ---------------------------------------------------------------- tickets that leave or lose the URL

  /** How often the URL was imported. */
  function Imports(urls: seq<string>, url: string): nat {
    if urls == [] then 0 else Imports(urls[..|urls| - 1], url) + (if urls[|urls| - 1] == url then 1 else 0)
  }

  lemma {:induction false} ImportsConcat(a: seq<string>, b: seq<string>, url: string)
    ensures Imports(a + b, url) == Imports(a, url) + Imports(b, url)
    decreases |b|
  {
    if b == [] {
      assert a + b == a;
    } else {
      assert (a + b)[..|a + b| - 1] == a + b[..|b| - 1];
      ImportsConcat(a, b[..|b| - 1], url);
    }
  }

  lemma {:induction false} ImportsAtMostOnce(urls: seq<string>, url: string)
    requires NoRepeats(urls)
    ensures Imports(urls, url) == if url in urls then 1 else 0
    decreases |urls|
  {
    if urls != [] {
      var n := |urls| - 1;
      ImportsAtMostOnce(urls[..n], url);
      assert urls == urls[..n] + [urls[n]];
    }
  }

  /** With this event the last ticket embedding the URL leaves, or has its description rewritten. */
  predicate Loses(alias: string, kin: (string, string) -> bool, h: History, e: Event, url: string) {
    Tracked(h.tickets, url) && !Tracked(Happens(alias, kin, h, e).tickets, url)
  }

  /** How often that happens. */
  function Losses(alias: string, kin: (string, string) -> bool, h: History, events: seq<Event>, url: string): nat {
    if events == [] then 0
    else
      var n := |events| - 1;
      Losses(alias, kin, h, events[..n], url)
      + (if Loses(alias, kin, After(alias, kin, h, events[..n]), events[n], url) then 1 else 0)
  }

  function One(b: bool): nat {
    if b then 1 else 0
  }

  lemma {:induction false} RunUrls(c: Setting, tickets: seq<Ticket>, drafts: seq<IssueDraft>)
    ensures var m := Steps(c, Start(tickets), drafts); Remembered(m.tickets, Urls(m.taken))
  {
    RunRemembers(c, tickets, drafts, []);
    var m := Steps(c, Start(tickets), drafts);
    assert [] + Urls(m.taken) == Urls(m.taken);
  }

  lemma {:induction false} RunUrlsNew(c: Setting, tickets: seq<Ticket>, drafts: seq<IssueDraft>, url: string)
    requires Tracked(tickets, url)
    ensures var m := Steps(c, Start(tickets), drafts); url !in Urls(m.taken) && Tracked(m.tickets, url)
  {
    RunRemembers(c, tickets, drafts, [url]);
    HeadNotRepeated(url, Urls(Steps(c, Start(tickets), drafts).taken));
  }

  lemma HeadNotRepeated(x: string, xs: seq<string>)
    requires NoRepeats([x] + xs)
    ensures x !in xs && x in [x] + xs
  {
    var all := [x] + xs;
    assert all[0] == x;
    forall k | 0 <= k < |xs| ensures xs[k] != x {
      assert all[k + 1] == xs[k];
    }
  }

  /** A run imports a URL at most once, only if nothing tracks it, and then it is tracked. */
  lemma {:induction false} RunImports(c: Setting, tickets: seq<Ticket>, drafts: seq<IssueDraft>, url: string)
    ensures var m := Steps(c, Start(tickets), drafts);
      One(Tracked(tickets, url)) + Imports(Urls(m.taken), url) <= One(Tracked(m.tickets, url))
  {
    RunUrls(c, tickets, drafts);
    ImportsAtMostOnce(Urls(Steps(c, Start(tickets), drafts).taken), url);
    if Tracked(tickets, url) {
      RunUrlsNew(c, tickets, drafts, url);
    }
  }

  lemma {:induction false} EventImports(alias: string, kin: (string, string) -> bool, h: History, e: Event, url: string)
    ensures var h' := Happens(alias, kin, h, e);
      One(Tracked(h.tickets, url)) + Imports(h'.urls, url) <=
        Imports(h.urls, url) + One(Loses(alias, kin, h, e, url)) + One(Tracked(h'.tickets, url))
  {
    if e.ImportRun? {
      var c := SettingOf(alias, e.cap, kin, h.tickets);
      RunImports(c, h.tickets, e.drafts, url);
      ImportsConcat(h.urls, Urls(Steps(c, Start(h.tickets), e.drafts).taken), url);
    }
  }

  /**
   * Over any history, tickets leaving or being reworded included: a source issue is imported at most once more
   * than its URL has been lost, and no more often than that if a ticket tracked it from the start.
   */
  lemma {:induction false} ImportsNeedLosses(
    alias: string, kin: (string, string) -> bool, tickets: seq<Ticket>, events: seq<Event>, url: string)
    ensures var h0 := History(tickets, []);
      var h := After(alias, kin, h0, events);
      One(Tracked(tickets, url)) + Imports(h.urls, url) <= Losses(alias, kin, h0, events, url) + One(Tracked(h.tickets, url))
    decreases |events|
  {
    if events != [] {
      var n := |events| - 1;
      ImportsNeedLosses(alias, kin, tickets, events[..n], url);
      EventImports(alias, kin, After(alias, kin, History(tickets, []), events[..n]), events[n], url);
    }
  }

  /** A lone draft is imported exactly when the cap allows it, nothing tracks its URL and no title covers it. */
  lemma {:induction false} LoneDraftExactly(
    alias: string, cap: nat, kin: (string, string) -> bool, tickets: seq<Ticket>, d: IssueDraft)
    ensures var m, c := Merged(alias, cap, kin, tickets, [d]), SettingOf(alias, cap, kin, tickets);
      if cap > 0 && Trim(d.title) != [] && !(d.url != [] && Tracked(tickets, d.url)) && !KnownTitle(c, Start(tickets), d)
      then m.taken == [d] && m.tickets == tickets + [NewTicket(alias, tickets, d)]
      else m.taken == [] && m.tickets == tickets
  {
    var c := SettingOf(alias, cap, kin, tickets);
    assert [d][..0] == [];
    assert Steps(c, Start(tickets), []) == Start(tickets);
  }

  /** A title that is no blank, as written and normalised. */
  predicate Titled(d: IssueDraft) {
    Trim(d.title) != [] && Normalize(d.title) != []
  }

  lemma {:induction false} FourEvents(
    alias: string, kin: (string, string) -> bool, h: History, a: Event, b: Event, c: Event, d: Event)
    ensures After(alias, kin, h, [a, b, c, d]) ==
      Happens(alias, kin, Happens(alias, kin, Happens(alias, kin, Happens(alias, kin, h, a), b), c), d)
  {
    ThreeEvents(alias, kin, h, a, b, c);
    assert [a, b, c, d][..3] == [a, b, c];
  }

  lemma OnlyStatusChanges(alias: string, kin: (string, string) -> bool, t: Ticket, urls: seq<string>, status: Status)
    ensures Happens(alias, kin, History([t], urls), ChangeStatus(0, status)) == History([t.(status := status)], urls)
  {
    assert [t][0 := t.(status := status)] == [t.(status := status)];
  }

  lemma OnlyTextChanges(alias: string, kin: (string, string) -> bool, t: Ticket, urls: seq<string>, text: string)
    ensures Happens(alias, kin, History([t], urls), Restate(0, text)) == History([t.(description := text)], urls)
  {
    assert [t][0 := t.(description := text)] == [t.(description := text)];
  }

  /** On an empty backlog any titled draft is imported, so an issue whose ticket was rejected and archived returns; */
  lemma {:induction false} IssueReturns(alias: string, kin: (string, string) -> bool, d: IssueDraft)
    requires Titled(d) && d.url != []
    ensures After(alias, kin, History([], []),
      [ImportRun([d], 1), ChangeStatus(0, Rejected), Leave(0), ImportRun([d], 1)]).urls == [d.url, d.url]
  {
    var t := NewTicket(alias, [], d);
    FreshImport(alias, kin, [], d);
    assert [] + [d.url] == [d.url] && [d.url] + [d.url] == [d.url, d.url];
    OnlyStatusChanges(alias, kin, t, [d.url], Rejected);
    OnlyTicketLeaves(alias, kin, t.(status := Rejected), [d.url]);
    FreshImport(alias, kin, [d.url], d);
    FourEvents(alias, kin, History([], []), ImportRun([d], 1), ChangeStatus(0, Rejected), Leave(0), ImportRun([d], 1));
  }

  /** and so does one whose ticket was finished and its description rewritten. */
  lemma {:induction false} RestatedIssueReturns(alias: string, kin: (string, string) -> bool, d: IssueDraft)
    requires Titled(d) && d.url != []
    ensures After(alias, kin, History([], []),
      [ImportRun([d], 1), ChangeStatus(0, Done), Restate(0, ""), ImportRun([d], 1)]).urls == [d.url, d.url]
  {
    var t := NewTicket(alias, [], d);
    FreshImport(alias, kin, [], d);
    assert [] + [d.url] == [d.url] && [d.url] + [d.url] == [d.url, d.url];
    OnlyStatusChanges(alias, kin, t, [d.url], Done);
    OnlyTextChanges(alias, kin, t.(status := Done), [d.url], "");
    ImportBeside(alias, kin, t.(status := Done).(description := ""), [d.url], d);
    FourEvents(alias, kin, History([], []), ImportRun([d], 1), ChangeStatus(0, Done), Restate(0, ""), ImportRun([d], 1));
  }

  lemma {:induction false} ImportBeside(alias: string, kin: (string, string) -> bool, t: Ticket, urls: seq<string>, d: IssueDraft)
    requires t.status == Done && t.description == "" && Titled(d) && d.url != []
    ensures Happens(alias, kin, History([t], urls), ImportRun([d], 1)).urls == urls + [d.url]
  {
    FinishedCoversNothing(alias, kin, t, d);
    LoneDraftExactly(alias, 1, kin, [t], d);
    assert [d][..0] == [] && Urls([]) == [] && Urls([d]) == [d.url];
  }

  /** A finished ticket without the URL is no reason to skip a draft. */
  lemma {:induction false} FinishedCoversNothing(alias: string, kin: (string, string) -> bool, t: Ticket, d: IssueDraft)
    requires t.status == Done && t.description == "" && Titled(d) && d.url != []
    ensures !Tracked([t], d.url) && !KnownTitle(SettingOf(alias, 1, kin, [t]), Start([t]), d)
  {
    var c := SettingOf(alias, 1, kin, [t]);
    assert forall x :: x !in c.active && x !in c.rejected;
  }

  lemma OnlyTicketLeaves(alias: string, kin: (string, string) -> bool, t: Ticket, urls: seq<string>)
    ensures Happens(alias, kin, History([t], urls), Leave(0)) == History([], urls)
  {
    assert [t][..0] + [t][1..] == [];
  }

  lemma {:induction false} FreshImport(alias: string, kin: (string, string) -> bool, urls: seq<string>, d: IssueDraft)
    requires Titled(d) && d.url != []
    ensures Happens(alias, kin, History([], urls), ImportRun([d], 1)) == History([NewTicket(alias, [], d)], urls + [d.url])
  {
    LoneDraftExactly(alias, 1, kin, [], d);
    assert [d][..0] == [] && Urls([]) == [] && Urls([d]) == [d.url];
    assert [] + [NewTicket(alias, [], d)] == [NewTicket(alias, [], d)];
  }

  lemma {:induction false} ThreeEvents(alias: string, kin: (string, string) -> bool, h: History, a: Event, b: Event, c: Event)
    ensures After(alias, kin, h, [a, b, c]) == Happens(alias, kin, Happens(alias, kin, Happens(alias, kin, h, a), b), c)
  {
    assert [a, b, c][..2] == [a, b] && [a, b][..1] == [a] && [a][..0] == [];
    assert After(alias, kin, h, [a]) == Happens(alias, kin, h, a);
    assert After(alias, kin, h, [a, b]) == Happens(alias, kin, Happens(alias, kin, h, a), b);
  }

  /** and one whose ticket has not, is not. */
  lemma {:induction false} TrackedIssueStays(alias: string, kin: (string, string) -> bool, h: History, d: IssueDraft, cap: nat)
    requires d.url != [] && Tracked(h.tickets, d.url)
    ensures Happens(alias, kin, h, ImportRun([d], cap)) == h
  {
    LoneDraftExactly(alias, cap, kin, h.tickets, d);
    var m := Merged(alias, cap, kin, h.tickets, [d]);
    assert m.taken == [] && m.tickets == h.tickets;
    assert h.urls + Urls(m.taken) == h.urls;
  }

  // ---------------------------------------------------------------- re-running

  /** A title stands among the active titles of the backlog, up to normalisation. */
  ghost predicate Filed(tickets: seq<Ticket>, title: string) {
    exists t :: t in tickets && Active(t) && Normalize(t.title) == Normalize(title)
  }

  ghost predicate AllFiled(tickets: seq<Ticket>, titles: seq<string>) {
    forall x :: x in titles ==> Filed(tickets, x)
  }

  lemma {:induction false} BatchTitlesFiled(c: Setting, tickets: seq<Ticket>, drafts: seq<IssueDraft>)
    ensures var m := Steps(c, Start(tickets), drafts); AllFiled(m.tickets, m.batchTitles)
    decreases |drafts|
  {
    if drafts != [] {
      var n := |drafts| - 1;
      BatchTitlesFiled(c, tickets, drafts[..n]);
      var m, d := Steps(c, Start(tickets), drafts[..n]), drafts[n];
      var m' := Step(c, m, d);
      if m'.taken != m.taken {
        NewTitleFiled(c, m, d);
      }
    }
  }

  lemma FiledGrows(tickets: seq<Ticket>, later: seq<Ticket>, title: string)
    requires Filed(tickets, title) && tickets <= later
    ensures Filed(later, title)
  {
    var t :| t in tickets && Active(t) && Normalize(t.title) == Normalize(title);
    assert t in later;
  }

  lemma NewTitleFiled(c: Setting, m: Merge, d: IssueDraft)
    requires AllFiled(m.tickets, m.batchTitles)
    ensures AllFiled(m.tickets + [NewTicket(c.alias, m.tickets, d)], m.batchTitles + [d.title])
  {
    var t := NewTicket(c.alias, m.tickets, d);
    var now := m.tickets + [t];
    TrimInvariant(d.title);
    assert t in now;
    forall x | x in m.batchTitles + [d.title] ensures Filed(now, x) {
      if x in m.batchTitles {
        FiledGrows(m.tickets, now, x);
      }
    }
  }

  /** A title the first run recognised is recognised by a run that starts where it ended. */
  lemma KnownTitleAgain(c: Setting, c': Setting, m: Merge, m': Merge, d: IssueDraft, tickets: seq<Ticket>, later: seq<Ticket>)
    requires c == SettingOf(c.alias, c.cap, c.kin, tickets) && c' == SettingOf(c.alias, c.cap, c.kin, later)
    requires tickets <= later && AllFiled(later, m.batchTitles) && KnownTitle(c, m, d)
    ensures KnownTitle(c', m', d)
  {
  }

  /** URLs the first run has met are met again: tracked by now, or in the batch once more. */
  ghost predicate UrlsMet(m: Merge, m': Merge, later: seq<Ticket>) {
    forall u :: u in m.batchUrls ==> u in m'.batchUrls || Tracked(later, u)
  }

  /** The second run starts where the first ended, having met the same URLs so far. */
  ghost predicate Shadows(c: Setting, c': Setting, m: Merge, m': Merge, tickets: seq<Ticket>, later: seq<Ticket>) {
    && c == SettingOf(c.alias, c.cap, c.kin, tickets) && c' == SettingOf(c.alias, c.cap, c.kin, later)
    && tickets <= m.tickets <= later
    && AllFiled(later, m.batchTitles)
    && m'.taken == [] && m'.tickets == later && UrlsMet(m, m', later)
  }

  lemma TrackedLater(tickets: seq<Ticket>, later: seq<Ticket>, url: string)
    requires Tracked(tickets, url) && tickets <= later
    ensures Tracked(later, url)
  {
    TrackedGrows(tickets, later[|tickets|..], url);
    assert tickets + later[|tickets|..] == later;
  }

  lemma OwnTitleKnown(c: Setting, m: Merge, d: IssueDraft, later: seq<Ticket>)
    requires c == SettingOf(c.alias, c.cap, c.kin, later) && Filed(later, d.title)
    ensures KnownTitle(c, m, d)
  {
    var t :| t in later && Active(t) && Normalize(t.title) == Normalize(d.title);
    assert t.title in c.active;
  }

  /** A draft the first run imported is recognised, by its URL or at least by its title. */
  lemma ImportedAgain(c: Setting, c': Setting, m: Merge, m': Merge, d: IssueDraft, tickets: seq<Ticket>, later: seq<Ticket>)
    requires Shadows(c, c', m, m', tickets, later)
    requires m.tickets + [NewTicket(c.alias, m.tickets, d)] <= later && Filed(later, d.title)
    ensures KnownTitle(c', m', d) && (d.url != [] ==> Tracked(later, d.url))
  {
    var t := NewTicket(c.alias, m.tickets, d);
    assert later[|m.tickets|] == t && t in later;
    OwnTitleKnown(c', m', d, later);
    if d.url != [] {
      BodyEmbedsUrl(d);
    }
  }

  lemma SkippedAgain(c: Setting, c': Setting, m: Merge, m': Merge, d: IssueDraft, tickets: seq<Ticket>, later: seq<Ticket>)
    requires Shadows(c, c', m, m', tickets, later) && |m.taken| < c.cap
    requires Step(c, m, d).tickets <= later && AllFiled(later, Step(c, m, d).batchTitles)
    ensures Shadows(c, c', Step(c, m, d), Step(c', m', d), tickets, later)
  {
    if Refused(c, m, d) {
    } else if KnownIssue(m, d) {
      if Tracked(m.tickets, d.url) {
        TrackedLater(m.tickets, later, d.url);
      }
    } else if KnownTitle(c, m, d) {
      KnownTitleAgain(c, c', m, m', d, tickets, later);
    } else {
      assert d.title in Step(c, m, d).batchTitles;
      ImportedAgain(c, c', m, m', d, tickets, later);
    }
  }

  ghost predicate Grows(m: Merge, n: Merge) {
    m.tickets <= n.tickets && |m.taken| <= |n.taken|
  }

  lemma {:induction false} LastStepGrows(c: Setting, m: Merge, drafts: seq<IssueDraft>)
    requires drafts != []
    ensures Grows(Steps(c, m, drafts[..|drafts| - 1]), Steps(c, m, drafts))
  {
  }

  lemma GrowsTransitive(a: Merge, b: Merge, c: Merge)
    requires Grows(a, b) && Grows(b, c)
    ensures Grows(a, c)
  {
  }

  lemma {:induction false} LaterStepsGrow(c: Setting, m: Merge, drafts: seq<IssueDraft>, k: nat)
    requires k <= |drafts|
    ensures Grows(Steps(c, m, drafts[..k]), Steps(c, m, drafts))
    decreases |drafts|
  {
    if k < |drafts| {
      var init := drafts[..|drafts| - 1];
      assert init[..k] == drafts[..k];
      LaterStepsGrow(c, m, init, k);
      LastStepGrows(c, m, drafts);
      GrowsTransitive(Steps(c, m, drafts[..k]), Steps(c, m, init), Steps(c, m, drafts));
    } else {
      assert drafts[..k] == drafts;
    }
  }

  lemma {:induction false} ShadowAlong(
    c: Setting, c': Setting, tickets: seq<Ticket>, drafts: seq<IssueDraft>, later: seq<Ticket>, k: nat)
    requires c == SettingOf(c.alias, c.cap, c.kin, tickets) && c' == SettingOf(c.alias, c.cap, c.kin, later)
    requires var m := Steps(c, Start(tickets), drafts); later == m.tickets && |m.taken| < c.cap
    requires k <= |drafts|
    ensures Shadows(c, c', Steps(c, Start(tickets), drafts[..k]), Steps(c', Start(later), drafts[..k]), tickets, later)
    decreases k
  {
    RunAccounts(c, tickets, drafts);
    if k > 0 {
      ShadowAlong(c, c', tickets, drafts, later, k - 1);
      var m, m' := Steps(c, Start(tickets), drafts[..k - 1]), Steps(c', Start(later), drafts[..k - 1]);
      assert drafts[..k][..k - 1] == drafts[..k - 1];
      LaterStepsGrow(c, Start(tickets), drafts, k - 1);
      LaterStepsGrow(c, Start(tickets), drafts, k);
      BatchFiledLater(c, tickets, drafts, k);
      SkippedAgain(c, c', m, m', drafts[k - 1], tickets, later);
    }
  }

  lemma {:induction false} BatchFiledLater(c: Setting, tickets: seq<Ticket>, drafts: seq<IssueDraft>, k: nat)
    requires k <= |drafts|
    ensures AllFiled(Steps(c, Start(tickets), drafts).tickets, Steps(c, Start(tickets), drafts[..k]).batchTitles)
  {
    var m, later := Steps(c, Start(tickets), drafts[..k]), Steps(c, Start(tickets), drafts).tickets;
    BatchTitlesFiled(c, tickets, drafts[..k]);
    LaterStepsGrow(c, Start(tickets), drafts, k);
    forall x | x in m.batchTitles ensures Filed(later, x) {
      FiledGrows(m.tickets, later, x);
    }
  }

  /**
   * A run that ends below its cap is a fixed point: re-running the same drafts
   * imports nothing and leaves the backlog as it is, with or without source URLs.
   */
  lemma RerunImportsNothing(alias: string, cap: nat, kin: (string, string) -> bool, tickets: seq<Ticket>, drafts: seq<IssueDraft>)
    requires |Merged(alias, cap, kin, tickets, drafts).taken| < cap
    ensures var first := Merged(alias, cap, kin, tickets, drafts);
      var second := Merged(alias, cap, kin, first.tickets, drafts);
      second.taken == [] && second.tickets == first.tickets && second.skipped == |drafts|
  {
    var c := SettingOf(alias, cap, kin, tickets);
    var later := Merged(alias, cap, kin, tickets, drafts).tickets;
    var c' := SettingOf(alias, cap, kin, later);
    ShadowAlong(c, c', tickets, drafts, later, |drafts|);
    assert drafts[..|drafts|] == drafts;
    RunAccounts(c', later, drafts);
  }

  // ---------------------------------------------------------------- runs until nothing is left

  /** The normal forms of the drafts' titles. */
  function Norms(drafts: seq<IssueDraft>): (r: seq<string>)
    ensures |r| == |drafts| && forall i :: 0 <= i < |drafts| ==> r[i] == Normalize(drafts[i].title)
  {
    seq(|drafts|, i requires 0 <= i < |drafts| => Normalize(drafts[i].title))
  }

  ghost predicate NormFiled(tickets: seq<Ticket>, norm: string) {
    exists t :: t in tickets && Active(t) && Normalize(t.title) == norm
  }

  /** The titles imported so far: no two alike, all on the board, all from the drafts. */
  ghost predicate Accounted(tickets: seq<Ticket>, log: seq<string>, drafts: seq<IssueDraft>) {
    && NoRepeats(log)
    && (forall x :: x in log ==> NormFiled(tickets, x))
    && (forall x :: x in log ==> x in Norms(drafts))
  }

  /** The batch titles are those of the drafts taken. */
  ghost predicate BatchIsTaken(m: Merge) {
    |m.batchTitles| == |m.taken| && forall i :: 0 <= i < |m.taken| ==> m.batchTitles[i] == m.taken[i].title
  }

  /** A title already imported is never imported again, in this run or a later one. */
  lemma NewTitleIsNew(c: Setting, m: Merge, d: IssueDraft, tickets: seq<Ticket>, log: seq<string>)
    requires c == SettingOf(c.alias, c.cap, c.kin, tickets) && BatchIsTaken(m) && !KnownTitle(c, m, d)
    requires forall x :: x in log ==> NormFiled(tickets, x)
    ensures Normalize(d.title) !in log + Norms(m.taken)
  {
    var norm := Normalize(d.title);
    assert forall t :: t in tickets && Active(t) ==> t.title in c.active;
    forall i | 0 <= i < |m.taken| ensures Norms(m.taken)[i] != norm {
      assert m.batchTitles[i] in m.batchTitles;
    }
  }

  lemma TakenAccounted(c: Setting, m: Merge, d: IssueDraft, tickets: seq<Ticket>, log: seq<string>, drafts: seq<IssueDraft>)
    requires c == SettingOf(c.alias, c.cap, c.kin, tickets) && BatchIsTaken(m) && d in drafts
    requires forall x :: x in log ==> NormFiled(tickets, x)
    requires Accounted(m.tickets, log + Norms(m.taken), drafts)
    ensures var m' := Step(c, m, d); BatchIsTaken(m') && Accounted(m'.tickets, log + Norms(m'.taken), drafts)
  {
    var m' := Step(c, m, d);
    if m'.taken != m.taken {
      var t, norm := NewTicket(c.alias, m.tickets, d), Normalize(d.title);
      NewTitleIsNew(c, m, d, tickets, log);
      assert Norms(m'.taken) == Norms(m.taken) + [norm];
      assert log + Norms(m'.taken) == (log + Norms(m.taken)) + [norm];
      LogGrows(m.tickets, t, log + Norms(m.taken), norm, d, drafts);
    }
  }

  lemma LogGrows(tickets: seq<Ticket>, t: Ticket, log: seq<string>, norm: string, d: IssueDraft, drafts: seq<IssueDraft>)
    requires Accounted(tickets, log, drafts) && norm !in log && d in drafts && norm == Normalize(d.title)
    requires Active(t) && t.title == Trim(d.title)
    ensures Accounted(tickets + [t], log + [norm], drafts)
  {
    TrimInvariant(d.title);
    NoRepeatsConcat(log, [norm]);
    assert t in tickets + [t];
    forall x | x in log + [norm] ensures NormFiled(tickets + [t], x) && x in Norms(drafts) {
      if x in log {
        var old_ :| old_ in tickets && Active(old_) && Normalize(old_.title) == x;
        assert old_ in tickets + [t];
      } else {
        var i :| 0 <= i < |drafts| && drafts[i] == d;
        assert Norms(drafts)[i] == norm;
      }
    }
  }

  lemma {:induction false} RunAccounted(c: Setting, tickets: seq<Ticket>, log: seq<string>, drafts: seq<IssueDraft>, k: nat)
    requires c == SettingOf(c.alias, c.cap, c.kin, tickets) && Accounted(tickets, log, drafts) && k <= |drafts|
    ensures var m := Steps(c, Start(tickets), drafts[..k]);
      BatchIsTaken(m) && Accounted(m.tickets, log + Norms(m.taken), drafts)
    decreases k
  {
    if k == 0 {
      assert drafts[..0] == [] && log + Norms([]) == log;
    } else {
      RunAccounted(c, tickets, log, drafts, k - 1);
      assert drafts[..k][..k - 1] == drafts[..k - 1];
      TakenAccounted(c, Steps(c, Start(tickets), drafts[..k - 1]), drafts[k - 1], tickets, log, drafts);
    }
  }

  /** What every run of a series is given. */
  datatype Source = Source(alias: string, cap: nat, kin: (string, string) -> bool, drafts: seq<IssueDraft>)

  function RunOn(src: Source, tickets: seq<Ticket>): Merge {
    Merged(src.alias, src.cap, src.kin, tickets, src.drafts)
  }

  function NextBacklog(src: Source): seq<Ticket> -> seq<Ticket> {
    (tickets: seq<Ticket>) => RunOn(src, tickets).tickets
  }

  function Iterate<T>(f: T -> T, x: T, n: nat): T {
    if n == 0 then x else f(Iterate(f, x, n - 1))
  }

  lemma {:induction false} IterateSplit<T>(f: T -> T, x: T, k: nat, m: nat)
    ensures Iterate(f, x, k + m) == Iterate(f, Iterate(f, x, k), m)
    decreases m
  {
    if m > 0 {
      IterateSplit(f, x, k, m - 1);
    }
  }

  lemma {:induction false} IterateFixed<T>(f: T -> T, x: T, n: nat)
    requires f(x) == x
    ensures Iterate(f, x, n) == x
    decreases n
  {
    if n > 0 {
      IterateFixed(f, x, n - 1);
    }
  }

  /** Once an iteration has come to rest it stays. */
  lemma {:induction false} IterateRests<T>(f: T -> T, x: T, k: nat, n: nat)
    requires k <= n && f(Iterate(f, x, k)) == Iterate(f, x, k)
    ensures Iterate(f, x, n) == Iterate(f, x, k)
  {
    IterateSplit(f, x, k, n - k);
    IterateFixed(f, Iterate(f, x, k), n - k);
  }

  /** The backlog after `n` runs over the same drafts. */
  function Rounds(src: Source, tickets: seq<Ticket>, n: nat): seq<Ticket> {
    Iterate(NextBacklog(src), tickets, n)
  }

  /** The titles those runs imported. */
  function RoundLog(src: Source, tickets: seq<Ticket>, n: nat): seq<string> {
    if n == 0 then [] else RoundLog(src, tickets, n - 1) + Norms(RunOn(src, Rounds(src, tickets, n - 1)).taken)
  }

  lemma {:induction false} RoundAccounted(src: Source, tickets: seq<Ticket>, log: seq<string>)
    requires Accounted(tickets, log, src.drafts)
    ensures var m := RunOn(src, tickets); Accounted(m.tickets, log + Norms(m.taken), src.drafts)
  {
    RunAccounted(SettingOf(src.alias, src.cap, src.kin, tickets), tickets, log, src.drafts, |src.drafts|);
    assert src.drafts[..|src.drafts|] == src.drafts;
  }

  lemma {:induction false} RoundsAccounted(src: Source, tickets: seq<Ticket>, n: nat)
    ensures Accounted(Rounds(src, tickets, n), RoundLog(src, tickets, n), src.drafts)
    decreases n
  {
    if n > 0 {
      RoundsAccounted(src, tickets, n - 1);
      RoundAccounted(src, Rounds(src, tickets, n - 1), RoundLog(src, tickets, n - 1));
    }
  }

  /** As long as every run fills its cap, the log grows by the cap. */
  lemma {:induction false} FullRounds(src: Source, tickets: seq<Ticket>, n: nat)
    requires forall k :: 0 <= k < n ==> |RunOn(src, Rounds(src, tickets, k)).taken| >= src.cap
    ensures |RoundLog(src, tickets, n)| >= n * src.cap
    decreases n
  {
    if n > 0 {
      FullRounds(src, tickets, n - 1);
      assert |RunOn(src, Rounds(src, tickets, n - 1)).taken| >= src.cap;
      assert n * src.cap == (n - 1) * src.cap + src.cap;
    }
  }

  lemma {:induction false} QuietNext(src: Source, tickets: seq<Ticket>)
    requires |RunOn(src, tickets).taken| < src.cap
    ensures Resting(src, RunOn(src, tickets).tickets)
  {
    RerunImportsNothing(src.alias, src.cap, src.kin, tickets, src.drafts);
  }

  /** A backlog that one run leaves alone, and imports nothing into. */
  ghost predicate Resting(src: Source, tickets: seq<Ticket>) {
    RunOn(src, tickets).taken == [] && RunOn(src, tickets).tickets == tickets
  }

  lemma {:induction false} NextRests(src: Source, tickets: seq<Ticket>, k: nat)
    requires |RunOn(src, Rounds(src, tickets, k)).taken| < src.cap
    ensures Resting(src, Rounds(src, tickets, k + 1))
  {
    var before := Rounds(src, tickets, k);
    QuietNext(src, before);
    assert Rounds(src, tickets, k + 1) == NextBacklog(src)(before);
  }

  lemma RestingIsFixed(src: Source, tickets: seq<Ticket>)
    requires Resting(src, tickets)
    ensures NextBacklog(src)(tickets) == tickets
  {
  }

  lemma RestsAt(src: Source, tickets: seq<Ticket>, k: nat, n: nat)
    requires k < n && Resting(src, Rounds(src, tickets, k + 1))
    ensures Rounds(src, tickets, n) == Rounds(src, tickets, k + 1)
  {
    RestingIsFixed(src, Rounds(src, tickets, k + 1));
    IterateRests(NextBacklog(src), tickets, k + 1, n);
  }

  /** The number of runs that suffices. */
  function Enough(src: Source): nat
    requires src.cap > 0
  {
    |src.drafts| / src.cap + 1
  }

  /** Every one of the first `n` runs fills its cap. */
  ghost predicate AllFull(src: Source, tickets: seq<Ticket>, n: nat) {
    forall k :: 0 <= k < n ==> |RunOn(src, Rounds(src, tickets, k)).taken| >= src.cap
  }

  lemma {:induction false} FullRunsFit(src: Source, tickets: seq<Ticket>, n: nat)
    requires AllFull(src, tickets, n)
    ensures n * src.cap <= |src.drafts|
  {
    FullRounds(src, tickets, n);
    RoundsAccounted(src, tickets, n);
    CoveredIsShorter(RoundLog(src, tickets, n), Norms(src.drafts));
  }

  lemma {:induction false} NotAllFull(src: Source, tickets: seq<Ticket>)
    requires src.cap > 0
    ensures !AllFull(src, tickets, Enough(src))
  {
    MoreThanAll(|src.drafts|, src.cap);
    if AllFull(src, tickets, Enough(src)) {
      FullRunsFit(src, tickets, Enough(src));
    }
  }

  lemma MoreThanAll(total: nat, cap: nat)
    requires cap > 0
    ensures (total / cap + 1) * cap > total
  {
    assert total == total / cap * cap + total % cap;
    assert (total / cap + 1) * cap == total / cap * cap + cap;
  }

  /** The title is covered by an active or a rejected ticket. */
  predicate TitleCovered(src: Source, tickets: seq<Ticket>, d: IssueDraft) {
    var c := SettingOf(src.alias, src.cap, src.kin, tickets);
    Duplicates(src.kin, d.title, c.active) || Duplicates(src.kin, d.title, c.rejected)
  }

  /** Nothing is left to import of the draft: blank, tracked, covered, or the same issue as a covered draft. */
  ghost predicate Settled(src: Source, tickets: seq<Ticket>, d: IssueDraft) {
    || Trim(d.title) == []
    || (d.url != [] && Tracked(tickets, d.url))
    || TitleCovered(src, tickets, d)
    || (d.url != [] && CoveredUrl(src, tickets, d.url))
  }

  /** The loop of a run that has imported nothing: the URLs it has met belong to covered drafts. */
  ghost predicate Quiet(src: Source, tickets: seq<Ticket>, m: Merge) {
    && m.taken == [] && m.tickets == tickets && m.batchTitles == []
    && (forall u :: u in m.batchUrls ==> CoveredUrl(src, tickets, u))
  }

  ghost predicate CoveredUrl(src: Source, tickets: seq<Ticket>, url: string) {
    exists e :: e in src.drafts && e.url == url && TitleCovered(src, tickets, e)
  }

  lemma QuietStep(src: Source, tickets: seq<Ticket>, m: Merge, d: IssueDraft)
    requires src.cap > 0 && Quiet(src, tickets, m) && d in src.drafts
    requires Step(SettingOf(src.alias, src.cap, src.kin, tickets), m, d).taken == []
    ensures Quiet(src, tickets, Step(SettingOf(src.alias, src.cap, src.kin, tickets), m, d))
    ensures Settled(src, tickets, d)
  {
    var c := SettingOf(src.alias, src.cap, src.kin, tickets);
    if !Refused(c, m, d) && !KnownIssue(m, d) {
      assert KnownTitle(c, m, d);
      assert !Duplicates(c.kin, d.title, m.batchTitles) || Normalize(d.title) == [];
    }
  }

  /** The loop of a run before its draft `k`. */
  function Midway(src: Source, tickets: seq<Ticket>, k: nat): Merge
    requires k <= |src.drafts|
  {
    Steps(SettingOf(src.alias, src.cap, src.kin, tickets), Start(tickets), src.drafts[..k])
  }

  lemma {:induction false} NothingTakenMidway(src: Source, tickets: seq<Ticket>, k: nat)
    requires k <= |src.drafts| && RunOn(src, tickets).taken == []
    ensures Midway(src, tickets, k).taken == []
  {
    LaterStepsGrow(SettingOf(src.alias, src.cap, src.kin, tickets), Start(tickets), src.drafts, k);
  }

  lemma {:induction false} MidwayNext(src: Source, tickets: seq<Ticket>, k: nat)
    requires 0 < k <= |src.drafts|
    ensures Midway(src, tickets, k) ==
      Step(SettingOf(src.alias, src.cap, src.kin, tickets), Midway(src, tickets, k - 1), src.drafts[k - 1])
  {
    assert src.drafts[..k][..k - 1] == src.drafts[..k - 1];
  }

  lemma {:induction false} QuietRunSettles(src: Source, tickets: seq<Ticket>, k: nat)
    requires src.cap > 0 && k <= |src.drafts| && RunOn(src, tickets).taken == []
    ensures Quiet(src, tickets, Midway(src, tickets, k))
    ensures forall i :: 0 <= i < k ==> Settled(src, tickets, src.drafts[i])
    decreases k
  {
    if k > 0 {
      QuietRunSettles(src, tickets, k - 1);
      MidwayNext(src, tickets, k);
      NothingTakenMidway(src, tickets, k);
      QuietStep(src, tickets, Midway(src, tickets, k - 1), src.drafts[k - 1]);
    }
  }

  lemma RestSettles(src: Source, tickets: seq<Ticket>)
    requires src.cap > 0 && Resting(src, tickets)
    ensures forall d :: d in src.drafts ==> Settled(src, tickets, d)
  {
    QuietRunSettles(src, tickets, |src.drafts|);
  }

  /**
   * "A re-run picks it up": whatever the cap, runs over the same drafts reach a backlog that all later ones leave
   * alone after at most one run more than the drafts fill, and then no draft is left to import.
   */
  lemma {:induction false} RunsConverge(src: Source, tickets: seq<Ticket>, n: nat)
    requires src.cap > 0 && n >= Enough(src)
    ensures Rounds(src, tickets, n) == Rounds(src, tickets, Enough(src))
    ensures RunOn(src, Rounds(src, tickets, n)).taken == []
    ensures forall d :: d in src.drafts ==> Settled(src, Rounds(src, tickets, n), d)
  {
    NotAllFull(src, tickets);
    var k: nat :| k < Enough(src) && |RunOn(src, Rounds(src, tickets, k)).taken| < src.cap;
    NextRests(src, tickets, k);
    RestsAt(src, tickets, k, n);
    RestsAt(src, tickets, k, Enough(src));
    RestSettles(src, Rounds(src, tickets, n));
  }
}
