/** What passes of the dependency scan keep, and when a repeated pass is a no-op. */
module ScanPasses {
  import opened Domain
  import opened Sequences
  import opened Text
  import opened DepsScan

  // ---------------------------------------------------------------- unique ids over runs

  datatype Op =
    | Pass(findings: seq<Finding>)
    | SetStatus(index: nat, status: Status)
    | Attach(owner: TicketId, evidence: Evidence)

  function Do(b: Board, op: Op): Board {
    match op
    case Pass(fs) => Applied(b, fs)
    case SetStatus(i, status) =>
      if i < |b.tickets| then b.(tickets := b.tickets[i := b.tickets[i].(status := status)]) else b
    case Attach(owner, e) => WithEvidence(b, owner, e)
  }

  function DoAll(b: Board, ops: seq<Op>): Board {
    if ops == [] then b else Do(DoAll(b, ops[..|ops| - 1]), ops[|ops| - 1])
  }

  lemma IdsAppend(ts: seq<Ticket>, t: Ticket)
    ensures Ids(ts + [t]) == Ids(ts) + {t.id}
  {
  }

  lemma {:induction false} ProposalsKeepUnique(b: Board, xs: seq<Filing>)
    requires UniqueIds(b.tickets)
    ensures UniqueIds(ProposedAll(b, xs).tickets)
    decreases |xs|
  {
    if xs != [] {
      var n := |xs| - 1;
      ProposalsKeepUnique(b, xs[..n]);
      var before := ProposedAll(b, xs[..n]);
      if !Declined(before, xs[n]) {
        UniqueAppend(before.tickets, xs[n].ticket);
      }
    }
  }

  /** Any run of passes, status changes and unrelated evidence keeps ticket ids unique. */
  lemma {:induction false} RunsKeepUnique(b: Board, ops: seq<Op>)
    requires UniqueIds(b.tickets)
    ensures UniqueIds(DoAll(b, ops).tickets)
    decreases |ops|
  {
    if ops != [] {
      var n := |ops| - 1;
      RunsKeepUnique(b, ops[..n]);
      var before := DoAll(b, ops[..n]);
      if ops[n].Pass? {
        if MASTER_EPIC_ID !in Ids(before.tickets) {
          UniqueAppend(before.tickets, Epic());
        }
        ProposalsKeepUnique(WithEpic(before), Filings(ops[n].findings));
      }
    }
  }

  // ---------------------------------------------------------------- filings

  /** A package name as registries allow it: non-empty, '@' at most as its first character. */
  predicate WellNamed(package: string) {
    package != [] && forall i :: 1 <= i < |package| ==> package[i] != '@'
  }

  /** What every filing computed from a finding satisfies. */
  ghost predicate Proper(x: Filing) {
    && x.ticket.id == TicketIdOf(Scheme(x.cve), x.package)
    && !x.ticket.status.Rejected?
    && x.evidence.tag == Label(x.cve)
    && exists rest :: x.evidence.detail <= x.package + "@" + rest
  }

  ghost predicate AllProper(xs: seq<Filing>) {
    forall x :: x in xs ==> Proper(x)
  }

  /** Proper filings of packages named as registries allow. */
  ghost predicate AllNamed(xs: seq<Filing>) {
    forall x :: x in xs ==> Proper(x) && WellNamed(x.package)
  }

  ghost predicate AllWellNamed(fs: seq<Finding>) {
    forall f :: f in fs ==> WellNamed(f.package)
  }

  lemma FilingIsProper(f: Finding)
    ensures Proper(FilingOf(f))
  {
    assert ScanEvidence(f).detail <= f.package + "@" + ScanSuffix(f);
    assert |CVE_EVIDENCE_LABEL| == 11 && |ROUTINE_EVIDENCE_LABEL| == 11;
  }

  lemma FilingsAreProper(fs: seq<Finding>)
    ensures AllProper(Filings(fs))
    ensures AllWellNamed(fs) ==> AllNamed(Filings(fs))
  {
    forall x | x in Filings(fs) ensures Proper(x) && (AllWellNamed(fs) ==> WellNamed(x.package)) {
      var i :| 0 <= i < |fs| && Filings(fs)[i] == x;
      FilingIsProper(fs[i]);
      assert fs[i] in fs;
    }
  }

  /** The evidence of one well-named package never passes for another's. */
  lemma PackageDelimited(p: string, q: string, rest: string)
    requires WellNamed(p) && WellNamed(q) && q + "@" <= p + "@" + rest
    ensures p == q
  {
    var d := p + "@" + rest;
    assert d[|q|] == (q + "@")[|q|] == '@' && d[|p|] == '@';
    assert d[..|p|] == p && (q + "@")[..|q|] == q;
  }

  lemma OwnEvidenceOnly(x: Filing, dep: string, cve: bool)
    requires Proper(x) && WellNamed(x.package) && WellNamed(dep) && Matches(x.evidence, dep, cve)
    ensures dep == x.package && cve == x.cve
  {
    var rest :| x.evidence.detail <= x.package + "@" + rest;
    PackageDelimited(x.package, dep, rest);
    assert CVE_EVIDENCE_LABEL[0] != ROUTINE_EVIDENCE_LABEL[0];
  }

  // ---------------------------------------------------------------- declined stays declined

  lemma {:induction false} LookupAppend(ts: seq<Ticket>, t: Ticket, id: TicketId)
    ensures Lookup(ts + [t], id) == if Lookup(ts, id).Some? then Lookup(ts, id) else if t.id == id then Some(t) else None
    decreases |ts|
  {
    if ts == [] {
      assert ts + [t] == [t];
    } else {
      assert (ts + [t])[1..] == ts[1..] + [t];
      LookupAppend(ts[1..], t, id);
    }
  }

  /** A pass in which every finding is declined changes nothing and files nothing. */
  lemma {:induction false} AllDeclined(b: Board, xs: seq<Filing>)
    requires forall x :: x in xs ==> Declined(b, x)
    ensures ProposedAll(b, xs) == b && FiledAll(b, xs) == []
    decreases |xs|
  {
    if xs != [] {
      assert xs[|xs| - 1] in xs;
      AllDeclined(b, xs[..|xs| - 1]);
    }
  }

  lemma ProposalAdds(b: Board, x: Filing)
    ensures Ids(b.tickets) <= Ids(Proposed(b, x).tickets)
    ensures Declined(Proposed(b, x), x)
  {
    IdsAppend(b.tickets, x.ticket);
  }

  /** A full evidence ledger always belongs to a ticket that exists. */
  ghost predicate NoFullOrphan(b: Board) {
    forall owner :: owner in b.evidence && |b.evidence[owner]| >= MAX_EVIDENCE ==> owner in Ids(b.tickets)
  }

  lemma ProposalKeepsEvidence(b: Board, x: Filing, owner: TicketId, e: Evidence)
    requires NoFullOrphan(b) && owner in b.evidence && e in b.evidence[owner]
    ensures owner in Proposed(b, x).evidence && e in Proposed(b, x).evidence[owner]
  {
  }

  lemma ProposalKeepsRemediated(b: Board, x: Filing, dep: string, cve: bool)
    requires NoFullOrphan(b) && Proper(x) && AlreadyRemediated(b, dep, cve)
    ensures AlreadyRemediated(Proposed(b, x), dep, cve)
  {
    var owner :| owner in b.evidence && (exists e :: e in b.evidence[owner] && Matches(e, dep, cve))
      && !OwnerIsRejected(b, owner);
    var e :| e in b.evidence[owner] && Matches(e, dep, cve);
    ProposalKeepsEvidence(b, x, owner, e);
    LookupAppend(b.tickets, x.ticket, owner);
  }

  lemma ProposalKeepsDeclined(b: Board, x: Filing, y: Filing)
    requires NoFullOrphan(b) && Proper(x)
    ensures NoFullOrphan(Proposed(b, x))
    ensures Declined(b, y) ==> Declined(Proposed(b, x), y)
  {
    IdsAppend(b.tickets, x.ticket);
    if AlreadyRemediated(b, y.package, y.cve) {
      ProposalKeepsRemediated(b, x, y.package, y.cve);
    }
  }

  lemma {:induction false} PassKeepsDeclined(b: Board, xs: seq<Filing>, y: Filing)
    requires NoFullOrphan(b) && AllProper(xs)
    ensures NoFullOrphan(ProposedAll(b, xs))
    ensures Declined(b, y) || y in xs ==> Declined(ProposedAll(b, xs), y)
    decreases |xs|
  {
    if xs != [] {
      var n := |xs| - 1;
      PassKeepsDeclined(b, xs[..n], y);
      ProposalKeepsDeclined(ProposedAll(b, xs[..n]), xs[n], y);
      ProposalAdds(ProposedAll(b, xs[..n]), xs[n]);
    }
  }

  lemma {:induction false} PassAdds(b: Board, xs: seq<Filing>)
    ensures Ids(b.tickets) <= Ids(ProposedAll(b, xs).tickets)
    decreases |xs|
  {
    if xs != [] {
      PassAdds(b, xs[..|xs| - 1]);
      ProposalAdds(ProposedAll(b, xs[..|xs| - 1]), xs[|xs| - 1]);
    }
  }

  /** The second of two identical passes files nothing and changes nothing. */
  ghost predicate Idempotent(b: Board, fs: seq<Finding>) {
    Filed(Applied(b, fs), fs) == [] && Applied(Applied(b, fs), fs) == Applied(b, fs)
  }

  /** It suffices that the first pass leaves every finding declined. */
  lemma IdempotentIfDeclined(b: Board, fs: seq<Finding>)
    requires forall x :: x in Filings(fs) ==> Declined(ProposedAll(WithEpic(b), Filings(fs)), x)
    ensures Idempotent(b, fs)
  {
    if fs != [] {
      IdsAppend(b.tickets, Epic());
      PassAdds(WithEpic(b), Filings(fs));
      AllDeclined(Applied(b, fs), Filings(fs));
    }
  }

  /** Idempotence for every list of findings, repetitions and odd names included. */
  lemma HousedIsIdempotent(b: Board, fs: seq<Finding>)
    requires NoFullOrphan(b)
    ensures Idempotent(b, fs)
  {
    IdsAppend(b.tickets, Epic());
    FilingsAreProper(fs);
    forall x | x in Filings(fs) ensures Declined(ProposedAll(WithEpic(b), Filings(fs)), x) {
      PassKeepsDeclined(WithEpic(b), Filings(fs), x);
    }
    IdempotentIfDeclined(b, fs);
  }

  // ---------------------------------------------------------------- what a pass leaves

  /** Owners whose ticket the pass filed. */
  predicate New(b: Board, b': Board, owner: TicketId) {
    owner in Ids(b'.tickets) && owner !in Ids(b.tickets)
  }

  /** `e` is what filing some well-named package under `owner` records. */
  ghost predicate Records(owner: TicketId, e: Evidence) {
    exists x :: Proper(x) && WellNamed(x.package) && x.ticket.id == owner && x.evidence == e
  }

  /** `now` is `past` with one more piece of evidence, cut to the newest six. */
  ghost predicate OneMore(owner: TicketId, past: seq<Evidence>, now: seq<Evidence>) {
    exists e :: Records(owner, e) && now == Last(past + [e], MAX_EVIDENCE)
  }

  /** From `b` to `b'` a pass only filed tickets, each with one more piece of evidence. */
  ghost predicate Grown(b: Board, b': Board) {
    && Ids(b.tickets) <= Ids(b'.tickets)
    && (forall owner :: OwnerIsRejected(b', owner) <==> OwnerIsRejected(b, owner))
    && (forall owner :: !New(b, b', owner) ==> EvidenceOf(b', owner) == EvidenceOf(b, owner))
    && (forall owner :: New(b, b', owner) ==> OneMore(owner, EvidenceOf(b, owner), EvidenceOf(b', owner)))
  }

  lemma GrownByFiling(b: Board, b': Board, x: Filing)
    requires Grown(b, b') && Proper(x) && WellNamed(x.package) && !Declined(b', x)
    ensures Grown(b, Proposed(b', x))
  {
    var b2 := Proposed(b', x);
    IdsAppend(b'.tickets, x.ticket);
    forall owner ensures OwnerIsRejected(b2, owner) <==> OwnerIsRejected(b, owner) {
      LookupAppend(b'.tickets, x.ticket, owner);
      assert OwnerIsRejected(b', owner) <==> OwnerIsRejected(b, owner);
    }
    forall owner
      ensures if New(b, b2, owner) then OneMore(owner, EvidenceOf(b, owner), EvidenceOf(b2, owner))
        else EvidenceOf(b2, owner) == EvidenceOf(b, owner)
    {
      if owner == x.ticket.id {
        assert !New(b, b', owner);
        assert Records(owner, x.evidence);
      } else {
        assert New(b, b', owner) <==> New(b, b2, owner);
        assert EvidenceOf(b2, owner) == EvidenceOf(b', owner);
      }
    }
  }

  lemma {:induction false} PassGrows(b: Board, xs: seq<Filing>)
    requires AllNamed(xs)
    ensures Grown(b, ProposedAll(b, xs))
    decreases |xs|
  {
    if xs != [] {
      var n := |xs| - 1;
      PassGrows(b, xs[..n]);
      if !Declined(ProposedAll(b, xs[..n]), xs[n]) {
        GrownByFiling(b, ProposedAll(b, xs[..n]), xs[n]);
      }
    }
  }

  /** Entry `i` of the ledger of `owner` suppresses the finding. */
  ghost predicate Witness(b: Board, owner: TicketId, i: nat, dep: string, cve: bool) {
    i < |EvidenceOf(b, owner)| && Matches(EvidenceOf(b, owner)[i], dep, cve) && !OwnerIsRejected(b, owner)
  }

  lemma WitnessRemediates(b: Board, owner: TicketId, i: nat, dep: string, cve: bool)
    requires Witness(b, owner, i, dep, cve)
    ensures AlreadyRemediated(b, dep, cve)
  {
    assert EvidenceOf(b, owner)[i] in b.evidence[owner];
  }

  lemma RemediatedHasWitness(b: Board, dep: string, cve: bool) returns (owner: TicketId, i: nat)
    requires AlreadyRemediated(b, dep, cve)
    ensures Witness(b, owner, i, dep, cve)
  {
    owner :| owner in b.evidence && (exists e :: e in b.evidence[owner] && Matches(e, dep, cve))
      && !OwnerIsRejected(b, owner);
    var e :| e in b.evidence[owner] && Matches(e, dep, cve);
    i :| 0 <= i < |b.evidence[owner]| && b.evidence[owner][i] == e;
  }

  /** The entry is not rotated out when the pass appends to its ledger. */
  predicate Survives(b: Board, b': Board, owner: TicketId, i: nat) {
    New(b, b', owner) ==> i + MAX_EVIDENCE > |EvidenceOf(b, owner)|
  }

  /** An entry that is not rotated out is still there. */
  lemma OneMoreKeeps(owner: TicketId, past: seq<Evidence>, now: seq<Evidence>, i: nat) returns (k: nat)
    requires OneMore(owner, past, now) && i < |past| && i + MAX_EVIDENCE > |past|
    ensures k < |now| && now[k] == past[i]
  {
    var e :| Records(owner, e) && now == Last(past + [e], MAX_EVIDENCE);
    k := i + |now| - |past + [e]|;
    LastAt(past + [e], MAX_EVIDENCE, k);
  }

  /** What is there now was there before, or is what the filing recorded. */
  lemma OneMoreComesFrom(owner: TicketId, past: seq<Evidence>, now: seq<Evidence>, k: nat) returns (i: nat)
    requires OneMore(owner, past, now) && k < |now|
    ensures (i < |past| && i + MAX_EVIDENCE > |past| && now[k] == past[i]) || Records(owner, now[k])
  {
    var e :| Records(owner, e) && now == Last(past + [e], MAX_EVIDENCE);
    var all := past + [e];
    LastAt(all, MAX_EVIDENCE, k);
    i := k + |all| - |now|;
    if i < |past| {
      assert all[i] == past[i];
    } else {
      assert all[i] == e;
    }
  }

  lemma SurvivorSuppresses(b: Board, b': Board, owner: TicketId, i: nat, dep: string, cve: bool)
    requires Grown(b, b') && Witness(b, owner, i, dep, cve) && Survives(b, b', owner, i)
    ensures AlreadyRemediated(b', dep, cve)
  {
    var k := i;
    if New(b, b', owner) {
      k := OneMoreKeeps(owner, EvidenceOf(b, owner), EvidenceOf(b', owner), i);
    }
    WitnessRemediates(b', owner, k, dep, cve);
  }

  lemma NotItsOwn(owner: TicketId, e: Evidence, dep: string, cve: bool)
    requires Records(owner, e) && WellNamed(dep) && Matches(e, dep, cve)
    ensures owner == TicketIdOf(Scheme(cve), dep)
  {
    var x :| Proper(x) && WellNamed(x.package) && x.ticket.id == owner && x.evidence == e;
    OwnEvidenceOnly(x, dep, cve);
  }

  lemma SuppressedBySurvivor(b: Board, b': Board, dep: string, cve: bool) returns (owner: TicketId, i: nat)
    requires Grown(b, b') && WellNamed(dep) && AlreadyRemediated(b', dep, cve)
    requires TicketIdOf(Scheme(cve), dep) !in Ids(b'.tickets)
    ensures Witness(b, owner, i, dep, cve) && Survives(b, b', owner, i)
  {
    var k;
    owner, k := RemediatedHasWitness(b', dep, cve);
    i := k;
    if New(b, b', owner) {
      i := OneMoreComesFrom(owner, EvidenceOf(b, owner), EvidenceOf(b', owner), k);
      if Records(owner, EvidenceOf(b', owner)[k]) {
        NotItsOwn(owner, EvidenceOf(b', owner)[k], dep, cve);
      }
    }
  }

  // ---------------------------------------------------------------- idempotence, exactly

  /** Some well-named finding could be filed under `owner` right now. */
  ghost predicate Fileable(b: Board, owner: TicketId) {
    owner !in Ids(b.tickets) &&
    exists dep, cve :: WellNamed(dep) && TicketIdOf(Scheme(cve), dep) == owner && !AlreadyRemediated(b, dep, cve)
  }

  /** Filing under `owner` would rotate entry `i` out of its ledger. */
  ghost predicate Doomed(b: Board, owner: TicketId, i: nat) {
    Fileable(b, owner) && i + MAX_EVIDENCE <= |EvidenceOf(b, owner)|
  }

  /** The finding has no ticket and is held back by evidence alone. */
  ghost predicate HeldBack(b: Board, dep: string, cve: bool) {
    WellNamed(dep) && TicketIdOf(Scheme(cve), dep) !in Ids(b.tickets) && AlreadyRemediated(b, dep, cve)
  }

  ghost predicate HasLastingWitness(b: Board, dep: string, cve: bool) {
    exists owner, i :: Witness(b, owner, i, dep, cve) && !Doomed(b, owner, i)
  }

  /** Whatever is held back has a witness no filing can rotate out. */
  ghost predicate Robust(b: Board) {
    forall dep, cve :: HeldBack(b, dep, cve) ==> HasLastingWitness(b, dep, cve)
  }

  /** The pass filed only what was fileable at its start. */
  ghost predicate FiledFileable(b: Board, b': Board) {
    forall owner :: New(b, b', owner) ==> Fileable(b, owner)
  }

  lemma RobustKeeps(b: Board, b': Board, dep: string, cve: bool)
    requires Robust(b) && Grown(b, b') && FiledFileable(b, b') && HeldBack(b, dep, cve)
    ensures AlreadyRemediated(b', dep, cve)
  {
    assert HasLastingWitness(b, dep, cve);
    var owner, i :| Witness(b, owner, i, dep, cve) && !Doomed(b, owner, i);
    SurvivorSuppresses(b, b', owner, i, dep, cve);
  }

  lemma RobustProposal(b: Board, b': Board, x: Filing)
    requires Robust(b) && Grown(b, b') && FiledFileable(b, b') && Proper(x) && WellNamed(x.package)
    ensures FiledFileable(b, Proposed(b', x))
  {
    if !Declined(b', x) {
      IdsAppend(b'.tickets, x.ticket);
      if HeldBack(b, x.package, x.cve) {
        RobustKeeps(b, b', x.package, x.cve);
      }
      assert Fileable(b, x.ticket.id);
    }
  }

  lemma {:induction false} RobustPass(b: Board, xs: seq<Filing>)
    requires Robust(b) && AllNamed(xs)
    ensures FiledFileable(b, ProposedAll(b, xs))
    decreases |xs|
  {
    if xs != [] {
      var n := |xs| - 1;
      RobustPass(b, xs[..n]);
      PassGrows(b, xs[..n]);
      RobustProposal(b, ProposedAll(b, xs[..n]), xs[n]);
    }
  }

  /** What is declined stays declined while the pass goes on. */
  lemma DeclinedLater(b: Board, before: Board, after: Board, x: Filing)
    requires Robust(b) && Proper(x) && WellNamed(x.package)
    requires Grown(b, before) && Grown(b, after) && Ids(before.tickets) <= Ids(after.tickets)
    requires FiledFileable(b, after) && Declined(before, x)
    ensures Declined(after, x)
  {
    if x.ticket.id !in Ids(after.tickets) {
      var owner, i := SuppressedBySurvivor(b, before, x.package, x.cve);
      WitnessRemediates(b, owner, i, x.package, x.cve);
      RobustKeeps(b, after, x.package, x.cve);
    }
  }

  lemma NextProposal(b: Board, before: Board, x: Filing, y: Filing)
    requires Robust(b) && Grown(b, before) && FiledFileable(b, before)
    requires Proper(x) && WellNamed(x.package) && Proper(y) && WellNamed(y.package)
    requires Declined(before, y)
    ensures Declined(Proposed(before, x), y)
  {
    if !Declined(before, x) {
      GrownByFiling(b, before, x);
      RobustProposal(b, before, x);
      ProposalAdds(before, x);
      DeclinedLater(b, before, Proposed(before, x), y);
    }
  }

  /** In a robust state every finding a pass met is declined at its end. */
  lemma {:induction false} RobustDeclines(b: Board, xs: seq<Filing>, k: nat)
    requires Robust(b) && AllNamed(xs) && k < |xs|
    ensures Declined(ProposedAll(b, xs), xs[k])
    decreases |xs|
  {
    var n := |xs| - 1;
    if k == n {
      ProposalAdds(ProposedAll(b, xs[..n]), xs[n]);
    } else {
      RobustDeclines(b, xs[..n], k);
      PassGrows(b, xs[..n]);
      RobustPass(b, xs[..n]);
      NextProposal(b, ProposedAll(b, xs[..n]), xs[n], xs[k]);
    }
  }

  lemma EpicNeutral(b: Board, dep: string, cve: bool)
    ensures AlreadyRemediated(WithEpic(b), dep, cve) <==> AlreadyRemediated(b, dep, cve)
    ensures forall owner :: EvidenceOf(WithEpic(b), owner) == EvidenceOf(b, owner)
    ensures forall owner :: OwnerIsRejected(WithEpic(b), owner) <==> OwnerIsRejected(b, owner)
    ensures TicketIdOf(Scheme(cve), dep) in Ids(WithEpic(b).tickets) <==> TicketIdOf(Scheme(cve), dep) in Ids(b.tickets)
  {
    TicketIdsDistinct(dep, dep, cve, cve);
    IdsAppend(b.tickets, Epic());
    forall owner ensures OwnerIsRejected(WithEpic(b), owner) <==> OwnerIsRejected(b, owner) {
      LookupAppend(b.tickets, Epic(), owner);
    }
  }

  lemma FileableWithEpic(b: Board, owner: TicketId)
    ensures Fileable(WithEpic(b), owner) <==> Fileable(b, owner)
  {
    if Fileable(b, owner) {
      var dep, cve :| WellNamed(dep) && TicketIdOf(Scheme(cve), dep) == owner && !AlreadyRemediated(b, dep, cve);
      EpicNeutral(b, dep, cve);
    }
    if Fileable(WithEpic(b), owner) {
      var dep, cve :| WellNamed(dep) && TicketIdOf(Scheme(cve), dep) == owner && !AlreadyRemediated(WithEpic(b), dep, cve);
      EpicNeutral(b, dep, cve);
    }
  }

  lemma LastingWithEpic(b: Board, dep: string, cve: bool)
    ensures HeldBack(WithEpic(b), dep, cve) <==> HeldBack(b, dep, cve)
    ensures HasLastingWitness(WithEpic(b), dep, cve) <==> HasLastingWitness(b, dep, cve)
  {
    EpicNeutral(b, dep, cve);
    forall owner, i: nat
      ensures Witness(WithEpic(b), owner, i, dep, cve) <==> Witness(b, owner, i, dep, cve)
      ensures Doomed(WithEpic(b), owner, i) <==> Doomed(b, owner, i)
    {
      FileableWithEpic(b, owner);
    }
  }

  lemma RobustIsIdempotent(b: Board, fs: seq<Finding>)
    requires Robust(b) && AllWellNamed(fs)
    ensures Idempotent(b, fs)
  {
    forall dep, cve | HeldBack(WithEpic(b), dep, cve) ensures HasLastingWitness(WithEpic(b), dep, cve) {
      LastingWithEpic(b, dep, cve);
    }
    FilingsAreProper(fs);
    forall x | x in Filings(fs) ensures Declined(ProposedAll(WithEpic(b), Filings(fs)), x) {
      var k :| 0 <= k < |Filings(fs)| && Filings(fs)[k] == x;
      RobustDeclines(WithEpic(b), Filings(fs), k);
    }
    IdempotentIfDeclined(b, fs);
  }

  /** A bare finding for a package and kind. */
  function Bare(dep: string, cve: bool): Finding {
    Finding(dep, "", None, None, if cve then Some("high") else None, [])
  }

  /** No finding here is suppressed by evidence. */
  ghost predicate AllUnsuppressed(b: Board, xs: seq<Filing>) {
    forall x :: x in xs ==> !AlreadyRemediated(b, x.package, x.cve)
  }

  ghost predicate Covers(xs: seq<Filing>, owner: TicketId) {
    exists x :: x in xs && x.ticket.id == owner
  }

  /** Findings that would file a ticket under each of `owners` where that is possible. */
  lemma {:induction false} Rivals(b: Board, owners: set<TicketId>) returns (gs: seq<Finding>)
    ensures AllWellNamed(gs) && AllUnsuppressed(b, Filings(gs))
    ensures forall owner :: owner in owners && Fileable(b, owner) ==> Covers(Filings(gs), owner)
    decreases owners
  {
    gs := [];
    if owners != {} {
      var owner :| owner in owners;
      var rest := Rivals(b, owners - {owner});
      gs := rest;
      if Fileable(b, owner) {
        var dep, cve :| WellNamed(dep) && TicketIdOf(Scheme(cve), dep) == owner && !AlreadyRemediated(b, dep, cve);
        gs := rest + [Bare(dep, cve)];
        MapSnoc(FilingOf, rest, Bare(dep, cve));
        OneMoreRival(b, Filings(rest), FilingOf(Bare(dep, cve)));
      }
    }
  }

  lemma OneMoreRival(b: Board, xs: seq<Filing>, x: Filing)
    requires AllUnsuppressed(b, xs) && !AlreadyRemediated(b, x.package, x.cve)
    ensures AllUnsuppressed(b, xs + [x])
    ensures forall owner :: Covers(xs, owner) || owner == x.ticket.id ==> Covers(xs + [x], owner)
  {
    assert forall y :: y in xs + [x] <==> y in xs || y == x;
  }

  lemma UnsuppressedFiled(b: Board, b': Board, x: Filing)
    requires Grown(b, b') && Proper(x) && WellNamed(x.package) && !AlreadyRemediated(b, x.package, x.cve)
    ensures x.ticket.id in Ids(Proposed(b', x).tickets)
  {
    IdsAppend(b'.tickets, x.ticket);
    if Declined(b', x) && x.ticket.id !in Ids(b'.tickets) {
      var owner, i := SuppressedBySurvivor(b, b', x.package, x.cve);
      WitnessRemediates(b, owner, i, x.package, x.cve);
    }
  }

  /** What no evidence suppresses at the start has its ticket at the end. */
  lemma {:induction false} RivalFiled(b: Board, xs: seq<Filing>, k: nat)
    requires AllNamed(xs) && k < |xs| && !AlreadyRemediated(b, xs[k].package, xs[k].cve)
    ensures xs[k].ticket.id in Ids(ProposedAll(b, xs).tickets)
    decreases |xs|
  {
    var n := |xs| - 1;
    var before := ProposedAll(b, xs[..n]);
    if k == n {
      PassGrows(b, xs[..n]);
      UnsuppressedFiled(b, before, xs[n]);
    } else {
      RivalFiled(b, xs[..n], k);
      ProposalAdds(before, xs[n]);
    }
  }

  /** A pass files nothing but the ids of its findings. */
  lemma {:induction false} FilesOnlyIts(b: Board, xs: seq<Filing>, id: TicketId)
    requires New(b, ProposedAll(b, xs), id)
    ensures Covers(xs, id)
    decreases |xs|
  {
    if xs != [] {
      var n := |xs| - 1;
      IdsAppend(ProposedAll(b, xs[..n]).tickets, xs[n].ticket);
      if New(b, ProposedAll(b, xs[..n]), id) {
        FilesOnlyIts(b, xs[..n], id);
        var x :| x in xs[..n] && x.ticket.id == id;
        assert x in xs;
      } else {
        assert xs[n] in xs;
      }
    }
  }

  lemma {:induction false} DeclinedHead(b: Board, x: Filing, xs: seq<Filing>)
    requires Declined(b, x)
    ensures ProposedAll(b, [x] + xs) == ProposedAll(b, xs)
    decreases |xs|
  {
    var all := [x] + xs;
    if xs == [] {
      assert all[..0] == [] && all[0] == x;
    } else {
      assert all[..|all| - 1] == [x] + xs[..|xs| - 1];
      DeclinedHead(b, x, xs[..|xs| - 1]);
    }
  }

  lemma {:induction false} HeadFiled(b: Board, xs: seq<Filing>)
    requires xs != [] && !Declined(b, xs[0])
    ensures FiledAll(b, xs) != []
    decreases |xs|
  {
    if |xs| > 1 {
      HeadFiled(b, xs[..|xs| - 1]);
    } else {
      assert xs[..0] == [];
    }
  }

  /** Filing every rival rotates out every doomed witness, and the finding comes back. */
  lemma {:induction false} RivalsExpose(b: Board, x: Filing, xs: seq<Filing>)
    requires Proper(x) && HeldBack(b, x.package, x.cve) && !HasLastingWitness(b, x.package, x.cve)
    requires AllNamed(xs) && AllUnsuppressed(b, xs)
    requires forall owner :: owner in b.evidence && Fileable(b, owner) ==> Covers(xs, owner)
    ensures !Declined(ProposedAll(b, xs), x)
  {
    var b', id := ProposedAll(b, xs), x.ticket.id;
    PassGrows(b, xs);
    if id in Ids(b'.tickets) {
      FilesOnlyIts(b, xs, id);
      var y :| y in xs && y.ticket.id == id;
      TicketIdsDistinct(x.package, y.package, x.cve, y.cve);
    } else if AlreadyRemediated(b', x.package, x.cve) {
      var owner, i := SuppressedBySurvivor(b, b', x.package, x.cve);
      assert Doomed(b, owner, i);
      var y :| y in xs && y.ticket.id == owner;
      var k :| 0 <= k < |xs| && xs[k] == y;
      RivalFiled(b, xs, k);
    }
  }

  /** The pass that met the finding before its rivals is not idempotent. */
  lemma {:induction false} ExposedFails(b: Board, fs: seq<Finding>, x: Filing, xs: seq<Filing>)
    requires Filings(fs) == [x] + xs && Declined(WithEpic(b), x) && !Declined(ProposedAll(WithEpic(b), xs), x)
    ensures !Idempotent(b, fs)
  {
    var start := WithEpic(b);
    DeclinedHead(start, x, xs);
    IdsAppend(b.tickets, Epic());
    PassAdds(start, xs);
    HeadFiled(ProposedAll(start, xs), [x] + xs);
  }

  lemma FragileFails(b: Board) returns (fs: seq<Finding>)
    requires !Robust(b)
    ensures AllWellNamed(fs) && !Idempotent(b, fs)
  {
    var dep, cve :| HeldBack(b, dep, cve) && !HasLastingWitness(b, dep, cve);
    var start := WithEpic(b);
    LastingWithEpic(b, dep, cve);
    var gs := Rivals(start, start.evidence.Keys);
    FilingsAreProper(gs);
    var x := BareHead(dep, cve, gs);
    RivalsExpose(start, x, Filings(gs));
    fs := [Bare(dep, cve)] + gs;
    ExposedFails(b, fs, x, Filings(gs));
  }

  lemma BareHead(dep: string, cve: bool, gs: seq<Finding>) returns (x: Filing)
    ensures Filings([Bare(dep, cve)] + gs) == [x] + Filings(gs)
    ensures Proper(x) && x.package == dep && x.cve == cve
  {
    var f := Bare(dep, cve);
    MapCons(FilingOf, f, gs);
    FilingIsProper(f);
    x := FilingOf(f);
  }

  /**
   * Over well-named packages, a repeated pass is a no-op for every list of findings
   * exactly when no finding is held back only by evidence that filing another
   * ticket would rotate out of a full ledger left without its ticket.
   */
  lemma IdempotentExactlyWhenRobust(b: Board)
    ensures (forall fs :: AllWellNamed(fs) ==> Idempotent(b, fs)) <==> Robust(b)
  {
    if Robust(b) {
      forall fs | AllWellNamed(fs) ensures Idempotent(b, fs) {
        RobustIsIdempotent(b, fs);
      }
    } else {
      var fs := FragileFails(b);
    }
  }

  /** The ledger of the absent ticket of `a` is full, and its oldest entry is all that suppresses `b`. */
  function FullOrphan(): Board {
    var note := Evidence("note", "", "");
    Board([], map["DEPa" := [Evidence(SCAN_KIND, ROUTINE_EVIDENCE_LABEL, "b@1"), note, note, note, note, note]])
  }

  lemma FullOrphanLedger()
    ensures TicketIdOf("DEP", "a") == "DEPa"
    ensures Witness(FullOrphan(), "DEPa", 0, "b", false)
    ensures forall owner, i: nat :: Witness(FullOrphan(), owner, i, "b", false) ==> owner == "DEPa" && i == 0
    ensures !AlreadyRemediated(FullOrphan(), "a", false)
  {
    assert "a"[1..] == "" && Bytes("a") == [97] && [97][1..] == [] && Encode([97]) == "a";
    assert "b" + "@" <= "b@1" by { assert "b@1"[..2] == "b@"; }
    assert "note"[0] != SCAN_KIND[0];
    assert ("a" + "@")[0] != "b@1"[0];
  }

  /** So the documented idempotence does fail, though only on such left-over evidence. */
  lemma FullOrphanFails() returns (fs: seq<Finding>)
    ensures AllWellNamed(fs) && !Idempotent(FullOrphan(), fs)
  {
    var b := FullOrphan();
    FullOrphanLedger();
    WitnessRemediates(b, "DEPa", 0, "b", false);
    assert WellNamed("a") && Fileable(b, "DEPa");
    assert HeldBack(b, "b", false) && !HasLastingWitness(b, "b", false);
    fs := FragileFails(b);
  }

  // ---------------------------------------------------------------- one ticket per finding

  /** Findings for distinct packages or kinds, with names as registries allow them. */
  ghost predicate DistinctFindings(fs: seq<Finding>) {
    && AllWellNamed(fs)
    && forall i, j :: 0 <= i < j < |fs| ==> fs[i].package != fs[j].package || fs[i].Cve() != fs[j].Cve()
  }

  ghost predicate DistinctFilings(xs: seq<Filing>) {
    && AllNamed(xs)
    && forall i, j :: 0 <= i < j < |xs| ==> xs[i].package != xs[j].package || xs[i].cve != xs[j].cve
  }

  /** No scan has left evidence here, */
  ghost predicate NoScanEvidence(b: Board) {
    forall owner, e :: owner in b.evidence && e in b.evidence[owner] ==> e.kind != SCAN_KIND
  }

  /** and no ticket already carries one of the ids. */
  ghost predicate NoClash(b: Board, xs: seq<Filing>) {
    forall x :: x in xs ==> x.ticket.id !in Ids(b.tickets)
  }

  function IdsOf(xs: seq<Filing>): seq<TicketId> {
    seq(|xs|, i requires 0 <= i < |xs| => xs[i].ticket.id)
  }

  function TicketsOf(xs: seq<Filing>): seq<Ticket> {
    seq(|xs|, i requires 0 <= i < |xs| => xs[i].ticket)
  }

  lemma {:induction false} NotDeclined(b: Board, xs: seq<Filing>, x: Filing)
    requires AllNamed(xs) && Proper(x) && WellNamed(x.package)
    requires NoScanEvidence(b) && x.ticket.id !in Ids(b.tickets)
    requires forall y :: y in xs ==> y.package != x.package || y.cve != x.cve
    ensures !Declined(ProposedAll(b, xs), x)
  {
    var b' := ProposedAll(b, xs);
    PassGrows(b, xs);
    if x.ticket.id in Ids(b'.tickets) {
      FilesOnlyIts(b, xs, x.ticket.id);
      var y :| y in xs && y.ticket.id == x.ticket.id;
      TicketIdsDistinct(x.package, y.package, x.cve, y.cve);
    } else if AlreadyRemediated(b', x.package, x.cve) {
      var owner, i := SuppressedBySurvivor(b, b', x.package, x.cve);
    }
  }

  lemma DistinctSnoc(b: Board, ys: seq<Filing>, x: Filing)
    requires DistinctFilings(ys + [x]) && NoClash(b, ys + [x])
    ensures DistinctFilings(ys) && NoClash(b, ys)
    ensures Proper(x) && WellNamed(x.package) && x.ticket.id !in Ids(b.tickets)
    ensures forall y :: y in ys ==> y.package != x.package || y.cve != x.cve
  {
    var xs := ys + [x];
    assert xs[|ys|] == x && x in xs;
    assert forall i :: 0 <= i < |ys| ==> xs[i] == ys[i];
    assert forall y :: y in ys ==> y in xs;
  }

  lemma FilingsDistinct(fs: seq<Finding>)
    requires DistinctFindings(fs)
    ensures DistinctFilings(Filings(fs))
  {
    FilingsAreProper(fs);
    var xs := Filings(fs);
    forall i | 0 <= i < |fs| ensures xs[i].package == fs[i].package && xs[i].cve == fs[i].Cve() {
      assert xs[i] == FilingOf(fs[i]);
    }
  }

  lemma {:induction false} OneTicketMore(b: Board, ys: seq<Filing>, x: Filing)
    requires FiledAll(b, ys) == IdsOf(ys) && ProposedAll(b, ys).tickets == b.tickets + TicketsOf(ys)
    requires !Declined(ProposedAll(b, ys), x)
    ensures FiledAll(b, ys + [x]) == IdsOf(ys + [x])
    ensures ProposedAll(b, ys + [x]).tickets == b.tickets + TicketsOf(ys + [x])
  {
    assert (ys + [x])[..|ys|] == ys;
    assert IdsOf(ys + [x]) == IdsOf(ys) + [x.ticket.id];
    assert TicketsOf(ys + [x]) == TicketsOf(ys) + [x.ticket];
  }

  lemma {:induction false} OneTicketEach(b: Board, xs: seq<Filing>)
    requires DistinctFilings(xs) && NoScanEvidence(b) && NoClash(b, xs)
    ensures FiledAll(b, xs) == IdsOf(xs)
    ensures ProposedAll(b, xs).tickets == b.tickets + TicketsOf(xs)
    decreases |xs|
  {
    if xs != [] {
      var ys, x := xs[..|xs| - 1], xs[|xs| - 1];
      assert xs == ys + [x];
      DistinctSnoc(b, ys, x);
      NotDeclined(b, ys, x);
      OneTicketEach(b, ys);
      OneTicketMore(b, ys, x);
    }
  }

  /** On a state no scan has touched, exactly one ticket is filed per finding, in order, under one epic. */
  lemma FirstScanFilesEach(b: Board, fs: seq<Finding>)
    requires fs != [] && DistinctFindings(fs) && NoScanEvidence(b) && NoClash(b, Filings(fs))
    ensures Filed(b, fs) == IdsOf(Filings(fs)) && NoRepeats(Filed(b, fs))
    ensures Applied(b, fs).tickets == WithEpic(b).tickets + TicketsOf(Filings(fs))
  {
    var xs := Filings(fs);
    FilingsDistinct(fs);
    forall x | x in xs ensures x.ticket.id !in Ids(WithEpic(b).tickets) {
      EpicNeutral(b, x.package, x.cve);
    }
    OneTicketEach(WithEpic(b), xs);
    IdsDistinct(xs);
  }

  lemma IdsDistinct(xs: seq<Filing>)
    requires DistinctFilings(xs)
    ensures NoRepeats(IdsOf(xs))
  {
    forall i, j | 0 <= i < j < |xs| ensures IdsOf(xs)[i] != IdsOf(xs)[j] {
      assert xs[i] in xs && xs[j] in xs;
      TicketIdsDistinct(xs[i].package, xs[j].package, xs[i].cve, xs[j].cve);
    }
  }
}
