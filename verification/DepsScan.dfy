/**
 * Filing dependency-scan findings as remediation tickets: an injective id codec,
 * evidence-based suppression, and what repeated passes do.
 */
module DepsScan {
  import opened Domain
  import opened Sequences
  import opened Text

  const MASTER_EPIC_ID := "DEP-AUDIT-001"
  const ROUTINE_ID_SCHEME := "DEP"
  const CVE_ID_SCHEME := "CVE"
  const ROUTINE_EVIDENCE_LABEL := "scan result"
  const CVE_EVIDENCE_LABEL := "cve finding"
  const SCAN_KIND := "dependency-scan"

  // ---------------------------------------------------------------- the id codec

  predicate IsAlphanumeric(b: Byte) {
    '0' as int <= b <= '9' as int || 'A' as int <= b <= 'Z' as int || 'a' as int <= b <= 'z' as int
  }

  function HexDigit(n: nat): char
    requires n < 16
  {
    if n < 10 then '0' + n as char else 'a' + (n - 10) as char
  }

  /** One byte: itself if alphanumeric, else a fixed-width token. */
  function EncodeByte(b: Byte): string {
    if IsAlphanumeric(b) then [b as char] else ['<', HexDigit(b / 16), HexDigit(b % 16), '>']
  }

  function Encode(bytes: seq<Byte>): string {
    if bytes == [] then [] else EncodeByte(bytes[0]) + Encode(bytes[1..])
  }

  /** The ticket id of a dependency under a scheme. */
  function TicketIdOf(scheme: string, dep: string): string {
    scheme + Encode(Bytes(dep))
  }

  /** `push_hex_byte`: two fixed-width lowercase digits, high nibble first. */
  method PushHexByte(buffer: string, b: Byte) returns (out: string)
    ensures out == buffer + [HexDigit(b / 16), HexDigit(b % 16)]
  {
    out := buffer + [HexDigit(b / 16)];
    out := out + [HexDigit(b % 16)];
  }

  method PushByte(buffer: string, b: Byte) returns (out: string)
    ensures out == buffer + EncodeByte(b)
  {
    if IsAlphanumeric(b) {
      out := buffer + [b as char];
    } else {
      out := PushHexByte(buffer + ['<'], b);
      out := out + ['>'];
    }
  }

  lemma {:induction false} EncodeSnoc(a: seq<Byte>, b: Byte)
    ensures Encode(a + [b]) == Encode(a) + EncodeByte(b)
    decreases |a|
  {
    if a == [] {
      assert a + [b] == [b] && [b][1..] == [];
    } else {
      assert (a + [b])[1..] == a[1..] + [b];
      EncodeSnoc(a[1..], b);
      assert Encode(a + [b]) == EncodeByte(a[0]) + (Encode(a[1..]) + EncodeByte(b));
    }
  }

  /** `ticket_id_for`: the id built byte by byte in one buffer. */
  method TicketIdFor(scheme: string, dep: string) returns (out: string)
    ensures out == TicketIdOf(scheme, dep)
  {
    out := scheme;
    var bytes := Bytes(dep);
    for i := 0 to |bytes|
      invariant out == scheme + Encode(bytes[..i])
    {
      EncodeSnoc(bytes[..i], bytes[i]);
      assert bytes[..i + 1] == bytes[..i] + [bytes[i]];
      out := PushByte(out, bytes[i]);
      assert out == scheme + (Encode(bytes[..i]) + EncodeByte(bytes[i]));
    }
    assert bytes[..|bytes|] == bytes;
  }

  lemma EncodeByteHead(a: Byte, b: Byte, x: string, y: string)
    requires EncodeByte(a) + x == EncodeByte(b) + y
    ensures a == b && x == y
  {
    var s := EncodeByte(a) + x;
    assert s[0] == EncodeByte(a)[0] == EncodeByte(b)[0];
    if !IsAlphanumeric(a) {
      assert s[1] == HexDigit(a / 16) == HexDigit(b / 16);
      assert s[2] == HexDigit(a % 16) == HexDigit(b % 16);
    }
    var n := |EncodeByte(a)|;
    assert x == s[n..] && y == (EncodeByte(b) + y)[n..];
  }

  /** No two byte strings share an encoding. */
  lemma {:induction false} EncodeInjective(a: seq<Byte>, b: seq<Byte>)
    requires Encode(a) == Encode(b)
    ensures a == b
  {
    if a != [] && b != [] {
      EncodeByteHead(a[0], b[0], Encode(a[1..]), Encode(b[1..]));
      EncodeInjective(a[1..], b[1..]);
      assert a == [a[0]] + a[1..] && b == [b[0]] + b[1..];
    }
  }

  lemma {:induction false} EncodeAlphabet(a: seq<Byte>)
    ensures forall c :: c in Encode(a) ==> c != '-'
  {
    if a != [] {
      EncodeAlphabet(a[1..]);
    }
  }

  /** The id names its package and its kind, and is never the epic's. */
  lemma TicketIdsDistinct(dep: string, dep': string, cve: bool, cve': bool)
    ensures TicketIdOf(Scheme(cve), dep) == TicketIdOf(Scheme(cve'), dep') ==> dep == dep' && cve == cve'
    ensures TicketIdOf(Scheme(cve), dep) != MASTER_EPIC_ID
  {
    var id, id' := TicketIdOf(Scheme(cve), dep), TicketIdOf(Scheme(cve'), dep');
    assert id[0] == Scheme(cve)[0] && id'[0] == Scheme(cve')[0];
    assert id[3..] == Encode(Bytes(dep)) && id'[3..] == Encode(Bytes(dep'));
    if id == id' {
      EncodeInjective(Bytes(dep), Bytes(dep'));
      BytesInjective(dep, dep');
    }
    EncodeAlphabet(Bytes(dep));
    assert MASTER_EPIC_ID[3] == '-';
    assert |id| > 3 ==> id[3] in id[3..];
  }

  // ---------------------------------------------------------------- findings and suppression

  datatype BumpTier = PatchBump | MinorBump | MajorBump

  function TierLabel(t: Option<BumpTier>): string {
    match t
    case None => "unknown"
    case Some(PatchBump) => "patch"
    case Some(MinorBump) => "minor"
    case Some(MajorBump) => "major"
  }

  function TierAction(t: Option<BumpTier>): string {
    match t
    case None => "review"
    case Some(PatchBump) => "auto-approve"
    case Some(MinorBump) => "warn"
    case Some(MajorBump) => "hold"
  }

  datatype Finding = Finding(
    package: string,
    currentVersion: string,
    latestVersion: Option<string>,
    tier: Option<BumpTier>,
    urgentCve: Option<string>,
    affectedFiles: seq<string>)
  {
    predicate Cve() { urgentCve.Some? }
  }

  function Scheme(cve: bool): string {
    if cve then CVE_ID_SCHEME else ROUTINE_ID_SCHEME
  }

  function Label(cve: bool): string {
    if cve then CVE_EVIDENCE_LABEL else ROUTINE_EVIDENCE_LABEL
  }

  function IdOf(f: Finding): TicketId {
    TicketIdOf(Scheme(f.Cve()), f.package)
  }

  /** The part of the project state a pass reads and writes. */
  datatype Board = Board(tickets: seq<Ticket>, evidence: map<TicketId, seq<Evidence>>)

  /** Evidence that a remediation of this kind was filed for the package. */
  predicate Matches(e: Evidence, dep: string, cve: bool) {
    e.kind == SCAN_KIND && dep + "@" <= e.detail && e.tag == Label(cve)
  }

  predicate OwnerIsRejected(b: Board, owner: TicketId) {
    var t := Lookup(b.tickets, owner);
    t.Some? && t.value.status.Rejected?
  }

  predicate AlreadyRemediated(b: Board, dep: string, cve: bool) {
    exists owner :: owner in b.evidence && (exists e :: e in b.evidence[owner] && Matches(e, dep, cve))
      && !OwnerIsRejected(b, owner)
  }

  function Latest(f: Finding): string {
    if f.latestVersion.Some? then f.latestVersion.value else "unknown"
  }

  function RemediationTicket(f: Finding): Ticket {
    var files := Join(f.affectedFiles, "\n");
    match f.urgentCve
    case Some(sev) =>
      Ticket(IdOf(f), Bug, "CVE in " + f.package,
        "Dependency " + f.package + "@" + f.currentVersion + " has a " + sev +
        "/critical CVE. Upgrade or vendor-patch required. Affected lockfiles:\n" + files,
        High, Open, [MASTER_EPIC_ID], None)
    case None =>
      Ticket(IdOf(f), Chore, "upgrade " + f.package + " (" + TierLabel(f.tier) + ")",
        "Dependency " + f.package + ": current " + f.currentVersion + " -> latest " + Latest(f) + " (" +
        TierLabel(f.tier) + ", " + TierAction(f.tier) + "). Affected lockfiles:\n" + Trim(files),
        Medium, Pending, [MASTER_EPIC_ID], None)
  }

  /** What the recorded detail says after naming the package. */
  function ScanSuffix(f: Finding): string {
    match f.urgentCve
    case Some(sev) => f.currentVersion + " severity=" + sev
    case None => f.currentVersion + "->" + Latest(f) + " tagged " + TierLabel(f.tier)
  }

  function ScanDetail(f: Finding): string {
    f.package + "@" + ScanSuffix(f)
  }

  function Take(s: string, n: nat): string {
    if |s| <= n then s else s[..n]
  }

  function ScanEvidence(f: Finding): Evidence {
    Evidence(SCAN_KIND, Take(Label(f.Cve()), 120), Take(ScanDetail(f), 1200))
  }

  /** What filing a finding amounts to: its identity, the ticket and the evidence recorded with it. */
  datatype Filing = Filing(package: string, cve: bool, ticket: Ticket, evidence: Evidence)

  function FilingOf(f: Finding): Filing {
    Filing(f.package, f.Cve(), RemediationTicket(f), ScanEvidence(f))
  }

  function Filings(fs: seq<Finding>): seq<Filing> {
    Map(FilingOf, fs)
  }

  /** Why `propose_one` declines a finding. */
  predicate Declined(b: Board, x: Filing) {
    x.ticket.id in Ids(b.tickets) || AlreadyRemediated(b, x.package, x.cve)
  }

  const MAX_EVIDENCE: nat := 6

  function EvidenceOf(b: Board, owner: TicketId): seq<Evidence> {
    if owner in b.evidence then b.evidence[owner] else []
  }

  /** `add_evidence`: appended, then cut to the newest six. */
  function WithEvidence(b: Board, owner: TicketId, e: Evidence): Board {
    b.(evidence := b.evidence[owner := Last(EvidenceOf(b, owner) + [e], MAX_EVIDENCE)])
  }

  function Proposed(b: Board, x: Filing): Board {
    if Declined(b, x) then b
    else WithEvidence(b.(tickets := b.tickets + [x.ticket]), x.ticket.id, x.evidence)
  }

  function Epic(): Ticket {
    Ticket(MASTER_EPIC_ID, Chore, "Dependency Audit master epic",
      "Umbrella for all dependency-health remediation work.", Medium, Pending, [], None)
  }

  function WithEpic(b: Board): Board {
    if MASTER_EPIC_ID in Ids(b.tickets) then b else b.(tickets := b.tickets + [Epic()])
  }

  /** The board after proposing the findings one after the other. */
  function ProposedAll(b: Board, xs: seq<Filing>): Board {
    if xs == [] then b else Proposed(ProposedAll(b, xs[..|xs| - 1]), xs[|xs| - 1])
  }

  /** The ids those proposals filed. */
  function FiledAll(b: Board, xs: seq<Filing>): seq<TicketId> {
    if xs == [] then []
    else
      var n := |xs| - 1;
      FiledAll(b, xs[..n]) + if Declined(ProposedAll(b, xs[..n]), xs[n]) then [] else [xs[n].ticket.id]
  }

  lemma {:induction false} ProposalStep(b: Board, xs: seq<Filing>, k: nat)
    requires k < |xs|
    ensures var before := ProposedAll(b, xs[..k]);
      && ProposedAll(b, xs[..k + 1]) == Proposed(before, xs[k])
      && FiledAll(b, xs[..k + 1]) == FiledAll(b, xs[..k]) + if Declined(before, xs[k]) then [] else [xs[k].ticket.id]
  {
    assert xs[..k + 1][..k] == xs[..k];
  }

  function Applied(b: Board, fs: seq<Finding>): Board {
    if fs == [] then b else ProposedAll(WithEpic(b), Filings(fs))
  }

  function Filed(b: Board, fs: seq<Finding>): seq<TicketId> {
    if fs == [] then [] else FiledAll(WithEpic(b), Filings(fs))
  }

  function View(p: ProjectState): Board
    reads p
  {
    Board(p.tickets, p.ticketEvidence)
  }

  method AddEvidence(p: ProjectState, owner: TicketId, kind: string, tag: string, detail: string)
    modifies p`ticketEvidence
    ensures View(p) == WithEvidence(old(View(p)), owner, Evidence(kind, Take(tag, 120), Take(detail, 1200)))
  {
    var list := if owner in p.ticketEvidence then p.ticketEvidence[owner] else [];
    list := list + [Evidence(kind, Take(tag, 120), Take(detail, 1200))];
    if |list| > MAX_EVIDENCE {
      list := list[|list| - MAX_EVIDENCE..];
    }
    p.ticketEvidence := p.ticketEvidence[owner := list];
  }

  /** `propose_one`: file the finding as its ticket with its evidence, or decline. */
  method ProposeOne(p: ProjectState, f: Finding) returns (filed: Option<TicketId>)
    modifies p`tickets, p`ticketEvidence
    ensures View(p) == Proposed(old(View(p)), FilingOf(f))
    ensures filed == if Declined(old(View(p)), FilingOf(f)) then None else Some(IdOf(f))
  {
    var id := TicketIdFor(Scheme(f.Cve()), f.package);
    if id in Ids(p.tickets) || AlreadyRemediated(View(p), f.package, f.Cve()) {
      return None;
    }
    p.tickets := p.tickets + [RemediationTicket(f)];
    AddEvidence(p, id, SCAN_KIND, Label(f.Cve()), ScanDetail(f));
    return Some(id);
  }

  /** `apply_findings`: nothing for an empty pass, else the epic once and each proposal in turn. */
  method ApplyFindings(p: ProjectState, fs: seq<Finding>) returns (filed: seq<TicketId>)
    modifies p`tickets, p`ticketEvidence
    ensures View(p) == Applied(old(View(p)), fs)
    ensures filed == Filed(old(View(p)), fs)
  {
    filed := [];
    if fs == [] {
      return;
    }
    if MASTER_EPIC_ID !in Ids(p.tickets) {
      p.tickets := p.tickets + [Epic()];
    }
    ghost var start, xs := View(p), Filings(fs);
    for k := 0 to |fs|
      invariant View(p) == ProposedAll(start, xs[..k])
      invariant filed == FiledAll(start, xs[..k])
    {
      ProposalStep(start, xs, k);
      assert xs[k] == FilingOf(fs[k]);
      var id := ProposeOne(p, fs[k]);
      if id.Some? {
        filed := filed + [id.value];
      }
    }
    assert xs[..|fs|] == xs;
  }
}
