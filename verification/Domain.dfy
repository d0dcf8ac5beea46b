/** The ticket aggregate, reduced to the fields the modelled decisions read. */
module Domain {

  datatype Option<+T> = None | Some(value: T)

  datatype Status =
    | Pending | Ready | InProgress | Done | Documented | Rejected | OnHold
    | Open | Fixed | Verified

  datatype TicketType = Feature | Bug | Chore

  datatype Priority = Low | Medium | High

  type TicketId = string

  datatype Ticket = Ticket(
    id: TicketId,
    kind: TicketType,
    title: string,
    description: string,
    priority: Priority,
    status: Status,
    dependsOn: seq<TicketId>,
    parent: Option<TicketId>)

  /** One piece of evidence attached to a ticket. */
  datatype Evidence = Evidence(kind: string, tag: string, detail: string)

  /** One entry of the lesson efficacy ledger. */
  datatype LessonRecord = LessonRecord(
    text: string,
    at: string,
    cycle: nat,
    reRecordings: nat,
    id: Option<string>,
    source: Option<string>)

  /** The mutable project state, as far as the modelled operations touch it. */
  class ProjectState {
    var alias: string
    var cycle: nat
    var tickets: seq<Ticket>
    var ticketEvidence: map<TicketId, seq<Evidence>>
    var lessons: seq<string>
    var lessonRecords: seq<LessonRecord>

    constructor ()
      ensures alias == "" && cycle == 0 && tickets == [] && ticketEvidence == map[]
      ensures lessons == [] && lessonRecords == []
    {
      alias, cycle, tickets, ticketEvidence := "", 0, [], map[];
      lessons, lessonRecords := [], [];
    }
  }

  /** Ids of the tickets of a state, the universe every graph walk is bounded by. */
  function Ids(tickets: seq<Ticket>): set<TicketId> {
    set t | t in tickets :: t.id
  }

  /** What `ProjectState::validate` guarantees of every persisted state. */
  ghost predicate UniqueIds(tickets: seq<Ticket>) {
    forall i, j :: 0 <= i < j < |tickets| ==> tickets[i].id != tickets[j].id
  }

  /** `ProjectState::ticket`: the first ticket carrying the id. */
  function Lookup(tickets: seq<Ticket>, id: TicketId): (r: Option<Ticket>)
    ensures r.Some? <==> id in Ids(tickets)
    ensures r.Some? ==> r.value in tickets && r.value.id == id
  {
    if tickets == [] then None
    else if tickets[0].id == id then Some(tickets[0])
    else
      assert tickets == [tickets[0]] + tickets[1..];
      Lookup(tickets[1..], id)
  }

  /** Of several tickets carrying the id the earliest is found. */
  lemma {:induction false} LookupIsFirst(tickets: seq<Ticket>, i: nat)
    requires i < |tickets| && forall j :: 0 <= j < i ==> tickets[j].id != tickets[i].id
    ensures Lookup(tickets, tickets[i].id) == Some(tickets[i])
    decreases i
  {
    if i > 0 {
      LookupIsFirst(tickets[1..], i - 1);
    }
  }

  /** With unique ids the lookup is the inverse of reading a ticket's id. */
  lemma {:induction false} LookupAt(tickets: seq<Ticket>, i: nat)
    requires UniqueIds(tickets) && i < |tickets|
    ensures Lookup(tickets, tickets[i].id) == Some(tickets[i])
  {
    LookupIsFirst(tickets, i);
  }

  lemma UniqueAppend(ts: seq<Ticket>, t: Ticket)
    requires UniqueIds(ts) && t.id !in Ids(ts)
    ensures UniqueIds(ts + [t])
  {
    forall i | 0 <= i < |ts| ensures ts[i].id != t.id {
      assert ts[i] in ts;
    }
  }

  /** The order of `Priority`, as `priority_rank` spells it out. */
  function PriorityRank(p: Priority): nat {
    match p
    case Low => 0
    case Medium => 1
    case High => 2
  }

  /** A bug-burn floor parks what lies below it. */
  predicate BelowFloor(floor: Option<Priority>, p: Priority) {
    floor.Some? && PriorityRank(p) < PriorityRank(floor.value)
  }

  /** `transition_allowed`. */
  predicate TransitionAllowed(kind: TicketType, from: Status, to: Status) {
    if from == to then true
    else if kind.Bug? then
      match from
      case Open => to.InProgress? || to.Rejected? || to.OnHold?
      case InProgress => to.Fixed? || to.Rejected?
      case Fixed => to.Verified? || to.Open?
      case OnHold => to.Open? || to.Rejected?
      case Verified => to.Open?
      case _ => false
    else
      match from
      case Pending => to.Ready? || to.Rejected? || to.OnHold?
      case Ready => to.InProgress? || to.Pending? || to.Rejected? || to.OnHold?
      case InProgress => to.Done?
      case Done => to.Documented? || to.Pending?
      case OnHold => to.Pending? || to.Rejected?
      case Documented => to.Pending?
      case _ => false
  }

  /** The shipped-complete set shared by the DEV gate and the radar. */
  predicate Resolved(status: Status) {
    status.Done? || status.Documented? || status.Verified?
  }
}
