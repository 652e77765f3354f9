/**
 * The user dashboard script: `allTickets` (what the server returned) and
 * `filteredTickets` (what the table shows), kept in step by the create,
 * edit and delete handlers, which then refilter and recount.
 */
module DashboardPage {
  import opened Wrappers
  import opened Models
  import opened JsStrings
  import opened JsArrays
  import AdminPage

  /**
   * The callback `applyFilters` hands to `allTickets.filter`; "" means "all".
   * It is the admin page's test with the assignee select on "all".
   */
  function Keeps(status: string, priority: string, t: Ticket): (b: bool)
    ensures b <==> AdminPage.Keeps(AdminPage.Filters(status, priority, ""), t)
  {
    && (status == "" || t.status == status)
    && (priority == "" || t.priority == priority)
  }

  function FilterTickets(tickets: seq<Ticket>, status: string, priority: string): (r: seq<Ticket>)
    ensures IsSubsequence(r, tickets)
    ensures forall t :: t in r <==> t in tickets && Keeps(status, priority, t)
    ensures forall t :: multiset(r)[t] == if Keeps(status, priority, t) then multiset(tickets)[t] else 0
  {
    FilterIsSubsequence(tickets, t => Keeps(status, priority, t));
    Filter(tickets, t => Keeps(status, priority, t))
  }

  /** This page filters exactly like the admin page with its assignee select on "all". */
  lemma SameAsAdminFilter(tickets: seq<Ticket>, status: string, priority: string)
    ensures FilterTickets(tickets, status, priority)
         == AdminPage.FilterTickets(tickets, AdminPage.Filters(status, priority, ""))
  {
    FilterExtensional(tickets, t => Keeps(status, priority, t),
                      t => AdminPage.Keeps(AdminPage.Filters(status, priority, ""), t));
  }

  predicate IsOpen(t: Ticket) {
    t.status == "open"
  }

  /** The four numbers `updateStats` writes into the cards. */
  datatype Stats = Stats(total: nat, open: nat, inProgress: nat, closed: nat)

  /**
   * `updateStats`: counted over `allTickets`, not over the filtered view.
   * Each status card shows how many rows that status filter would keep.
   */
  function ComputeStats(tickets: seq<Ticket>): (s: Stats)
    ensures s.total == |tickets|
    ensures s.open == |FilterTickets(tickets, "open", "")|
    ensures s.inProgress == |FilterTickets(tickets, "in_progress", "")|
    ensures s.closed == |FilterTickets(tickets, "closed", "")|
    ensures s.open + s.inProgress + s.closed <= s.total
  {
    CountDisjoint3(tickets, IsOpen, AdminPage.InProgress, AdminPage.Closed);
    FilterExtensional(tickets, IsOpen, t => Keeps("open", "", t));
    FilterExtensional(tickets, AdminPage.InProgress, t => Keeps("in_progress", "", t));
    FilterExtensional(tickets, AdminPage.Closed, t => Keeps("closed", "", t));
    Stats(|tickets|, Count(tickets, IsOpen), Count(tickets, AdminPage.InProgress), Count(tickets, AdminPage.Closed))
  }

  /**
   * `t.id == ticketId` with the id read back from the edit form as text:
   * when the text is some number's decimal form, it matches exactly the
   * ticket with that id.
   */
  function LooseIdMatch(field: string, t: Ticket): (b: bool)
    ensures forall n :: field == IntToString(n) ==> (b <==> t.id == n)
  {
    StringToNumberOfEveryIntToString();
    StringToNumber(field) == Some(t.id)
  }

  /** `allTickets.findIndex(t => t.id == ticketId)`. */
  function IndexOfIdField(tickets: seq<Ticket>, field: string): (i: int)
    ensures -1 <= i < |tickets|
    ensures i == -1 <==> forall j :: 0 <= j < |tickets| ==> !LooseIdMatch(field, tickets[j])
    ensures i != -1 ==> LooseIdMatch(field, tickets[i])
    ensures i != -1 ==> forall j :: 0 <= j < i ==> !LooseIdMatch(field, tickets[j])
  {
    FindIndex(tickets, t => LooseIdMatch(field, t))
  }

  /**
   * The edit form holds the ticket id written as text; reading it back with
   * `==` finds the first ticket carrying that id.
   */
  lemma EditFormFindsTicket(tickets: seq<Ticket>, id: int)
    ensures var k := IndexOfIdField(tickets, IntToString(id));
      && (k == -1 <==> forall j :: 0 <= j < |tickets| ==> tickets[j].id != id)
      && (k != -1 ==> tickets[k].id == id && forall j :: 0 <= j < k ==> tickets[j].id != id)
  {
    StringToNumberOfIntToString(id);
  }

  /** `allTickets.filter(t => t.id !== ticketId)`. */
  function WithoutId(tickets: seq<Ticket>, id: int): (r: seq<Ticket>)
    ensures IsSubsequence(r, tickets)
    ensures forall t :: t in r <==> t in tickets && t.id != id
    ensures forall t :: multiset(r)[t] == if t.id != id then multiset(tickets)[t] else 0
  {
    FilterIsSubsequence(tickets, (t: Ticket) => t.id != id);
    Filter(tickets, (t: Ticket) => t.id != id)
  }

  class Dashboard {
    var allTickets: seq<Ticket>
    var filteredTickets: seq<Ticket>

    constructor ()
      ensures allTickets == [] && filteredTickets == []
    {
      allTickets := [];
      filteredTickets := [];
    }

    /** `loadTickets` after a successful request: both names refer to the loaded array. */
    method LoadTickets(loaded: seq<Ticket>) returns (stats: Stats)
      modifies this
      ensures allTickets == loaded && filteredTickets == loaded
      ensures stats == ComputeStats(loaded)
    {
      allTickets := loaded;
      filteredTickets := loaded;
      stats := ComputeStats(allTickets);
    }

    /** `applyFilters` with the current values of the two selects. */
    method ApplyFilters(status: string, priority: string)
      modifies this`filteredTickets
      ensures filteredTickets == FilterTickets(allTickets, status, priority)
    {
      filteredTickets := FilterTickets(allTickets, status, priority);
    }

    /**
     * `handleCreateTicket` once the request settles: `created` is the ticket
     * the server returned, None when the request threw (nothing changes).
     */
    method HandleCreateTicket(created: Option<Ticket>, status: string, priority: string)
      returns (stats: Option<Stats>)
      modifies this
      ensures created.None? ==> allTickets == old(allTickets) && filteredTickets == old(filteredTickets) && stats.None?
      ensures created.Some? ==> allTickets == [created.value] + old(allTickets)
      ensures created.Some? ==> filteredTickets == FilterTickets(allTickets, status, priority)
      ensures created.Some? ==> stats == Some(ComputeStats(allTickets))
    {
      stats := None;
      if created.Some? {
        allTickets := [created.value] + allTickets;
        ApplyFilters(status, priority);
        stats := Some(ComputeStats(allTickets));
      }
    }

    /**
     * `handleEditTicket` once the request settles: the first ticket whose id
     * loosely equals the form's id text is replaced; with no match, or when
     * the request threw, the lists and counters are left alone.
     */
    method HandleEditTicket(idField: string, updated: Option<Ticket>, status: string, priority: string)
      returns (stats: Option<Stats>)
      modifies this
      ensures var k := IndexOfIdField(old(allTickets), idField);
        updated.None? || k == -1 ==>
          allTickets == old(allTickets) && filteredTickets == old(filteredTickets) && stats.None?
      ensures var k := IndexOfIdField(old(allTickets), idField);
        updated.Some? && k != -1 ==>
          && allTickets == old(allTickets)[k := updated.value]
          && filteredTickets == FilterTickets(allTickets, status, priority)
          && stats == Some(ComputeStats(allTickets))
    {
      stats := None;
      if updated.Some? {
        var index := IndexOfIdField(allTickets, idField);
        if index != -1 {
          allTickets := allTickets[index := updated.value];
          ApplyFilters(status, priority);
          stats := Some(ComputeStats(allTickets));
        }
      }
    }

    /**
     * `deleteTicket`: when the user confirms and the request succeeds, every
     * ticket with that id leaves `allTickets` and the rest keep their order.
     */
    method DeleteTicket(id: int, confirmed: bool, succeeded: bool, status: string, priority: string)
      returns (stats: Option<Stats>)
      modifies this
      ensures !(confirmed && succeeded) ==>
        allTickets == old(allTickets) && filteredTickets == old(filteredTickets) && stats.None?
      ensures confirmed && succeeded ==>
        && allTickets == WithoutId(old(allTickets), id)
        && filteredTickets == FilterTickets(allTickets, status, priority)
        && stats == Some(ComputeStats(allTickets))
    {
      stats := None;
      if confirmed && succeeded {
        allTickets := WithoutId(allTickets, id);
        ApplyFilters(status, priority);
        stats := Some(ComputeStats(allTickets));
      }
    }
  }

  /** After a delete no ticket with that id is shown or counted. */
  lemma DeletedTicketGone(tickets: seq<Ticket>, id: int, status: string, priority: string)
    ensures forall t :: t in FilterTickets(WithoutId(tickets, id), status, priority) ==> t.id != id
    ensures |WithoutId(tickets, id)| <= |tickets|
  {
  }
}
