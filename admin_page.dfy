/**
 * The admin dashboard script: two module-level arrays, `tickets` (everything
 * loaded) and `filteredTickets` (what the table shows), the filter predicate
 * behind the three selects, the statistics counters and the badge texts.
 */
module AdminPage {
  import opened Wrappers
  import opened Models
  import opened JsStrings
  import opened JsArrays
  import opened JsJson

  /** The values of the status, priority and assignee selects; "" means "all". */
  datatype Filters = Filters(status: string, priority: string, assignee: string)

  const NoFilters := Filters("", "", "")

  /** `ticket.assigned_to` is truthy: present and not the number 0. */
  function HasAssignee(t: Ticket): (b: bool)
    ensures b <==> Truthy(if t.assignedTo.Some? then JNum(t.assignedTo.value) else JNull)
  {
    t.assignedTo.Some? && t.assignedTo.value != 0
  }

  /**
   * The assignee select: "all" keeps everything, "unassigned" the tickets
   * without a truthy assignee, and a user's id those whose assignee id
   * reads back from that text.
   */
  function AssigneeMatches(assignee: string, t: Ticket): (b: bool)
    ensures assignee == "" ==> b
    ensures assignee == "unassigned" ==> (b <==> !HasAssignee(t))
    ensures b && assignee != "" && assignee != "unassigned" ==>
      HasAssignee(t) && StringToNumber(assignee) == Some(t.assignedTo.value)
  {
    StringToNumberOfEveryIntToString();
    if assignee == "" then true
    else if assignee == "unassigned" then !HasAssignee(t)
    else HasAssignee(t) && IntToString(t.assignedTo.value) == assignee
  }

  /**
   * The callback `applyFilters` hands to `tickets.filter`: with every select
   * on "all" each ticket passes; a chosen status or priority must be the
   * ticket's own; the assignee select must match as well.
   */
  function Keeps(f: Filters, t: Ticket): (b: bool)
    ensures f == NoFilters ==> b
    ensures b && f.status != "" ==> t.status == f.status
    ensures b && f.priority != "" ==> t.priority == f.priority
    ensures b ==> AssigneeMatches(f.assignee, t)
    ensures f.status == "" && f.priority == "" ==> (b <==> AssigneeMatches(f.assignee, t))
  {
    && (f.status == "" || t.status == f.status)
    && (f.priority == "" || t.priority == f.priority)
    && AssigneeMatches(f.assignee, t)
  }

  /** The tickets the filters keep, in their original order. */
  function FilterTickets(tickets: seq<Ticket>, f: Filters): (r: seq<Ticket>)
    ensures IsSubsequence(r, tickets)
    ensures forall t :: t in r <==> t in tickets && Keeps(f, t)
    ensures forall t :: multiset(r)[t] == if Keeps(f, t) then multiset(tickets)[t] else 0
  {
    FilterIsSubsequence(tickets, t => Keeps(f, t));
    Filter(tickets, t => Keeps(f, t))
  }

  /** With every select on "all", nothing is filtered out. */
  lemma NoFiltersKeepEverything(tickets: seq<Ticket>)
    ensures FilterTickets(tickets, NoFilters) == tickets
  {
    FilterKeepsAll(tickets, t => Keeps(NoFilters, t));
  }

  /**
   * Choosing a user in the assignee select (its value is the id as text)
   * keeps exactly the tickets assigned to that user.
   */
  lemma AssigneeFilterSelectsUser(t: Ticket, id: int)
    requires id > 0
    ensures AssigneeMatches(IntToString(id), t) <==> t.assignedTo == Some(id)
  {
    var s := IntToString(id);
    assert s == NatToDigits(id) && IsDigit(s[0]);
    assert s != "unassigned" by {
      assert "unassigned"[0] == 'u';
    }
    if AssigneeMatches(s, t) {
      IntToStringInjective(t.assignedTo.value, id);
    }
  }

  predicate Unassigned(t: Ticket) {
    !HasAssignee(t)
  }

  predicate InProgress(t: Ticket) {
    t.status == "in_progress"
  }

  predicate Closed(t: Ticket) {
    t.status == "closed"
  }

  /** The four numbers `updateStats` writes into the cards. */
  datatype AdminStats = AdminStats(total: nat, unassigned: nat, inProgress: nat, closed: nat)

  /** `updateStats`: counted over all loaded tickets, whatever the filters show. */
  function ComputeStats(tickets: seq<Ticket>): (s: AdminStats)
    ensures s.total == |tickets|
    ensures s.unassigned <= s.total
    ensures s.inProgress + s.closed <= s.total
  {
    CountDisjoint(tickets, InProgress, Closed);
    AdminStats(|tickets|, Count(tickets, Unassigned), Count(tickets, InProgress), Count(tickets, Closed))
  }

  /** Each counter is the number of rows the matching filter would keep. */
  lemma StatsCountFilteredRows(tickets: seq<Ticket>)
    ensures ComputeStats(tickets).unassigned == |FilterTickets(tickets, Filters("", "", "unassigned"))|
    ensures ComputeStats(tickets).inProgress == |FilterTickets(tickets, Filters("in_progress", "", ""))|
    ensures ComputeStats(tickets).closed == |FilterTickets(tickets, Filters("closed", "", ""))|
  {
    FilterExtensional(tickets, Unassigned, t => Keeps(Filters("", "", "unassigned"), t));
    FilterExtensional(tickets, InProgress, t => Keeps(Filters("in_progress", "", ""), t));
    FilterExtensional(tickets, Closed, t => Keeps(Filters("closed", "", ""), t));
  }

  /** Counting over an array with one ticket put in front. */
  lemma {:induction false} CountPrepend(t: Ticket, tickets: seq<Ticket>, p: Ticket -> bool)
    ensures Count([t] + tickets, p) == Count(tickets, p) + (if p(t) then 1 else 0)
  {
    assert ([t] + tickets)[1..] == tickets;
  }

  /** Prepending a ticket raises the total by one and each counter by one exactly when it applies. */
  lemma StatsAfterPrepend(t: Ticket, tickets: seq<Ticket>)
    ensures ComputeStats([t] + tickets).total == ComputeStats(tickets).total + 1
    ensures ComputeStats([t] + tickets).unassigned == ComputeStats(tickets).unassigned + (if HasAssignee(t) then 0 else 1)
    ensures ComputeStats([t] + tickets).inProgress == ComputeStats(tickets).inProgress + (if InProgress(t) then 1 else 0)
    ensures ComputeStats([t] + tickets).closed == ComputeStats(tickets).closed + (if Closed(t) then 1 else 0)
  {
    CountPrepend(t, tickets, Unassigned);
    CountPrepend(t, tickets, InProgress);
    CountPrepend(t, tickets, Closed);
  }

  /** `capitalize`: the first character upper-cased, the rest untouched. */
  function Capitalize(s: string): (r: string)
    ensures |r| == |s|
    ensures s != [] ==> r[0] == UpperChar(s[0]) && r[1..] == s[1..]
  {
    if s == [] then [] else [UpperChar(s[0])] + s[1..]
  }

  lemma CapitalizeIdempotent(s: string)
    ensures Capitalize(Capitalize(s)) == Capitalize(s)
  {
  }

  /**
   * The status badge: the first underscore becomes a space and the first
   * character is upper-cased; every other character is kept.
   */
  function StatusLabel(status: string): (r: string)
    ensures |r| == |status|
    ensures var k := IndexOf(status, "_");
      forall i :: 0 <= i < |status| ==>
        r[i] == (if i == k then ' ' else if i == 0 then UpperChar(status[0]) else status[i])
  {
    var k := IndexOf(status, "_");
    var replaced := ReplaceFirst(status, "_", " ");
    assert |replaced| == |status|;
    assert forall i :: 0 <= i < |status| ==> replaced[i] == (if i == k then ' ' else status[i]);
    Capitalize(replaced)
  }

  /** `indexOf` of a one-character pattern finds the first position holding that character. */
  lemma {:induction false} IndexOfChar(s: string, c: char, k: int)
    requires -1 <= k < |s|
    requires k != -1 ==> s[k] == c
    requires forall i :: 0 <= i < |s| && (k == -1 || i < k) ==> s[i] != c
    ensures IndexOf(s, [c]) == k
  {
    var i := IndexOf(s, [c]);
    if k != -1 {
      assert OccursAt(s, [c], k);
    }
    if i != -1 {
      assert s[i..i + 1][0] == s[i];
    }
  }

  lemma OpenBadge()
    ensures StatusLabel("open") == "Open"
  {
    IndexOfChar("open", '_', -1);
  }

  lemma InProgressBadge()
    ensures StatusLabel("in_progress") == "In progress"
  {
    var s := "in_progress";
    IndexOfChar(s, '_', 2);
    assert ReplaceFirst(s, "_", " ") == s[..2] + " " + s[3..];
    assert s[..2] + " " + s[3..] == "in progress";
    assert Capitalize("in progress") == "In progress";
  }

  lemma ClosedBadge()
    ensures StatusLabel("closed") == "Closed"
  {
    IndexOfChar("closed", '_', -1);
  }

  /** The three statuses the application uses read Open, In progress and Closed. */
  lemma StatusBadges()
    ensures StatusLabel("open") == "Open"
    ensures StatusLabel("in_progress") == "In progress"
    ensures StatusLabel("closed") == "Closed"
  {
    OpenBadge();
    InProgressBadge();
    ClosedBadge();
  }

  /** The priority badge: `URGENT` for high and urgent tickets, otherwise the capitalised priority. */
  function PriorityLabel(priority: string): (r: string)
    ensures priority == "high" || priority == "urgent" ==> r == "URGENT"
    ensures priority != "high" && priority != "urgent" ==> r == Capitalize(priority)
  {
    if priority == "high" || priority == "urgent" then "URGENT" else Capitalize(priority)
  }

  /** Among the four priorities the forms offer, the badge reads `URGENT` exactly for high and urgent. */
  lemma PriorityBadges()
    ensures PriorityLabel("low") == "Low" && PriorityLabel("medium") == "Medium"
    ensures PriorityLabel("high") == "URGENT" && PriorityLabel("urgent") == "URGENT"
  {
    assert Capitalize("low") == "Low";
    assert Capitalize("medium") == "Medium";
  }

  /**
   * The description line under a title: empty for an empty description,
   * else the first 50 characters, followed by `...` when something was cut.
   */
  function DescriptionPreview(d: string): (r: string)
    ensures d == [] ==> r == []
    ensures |d| <= 50 ==> r == d
    ensures |d| > 50 ==> r == d[..50] + "..."
  {
    if d == [] then [] else if |d| > 50 then d[..50] + "..." else d
  }

  /**
   * The preview is at most 53 characters, begins with the description's
   * first 50 (or all of it), and runs past 50 characters exactly when the
   * description was cut.
   */
  lemma PreviewIsBounded(d: string)
    ensures |DescriptionPreview(d)| <= 53
    ensures |d| <= 50 ==> DescriptionPreview(d)[..|d|] == d
    ensures |d| > 50 ==> DescriptionPreview(d)[..50] == d[..50]
    ensures |DescriptionPreview(d)| > 50 <==> |d| > 50
  {
  }

  class AdminDashboard {
    var tickets: seq<Ticket>
    var filteredTickets: seq<Ticket>

    constructor ()
      ensures tickets == [] && filteredTickets == []
    {
      tickets := [];
      filteredTickets := [];
    }

    /** `loadTickets` after an ok response: the table shows a copy of everything loaded. */
    method LoadTickets(loaded: seq<Ticket>) returns (stats: AdminStats)
      modifies this
      ensures tickets == loaded && filteredTickets == loaded
      ensures stats == ComputeStats(loaded)
    {
      tickets := loaded;
      filteredTickets := tickets;
      stats := ComputeStats(tickets);
    }

    /** `applyFilters`: the view becomes the tickets the current selects keep. */
    method ApplyFilters(f: Filters)
      modifies this`filteredTickets
      ensures filteredTickets == FilterTickets(tickets, f)
    {
      filteredTickets := FilterTickets(tickets, f);
    }

    /** `clearFilters`: every select back to "all" and the view back to every ticket. */
    method ClearFilters() returns (f: Filters)
      modifies this`filteredTickets
      ensures f == NoFilters
      ensures filteredTickets == tickets && filteredTickets == FilterTickets(tickets, f)
    {
      f := NoFilters;
      filteredTickets := tickets;
      NoFiltersKeepEverything(tickets);
    }

    /**
     * The `onTicketCreated` callback as written: the ticket is put in front
     * and the counters refreshed, then the call to the undefined
     * `filterTickets` throws, so the view is left as it was.
     */
    method OnTicketCreatedAsWritten(t: Ticket) returns (stats: AdminStats, threw: bool)
      modifies this`tickets
      ensures tickets == [t] + old(tickets)
      ensures stats == ComputeStats(tickets)
      ensures threw && filteredTickets == old(filteredTickets)
    {
      tickets := [t] + tickets;
      stats := ComputeStats(tickets);
      threw := true;
    }

    /** The callback as intended: put in front, count, and refilter with the current selects. */
    method OnTicketCreated(t: Ticket, f: Filters) returns (stats: AdminStats)
      modifies this
      ensures tickets == [t] + old(tickets)
      ensures forall i :: 0 <= i < |old(tickets)| ==> tickets[i + 1] == old(tickets)[i]
      ensures stats == ComputeStats(tickets)
      ensures filteredTickets == FilterTickets(tickets, f)
      ensures Keeps(f, t) ==> t in filteredTickets
    {
      tickets := [t] + tickets;
      stats := ComputeStats(tickets);
      ApplyFilters(f);
    }
  }

  /**
   * After the as-written callback the view still lacks a new ticket the
   * selects would show: it was not in the old filtered list, it is in the
   * list the intended callback computes.
   */
  lemma CreatedTicketMissingFromView(t: Ticket, tickets: seq<Ticket>, f: Filters)
    requires Keeps(f, t) && t !in tickets
    ensures t !in FilterTickets(tickets, f)
    ensures t in FilterTickets([t] + tickets, f)
  {
  }
}
