/**
 * The Complaints screen: three tabs (pending, verified, rejected), each
 * listing one bucket of complaints narrowed by a search box and a date
 * selector, with the number of listed complaints shown on the tab.
 *
 * The date selector does not compare dates: it looks for words in the
 * relative-time text ("2 hours ago", "1 week ago"), and is modelled that way.
 */
module Complaints {
  import opened Strings
  import opened Lists

  /** A complaint; `userName` is the nested `user.name`. */
  datatype Complaint = Complaint(
    id: string,
    title: string,
    description: string,
    userName: string,
    date: string,
    status: string)

  /** `filterBySearch`: an empty query matches; otherwise the lower-cased query
      must occur in the lower-cased title, description or user name. */
  predicate MatchesSearch(c: Complaint, searchQuery: string)
  {
    searchQuery == "" ||
    var query := Lower(searchQuery);
    Contains(Lower(c.title), query) || Contains(Lower(c.description), query) || Contains(Lower(c.userName), query)
  }

  /** `filterByDate`, as written. */
  predicate MatchesDate(c: Complaint, dateFilter: string)
  {
    if dateFilter == "all" then true
    else if dateFilter == "today" then Contains(c.date, "hour")
    else if dateFilter == "week" then !Contains(c.date, "week")
    else if dateFilter == "month" then true
    else true
  }

  /** The date filter rejects a complaint in exactly two cases: "today" when
      its date text lacks "hour", and "week" when its date text has "week".
      Every other value, "all" and "month" included, keeps every complaint. */
  lemma DateFilterRejects(c: Complaint, dateFilter: string)
    ensures !MatchesDate(c, dateFilter) <==>
              (dateFilter == "today" && !Contains(c.date, "hour")) ||
              (dateFilter == "week" && Contains(c.date, "week"))
    ensures dateFilter !in {"today", "week"} ==> MatchesDate(c, dateFilter)
  {
  }

  /** The predicate each tab passes to `filter`. */
  function Keep(searchQuery: string, dateFilter: string): Complaint -> bool
  {
    c => MatchesSearch(c, searchQuery) && MatchesDate(c, dateFilter)
  }

  /** One list of complaints per tab. */
  datatype Tabs = Tabs(pending: seq<Complaint>, verified: seq<Complaint>, rejected: seq<Complaint>)

  /** `filteredPending`, `filteredVerified` and `filteredRejected`: each tab
      lists, in bucket order, the complaints of its bucket that pass both filters. */
  function FilteredTabs(buckets: Tabs, searchQuery: string, dateFilter: string): (r: Tabs)
    ensures IsSubsequence(r.pending, buckets.pending)
    ensures IsSubsequence(r.verified, buckets.verified)
    ensures IsSubsequence(r.rejected, buckets.rejected)
    ensures forall i :: 0 <= i < |r.pending| ==> MatchesSearch(r.pending[i], searchQuery) && MatchesDate(r.pending[i], dateFilter)
    ensures forall i :: 0 <= i < |r.verified| ==> MatchesSearch(r.verified[i], searchQuery) && MatchesDate(r.verified[i], dateFilter)
    ensures forall i :: 0 <= i < |r.rejected| ==> MatchesSearch(r.rejected[i], searchQuery) && MatchesDate(r.rejected[i], dateFilter)
    ensures forall x :: multiset(r.pending)[x] == if MatchesSearch(x, searchQuery) && MatchesDate(x, dateFilter) then multiset(buckets.pending)[x] else 0
    ensures forall x :: multiset(r.verified)[x] == if MatchesSearch(x, searchQuery) && MatchesDate(x, dateFilter) then multiset(buckets.verified)[x] else 0
    ensures forall x :: multiset(r.rejected)[x] == if MatchesSearch(x, searchQuery) && MatchesDate(x, dateFilter) then multiset(buckets.rejected)[x] else 0
  {
    var keep := Keep(searchQuery, dateFilter);
    FilterCount(buckets.pending, keep);
    FilterCount(buckets.verified, keep);
    FilterCount(buckets.rejected, keep);
    Tabs(Filter(buckets.pending, keep), Filter(buckets.verified, keep), Filter(buckets.rejected, keep))
  }

  /** The numbers shown on the three tabs. */
  datatype Badges = Badges(pending: nat, verified: nat, rejected: nat)

  function BadgeCounts(t: Tabs): Badges
  {
    Badges(|t.pending|, |t.verified|, |t.rejected|)
  }

  /** A tab's number never exceeds the size of its bucket. */
  lemma BadgesBounded(buckets: Tabs, searchQuery: string, dateFilter: string)
    ensures var b := BadgeCounts(FilteredTabs(buckets, searchQuery, dateFilter));
            b.pending <= |buckets.pending| && b.verified <= |buckets.verified| && b.rejected <= |buckets.rejected|
  {
    var t := FilteredTabs(buckets, searchQuery, dateFilter);
    SubsequenceLength(t.pending, buckets.pending);
    SubsequenceLength(t.verified, buckets.verified);
    SubsequenceLength(t.rejected, buckets.rejected);
  }

  /** A complaint of a bucket is listed on that bucket's tab exactly when both filters match it. */
  lemma TabMembership(buckets: Tabs, searchQuery: string, dateFilter: string, c: Complaint)
    ensures var t := FilteredTabs(buckets, searchQuery, dateFilter);
            && (c in t.pending <==> c in buckets.pending && MatchesSearch(c, searchQuery) && MatchesDate(c, dateFilter))
            && (c in t.verified <==> c in buckets.verified && MatchesSearch(c, searchQuery) && MatchesDate(c, dateFilter))
            && (c in t.rejected <==> c in buckets.rejected && MatchesSearch(c, searchQuery) && MatchesDate(c, dateFilter))
  {
    var keep := Keep(searchQuery, dateFilter);
    FilterMembership(buckets.pending, keep, c);
    FilterMembership(buckets.verified, keep, c);
    FilterMembership(buckets.rejected, keep, c);
  }

  /** With no search text and the date filter on "all" or "month", every tab lists its whole bucket. */
  lemma DefaultQueryShowsBuckets(buckets: Tabs, dateFilter: string)
    requires dateFilter == "all" || dateFilter == "month"
    ensures FilteredTabs(buckets, "", dateFilter) == buckets
  {
    var keep := Keep("", dateFilter);
    FilterKeepsAll(buckets.pending, keep);
    FilterKeepsAll(buckets.verified, keep);
    FilterKeepsAll(buckets.rejected, keep);
  }

  /** Two queries that differ only in letter case match the same complaints. */
  lemma SearchIgnoresCase(c: Complaint, q1: string, q2: string)
    requires Lower(q1) == Lower(q2)
    ensures MatchesSearch(c, q1) == MatchesSearch(c, q2)
  {
  }

  /** A query typed exactly as it appears in the user's name, in any case, matches. */
  lemma UserNameFound(c: Complaint, searchQuery: string)
    requires Contains(c.userName, searchQuery)
    ensures MatchesSearch(c, searchQuery)
  {
    ContainsLower(c.userName, searchQuery);
  }

  /** Searching "JOHN" finds the complaint filed by John Doe. */
  lemma SearchJohnFound()
    ensures MatchesSearch(Complaint("1", "Spam listing", "Fake post", "John Doe", "2 hours ago", "pending"), "JOHN")
  {
    assert Lower("JOHN") == "john";
    assert Lower("John Doe") == "john doe";
    assert "john" <= "john doe";
  }

  /** A text with no letter j in either case does not include "john" once lower-cased. */
  lemma LacksJohn(s: string)
    requires 'J' !in s && 'j' !in s
    ensures !Contains(Lower(s), "john")
  {
    LetterAbsentFromLower(s, 'J', 'j');
    FirstCharAbsent(Lower(s), "john");
  }

  /** Searching "john" misses every complaint none of whose searched texts
      has the letter j in either case, such as one by "Mark Wilson" titled
      "Scam offer". */
  lemma SearchJohnMissed(c: Complaint)
    requires 'J' !in c.title && 'j' !in c.title
    requires 'J' !in c.description && 'j' !in c.description
    requires 'J' !in c.userName && 'j' !in c.userName
    ensures !MatchesSearch(c, "john")
  {
    assert Lower("john") == "john";
    LacksJohn(c.title);
    LacksJohn(c.description);
    LacksJohn(c.userName);
  }

  /** "today" keeps a complaint dated "2 hours ago". */
  lemma TodayKeepsHours(c: Complaint)
    ensures MatchesDate(c.(date := "2 hours ago"), "today")
  {
    assert OccursAt("2 hours ago", "hour", 2);
  }

  /** "today" drops a complaint dated "1 day ago". */
  lemma TodayDropsDays(c: Complaint)
    ensures !MatchesDate(c.(date := "1 day ago"), "today")
  {
    FirstCharAbsent("1 day ago", "hour");
  }

  /** "week", as written, drops a complaint dated "2 weeks ago". */
  lemma WeekDropsWeeks(c: Complaint)
    ensures !MatchesDate(c.(date := "2 weeks ago"), "week")
  {
    assert OccursAt("2 weeks ago", "week", 2);
  }
}
