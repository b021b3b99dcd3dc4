/**
 * The Users screen: three tabs (pending, approved, rejected), each listing one
 * bucket of users narrowed by a search box and a role selector, with the
 * number of listed users shown on the tab.
 */
module Users {
  import opened Strings
  import opened Lists

  datatype User = User(
    id: string,
    name: string,
    email: string,
    phone: string,
    role: string,
    date: string,
    status: string)

  /** `filterBySearch`: an empty query matches; otherwise the lower-cased
      query must occur in the lower-cased name, the lower-cased email, or the
      phone number as it is (the phone is not lower-cased). */
  predicate MatchesSearch(u: User, searchQuery: string)
  {
    searchQuery == "" ||
    var query := Lower(searchQuery);
    Contains(Lower(u.name), query) || Contains(Lower(u.email), query) || Contains(u.phone, query)
  }

  /** `filterByRole`: "all" matches; any other value must equal the role exactly. */
  predicate MatchesRole(u: User, roleFilter: string)
  {
    roleFilter == "all" || u.role == roleFilter
  }

  /** The predicate each tab passes to `filter`. */
  function Keep(searchQuery: string, roleFilter: string): User -> bool
  {
    u => MatchesSearch(u, searchQuery) && MatchesRole(u, roleFilter)
  }

  /** One list of users per tab. */
  datatype Tabs = Tabs(pending: seq<User>, approved: seq<User>, rejected: seq<User>)

  /** `filteredPending`, `filteredApproved` and `filteredRejected`: each tab
      lists, in bucket order, the users of its bucket that pass both filters. */
  function FilteredTabs(buckets: Tabs, searchQuery: string, roleFilter: string): (r: Tabs)
    ensures IsSubsequence(r.pending, buckets.pending)
    ensures IsSubsequence(r.approved, buckets.approved)
    ensures IsSubsequence(r.rejected, buckets.rejected)
    ensures forall i :: 0 <= i < |r.pending| ==> MatchesSearch(r.pending[i], searchQuery) && MatchesRole(r.pending[i], roleFilter)
    ensures forall i :: 0 <= i < |r.approved| ==> MatchesSearch(r.approved[i], searchQuery) && MatchesRole(r.approved[i], roleFilter)
    ensures forall i :: 0 <= i < |r.rejected| ==> MatchesSearch(r.rejected[i], searchQuery) && MatchesRole(r.rejected[i], roleFilter)
    ensures forall x :: multiset(r.pending)[x] == if MatchesSearch(x, searchQuery) && MatchesRole(x, roleFilter) then multiset(buckets.pending)[x] else 0
    ensures forall x :: multiset(r.approved)[x] == if MatchesSearch(x, searchQuery) && MatchesRole(x, roleFilter) then multiset(buckets.approved)[x] else 0
    ensures forall x :: multiset(r.rejected)[x] == if MatchesSearch(x, searchQuery) && MatchesRole(x, roleFilter) then multiset(buckets.rejected)[x] else 0
  {
    var keep := Keep(searchQuery, roleFilter);
    FilterCount(buckets.pending, keep);
    FilterCount(buckets.approved, keep);
    FilterCount(buckets.rejected, keep);
    Tabs(Filter(buckets.pending, keep), Filter(buckets.approved, keep), Filter(buckets.rejected, keep))
  }

  /** The numbers shown on the three tabs. */
  datatype Badges = Badges(pending: nat, approved: nat, rejected: nat)

  function BadgeCounts(t: Tabs): Badges
  {
    Badges(|t.pending|, |t.approved|, |t.rejected|)
  }

  /** A tab's number never exceeds the size of its bucket. */
  lemma BadgesBounded(buckets: Tabs, searchQuery: string, roleFilter: string)
    ensures var b := BadgeCounts(FilteredTabs(buckets, searchQuery, roleFilter));
            b.pending <= |buckets.pending| && b.approved <= |buckets.approved| && b.rejected <= |buckets.rejected|
  {
    var t := FilteredTabs(buckets, searchQuery, roleFilter);
    SubsequenceLength(t.pending, buckets.pending);
    SubsequenceLength(t.approved, buckets.approved);
    SubsequenceLength(t.rejected, buckets.rejected);
  }

  /** A user of the pending bucket is listed on the pending tab exactly when
      both filters match it (likewise for the other two tabs). */
  lemma TabMembership(buckets: Tabs, searchQuery: string, roleFilter: string, u: User)
    ensures var t := FilteredTabs(buckets, searchQuery, roleFilter);
            && (u in t.pending <==> u in buckets.pending && MatchesSearch(u, searchQuery) && MatchesRole(u, roleFilter))
            && (u in t.approved <==> u in buckets.approved && MatchesSearch(u, searchQuery) && MatchesRole(u, roleFilter))
            && (u in t.rejected <==> u in buckets.rejected && MatchesSearch(u, searchQuery) && MatchesRole(u, roleFilter))
  {
    var keep := Keep(searchQuery, roleFilter);
    FilterMembership(buckets.pending, keep, u);
    FilterMembership(buckets.approved, keep, u);
    FilterMembership(buckets.rejected, keep, u);
  }

  /** With no search text and role "all", every tab lists its whole bucket. */
  lemma DefaultQueryShowsBuckets(buckets: Tabs)
    ensures FilteredTabs(buckets, "", "all") == buckets
  {
    var keep := Keep("", "all");
    FilterKeepsAll(buckets.pending, keep);
    FilterKeepsAll(buckets.approved, keep);
    FilterKeepsAll(buckets.rejected, keep);
  }

  /** Two queries that differ only in letter case match the same users. */
  lemma SearchIgnoresCase(u: User, q1: string, q2: string)
    requires Lower(q1) == Lower(q2)
    ensures MatchesSearch(u, q1) == MatchesSearch(u, q2)
  {
  }

  /** A query typed exactly as it appears in the name or email, in any case, matches. */
  lemma NameOrEmailFound(u: User, searchQuery: string)
    requires Contains(u.name, searchQuery) || Contains(u.email, searchQuery)
    ensures MatchesSearch(u, searchQuery)
  {
    if Contains(u.name, searchQuery) {
      ContainsLower(u.name, searchQuery);
    } else {
      ContainsLower(u.email, searchQuery);
    }
  }
}
