/**
 * The public directory page: which users it lists for a search text and an availability
 * choice, and how it splits the result into pages of three.
 */
module HomePage {
  import opened Wrappers
  import opened Js
  import opened Seqs
  import opened UserModel

  const UsersPerPage := 3

  /** A directory entry as `GET /users` delivers it: the id and the record. */
  type Entry = (Id, User)

  /** Never the viewer (when logged in) and never an admin. */
  predicate Listable(e: Entry, me: Option<Id>) {
    (me.None? || e.0 != me.value) && e.1.role != Admin
  }

  /** The name, an offered skill or a wanted skill contains the query, ignoring case. */
  predicate MatchesQuery(e: Entry, query: string) {
    || IncludesIgnoringCase(e.1.name, query)
    || (exists k :: 0 <= k < |e.1.skillsOffered| && IncludesIgnoringCase(e.1.skillsOffered[k], query))
    || (exists k :: 0 <= k < |e.1.skillsWanted| && IncludesIgnoringCase(e.1.skillsWanted[k], query))
  }

  /** The effect's filters: an empty query and the choice `All` filter nothing. */
  function FilterUsers(users: seq<Entry>, me: Option<Id>, query: string, availability: string): (r: seq<Entry>)
    ensures |r| <= |users|
    ensures forall e :: e in r <==>
              && e in users
              && Listable(e, me)
              && (query == "" || MatchesQuery(e, query))
              && (availability == "All" || e.1.availability == availability)
  {
    var listed := Filter(users, (e: Entry) => Listable(e, me));
    var searched := if query != "" then Filter(listed, (e: Entry) => MatchesQuery(e, query)) else listed;
    if availability != "All" then Filter(searched, (e: Entry) => e.1.availability == availability) else searched
  }

  /** The viewer and the admins never appear, whatever the search. */
  lemma NeverListsSelfOrAdmin(users: seq<Entry>, me: Id, query: string, availability: string)
    ensures forall e :: e in FilterUsers(users, Some(me), query, availability) ==> e.0 != me && e.1.role != Admin
  {
  }

  /** The list shown and the page number after the effect has run. */
  datatype Listing = Listing(filteredUsers: seq<Entry>, currentPage: int)

  /** The effect runs when the users, the query, the availability or the viewer change; it goes back to page 1. */
  function OnFilterChange(users: seq<Entry>, me: Option<Id>, query: string, availability: string): (l: Listing)
    ensures l.currentPage == 1
    ensures l.filteredUsers == FilterUsers(users, me, query, availability)
  {
    Listing(FilterUsers(users, me, query, availability), 1)
  }

  // ------------------------------------------------------------- pagination

  /** `Math.ceil(n / 3)`. */
  function TotalPages(n: nat): (t: nat)
    ensures UsersPerPage * t >= n
    ensures t > 0 ==> UsersPerPage * (t - 1) < n
  {
    (n + UsersPerPage - 1) / UsersPerPage
  }

  /** `list.slice((p - 1) * 3, p * 3)`. */
  function Page<T>(list: seq<T>, p: int): (r: seq<T>)
    ensures |r| <= UsersPerPage
    ensures 1 <= p ==> r == list[Min((p - 1) * UsersPerPage, |list|)..Min(p * UsersPerPage, |list|)]
  {
    Slice(list, (p - 1) * UsersPerPage, p * UsersPerPage)
  }

  function Min(a: int, b: int): int {
    if a <= b then a else b
  }

  /** Exactly the pages 1..TotalPages hold users. */
  lemma PagesInRangeAreNonEmpty<T>(list: seq<T>, p: int)
    requires 1 <= p
    ensures Page(list, p) != [] <==> p <= TotalPages(|list|)
  {
  }

  /** The pages from `p` to the last, one after another. */
  function PagesFrom<T>(list: seq<T>, p: nat): seq<T>
    requires 1 <= p
    decreases TotalPages(|list|) + 1 - p
  {
    if p > TotalPages(|list|) then [] else Page(list, p) + PagesFrom(list, p + 1)
  }

  lemma {:induction false} PagesFromIsSuffix<T>(list: seq<T>, p: nat)
    requires 1 <= p
    ensures PagesFrom(list, p) == list[Min((p - 1) * UsersPerPage, |list|)..]
    decreases TotalPages(|list|) + 1 - p
  {
    if p <= TotalPages(|list|) {
      PagesFromIsSuffix(list, p + 1);
      var a := Min((p - 1) * UsersPerPage, |list|);
      var b := Min(p * UsersPerPage, |list|);
      assert list[a..] == list[a..b] + list[b..];
    }
  }

  /** The pages, read in order, are the filtered list: nothing is lost, repeated or reordered. */
  lemma PagesPartitionList<T>(list: seq<T>)
    ensures PagesFrom(list, 1) == list
  {
    PagesFromIsSuffix(list, 1);
  }

  /** After a filter change the page shown is the first three users of the new list. */
  lemma FilterChangeShowsFirstPage(users: seq<Entry>, me: Option<Id>, query: string, availability: string)
    ensures var l := OnFilterChange(users, me, query, availability);
            Page(l.filteredUsers, l.currentPage) == l.filteredUsers[..Min(UsersPerPage, |l.filteredUsers|)]
  {
  }
}
