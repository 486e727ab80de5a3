/**
 * The group browser of src/pages/BrowsePage.tsx: a case-insensitive search over name and
 * description combined with a mode filter and a status filter, the "Clear All Filters"
 * button, and which listed groups offer a join button.
 */
module BrowsePage {
  import opened Wrappers
  import opened Text
  import opened Seqs
  import opened Types

  /** `modeFilter`: `'all'` or one group mode. */
  datatype ModeFilter = AllModes | OnlyMode(mode: int)

  /** `statusFilter`: `'all'` or one group status. */
  datatype StatusFilter = AllStatuses | OnlyStatus(status: GroupStatus)

  /** The three filter inputs of the page. */
  datatype Filters = Filters(query: string, mode: ModeFilter, status: StatusFilter)

  /**
   * `matchesSearch`: the lower-cased query occurs in the lower-cased name, or in the
   * lower-cased description when there is one (a missing description never matches).
   */
  predicate MatchesSearch(g: Group, query: string) {
    Contains(Lower(g.groupName), Lower(query))
    || (g.description.Some? && Contains(Lower(g.description.value), Lower(query)))
  }

  predicate MatchesMode(g: Group, mode: ModeFilter) {
    mode.AllModes? || g.mode == mode.mode
  }

  predicate MatchesStatus(g: Group, status: StatusFilter) {
    status.AllStatuses? || g.status == status.status
  }

  /** The filter callback: all three tests must pass. */
  predicate Keeps(f: Filters, g: Group) {
    MatchesSearch(g, f.query) && MatchesMode(g, f.mode) && MatchesStatus(g, f.status)
  }

  /** The filter callback as a value, for `Array.prototype.filter`. */
  function KeepTest(f: Filters): Group -> bool {
    (g: Group) => Keeps(f, g)
  }

  /** `filteredGroups` over the page's group list. */
  function FilteredGroups(groups: seq<Group>, f: Filters): seq<Group> {
    Filter(groups, KeepTest(f))
  }

  /** The "Clear All Filters" button: both chips back to `'all'` and an empty query. */
  function ClearAll(): Filters {
    Filters("", AllModes, AllStatuses)
  }

  /** `canJoin`: a card offers to join only while its group is enrolling. */
  function CanJoin(g: Group): bool {
    g.status == Enrollment
  }

  /**
   * The page shows exactly the listed groups passing all three tests, in list order: a
   * group is shown if and only if it is listed, matches the query, and has the chosen mode
   * and status.
   */
  lemma FilteredExactly(groups: seq<Group>, f: Filters)
    ensures IsSubsequence(FilteredGroups(groups, f), groups)
    ensures forall g :: g in FilteredGroups(groups, f) <==>
      g in groups && MatchesSearch(g, f.query)
      && (f.mode.OnlyMode? ==> g.mode == f.mode.mode)
      && (f.status.OnlyStatus? ==> g.status == f.status.status)
  {
    FilterIsSubsequence(groups, KeepTest(f));
  }

  /** An empty query matches every group, with or without a description. */
  lemma EmptyQueryMatches(g: Group)
    ensures MatchesSearch(g, "")
  {
    ContainsEmpty(Lower(g.groupName));
  }

  /** After "Clear All Filters" the whole list is shown, unchanged and in order. */
  lemma ClearAllShowsAll(groups: seq<Group>)
    ensures FilteredGroups(groups, ClearAll()) == groups
  {
    forall g | g in groups ensures Keeps(ClearAll(), g) {
      EmptyQueryMatches(g);
    }
    FilterKeepsAll(groups, KeepTest(ClearAll()));
  }

  /**
   * Search ignores case: queries that lower-case alike show the same groups, and in
   * particular a query shows what its lower-cased form shows.
   */
  lemma SearchIgnoresCase(groups: seq<Group>, f: Filters, query: string)
    requires Lower(query) == Lower(f.query)
    ensures FilteredGroups(groups, f.(query := query)) == FilteredGroups(groups, f)
    ensures FilteredGroups(groups, f.(query := Lower(f.query))) == FilteredGroups(groups, f)
  {
    FilterAgrees(groups, KeepTest(f.(query := query)), KeepTest(f));
    LowerIdempotent(f.query);
    FilterAgrees(groups, KeepTest(f.(query := Lower(f.query))), KeepTest(f));
  }

  /** Narrowing a filter from `'all'` to one value can only remove groups. */
  lemma NarrowingShrinks(groups: seq<Group>, f: Filters, mode: int, status: GroupStatus)
    requires f.mode.AllModes? && f.status.AllStatuses?
    ensures forall g :: g in FilteredGroups(groups, f.(mode := OnlyMode(mode))) ==> g in FilteredGroups(groups, f)
    ensures forall g :: g in FilteredGroups(groups, f.(status := OnlyStatus(status))) ==> g in FilteredGroups(groups, f)
  {
  }

  /**
   * With the Enrollment chip every card shown offers to join; with the Active or Completed
   * chip none does.
   */
  lemma StatusChipsAndJoin(groups: seq<Group>, f: Filters)
    ensures forall g :: g in FilteredGroups(groups, f.(status := OnlyStatus(Enrollment))) ==> CanJoin(g)
    ensures forall g :: g in FilteredGroups(groups, f.(status := OnlyStatus(Active))) ==> !CanJoin(g)
    ensures forall g :: g in FilteredGroups(groups, f.(status := OnlyStatus(Completed))) ==> !CanJoin(g)
  {
  }
}
