/**
 * The signed-in user's dashboard of src/pages/Dashboard.tsx: which listed groups are the
 * user's, how a contract group record becomes a display `Group`, which groups have funds
 * the user can claim now, the claimable balance, the tab filter and the two counters.
 *
 * The contract reads are inputs: `listing[i]` is what `getPublicGroupByIndex(i)` returned
 * (`None` for `null`), and `members` maps a group id to the user's member record, absent
 * where `getGroupMember` returned `null`.
 */
module Dashboard {
  import opened Wrappers
  import opened Types
  import opened Seqs
  import opened AccessFundsModal

  /** A public group as the contract read returns it. */
  datatype ContractGroup = ContractGroup(
    groupId: string,
    name: string,
    description: Option<string>,
    creator: string,
    depositPerMember: int,
    membersCount: int,
    maxMembers: int,
    cycleDurationBlocks: int,
    status: int,
    isPublicListed: bool,
    groupMode: int,
    currentCycle: int,
    enrollmentEndBlock: int,
    createdAt: int,
    totalPoolBalance: int)

  /** The user's member record in one group, as the contract read returns it. */
  datatype MemberRecord = MemberRecord(
    memberName: string,
    payoutPosition: int,
    joinedAt: int,
    hasWithdrawn: bool,
    hasReceivedPayout: bool,
    totalContributed: Option<int>)

  /** The contract's numeric codes for the enrollment and active states, which the page imports. */
  datatype StatusCodes = StatusCodes(enrollment: int, active: int)

  /** The codes the page maps itself, besides the two imported ones. */
  const CodeCompleted := 2
  const CodePaused := 3
  const CodeWithdrawalOpen := 4

  /**
   * `statusMap[code] || 'enrollment'`. The map is an object literal, so when an imported
   * code coincides with a later key the later entry wins.
   */
  function DecodeStatus(code: int, codes: StatusCodes): (s: GroupStatus)
    ensures code == CodeCompleted ==> s == Completed
    ensures code == CodePaused ==> s == Paused
    ensures code == CodeWithdrawalOpen ==> s == WithdrawalOpen
    ensures s == Active <==> code == codes.active && code !in {CodeCompleted, CodePaused, CodeWithdrawalOpen}
  {
    if code == CodeWithdrawalOpen then WithdrawalOpen
    else if code == CodePaused then Paused
    else if code == CodeCompleted then Completed
    else if code == codes.active then Active
    else Enrollment
  }

  /** Imported codes that differ from each other and from the three fixed ones. */
  predicate DistinctCodes(codes: StatusCodes) {
    codes.enrollment != codes.active
    && codes.enrollment !in {CodeCompleted, CodePaused, CodeWithdrawalOpen}
    && codes.active !in {CodeCompleted, CodePaused, CodeWithdrawalOpen}
  }

  /** The code the contract uses for each status. */
  function StatusCode(s: GroupStatus, codes: StatusCodes): int {
    match s
    case Enrollment => codes.enrollment
    case Active => codes.active
    case Completed => CodeCompleted
    case Paused => CodePaused
    case WithdrawalOpen => CodeWithdrawalOpen
  }

  /** With distinct codes every status decodes from its own code, and nothing else decodes to it. */
  lemma DecodeStatusRoundTrip(s: GroupStatus, code: int, codes: StatusCodes)
    requires DistinctCodes(codes)
    ensures DecodeStatus(StatusCode(s, codes), codes) == s
    ensures s != Enrollment ==> (DecodeStatus(code, codes) == s <==> code == StatusCode(s, codes))
  {
  }

  /** A code outside the map decodes to the `'enrollment'` default. */
  lemma UnmappedIsEnrollment(code: int, codes: StatusCodes)
    requires code !in {codes.enrollment, codes.active, CodeCompleted, CodePaused, CodeWithdrawalOpen}
    ensures DecodeStatus(code, codes) == Enrollment
  {
  }

  /** The display record pushed for a listed group: fields renamed, status decoded. */
  function ToGroup(d: ContractGroup, codes: StatusCodes): (g: Group)
    ensures g.id == d.groupId && g.groupName == d.name && g.creator == d.creator
    ensures g.description == Some(if d.description.Some? then d.description.value else "")
    ensures g.depositAmount == d.depositPerMember && g.currentMembers == d.membersCount
    ensures g.maxMembers == d.maxMembers && g.cycleDuration == d.cycleDurationBlocks
    ensures g.status == DecodeStatus(d.status, codes)
    ensures g.isPublic == d.isPublicListed && g.mode == d.groupMode && g.currentCycle == d.currentCycle
    ensures g.enrollmentEndBlock == d.enrollmentEndBlock && g.createdAt == d.createdAt
    ensures g.poolBalance == d.totalPoolBalance
  {
    Group(
      d.groupId, d.name, Some(d.description.GetOr("")), d.creator, d.depositPerMember,
      d.membersCount, d.maxMembers, d.cycleDurationBlocks, DecodeStatus(d.status, codes),
      d.isPublicListed, d.groupMode, d.currentCycle, d.enrollmentEndBlock, d.createdAt,
      d.totalPoolBalance)
  }

  /** `getGroupMember(groupId, user)`: the member record, or `None` for `null`. */
  function MemberOf(members: map<string, MemberRecord>, groupId: string): (m: Option<MemberRecord>)
    ensures m.Some? <==> groupId in members
    ensures m.Some? ==> m.value == members[groupId]
  {
    if groupId in members then Some(members[groupId]) else None
  }

  /** A listing entry is the user's when it has an id and the user created it or is a member. */
  predicate IsMine(entry: Option<ContractGroup>, user: string, members: map<string, MemberRecord>) {
    entry.Some? && entry.value.groupId != ""
    && (entry.value.creator == user || entry.value.groupId in members)
  }

  /** The groups the first loop pushes, in listing order. */
  function MyGroups(listing: seq<Option<ContractGroup>>, user: string,
                    members: map<string, MemberRecord>, codes: StatusCodes): seq<Group>
  {
    if listing == [] then []
    else
      var last := listing[|listing| - 1];
      MyGroups(listing[..|listing| - 1], user, members, codes)
      + (if IsMine(last, user, members) then [ToGroup(last.value, codes)] else [])
  }

  /**
   * Exact membership: every group of the user's listing entries is shown, and every shown
   * group comes from such an entry, with its id and creator copied.
   */
  lemma {:induction false} MyGroupsMembership(listing: seq<Option<ContractGroup>>, user: string,
                                              members: map<string, MemberRecord>, codes: StatusCodes)
    ensures forall k :: 0 <= k < |listing| && IsMine(listing[k], user, members) ==>
      ToGroup(listing[k].value, codes) in MyGroups(listing, user, members, codes)
    ensures forall g :: g in MyGroups(listing, user, members, codes) ==>
      exists k :: 0 <= k < |listing| && IsMine(listing[k], user, members) && g == ToGroup(listing[k].value, codes)
    ensures |MyGroups(listing, user, members, codes)| <= |listing|
  {
    if listing != [] {
      var init := listing[..|listing| - 1];
      MyGroupsMembership(init, user, members, codes);
      forall k | 0 <= k < |init| ensures init[k] == listing[k] { }
    }
  }

  /** Every shown group has a non-empty id and is one the user created or belongs to. */
  lemma {:induction false} MyGroupsAreMine(listing: seq<Option<ContractGroup>>, user: string,
                                           members: map<string, MemberRecord>, codes: StatusCodes)
    ensures forall g :: g in MyGroups(listing, user, members, codes) ==>
      g.id != "" && (g.creator == user || g.id in members)
  {
    MyGroupsMembership(listing, user, members, codes);
  }

  /** The items one group contributes: the ROSCA payout check, then the savings check. */
  function ItemsFor(g: Group, m: Option<MemberRecord>): seq<ClaimableItem> {
    match m
    case None => []
    case Some(r) =>
      (if g.mode == ModeRosca && g.status == Active && !r.hasWithdrawn && !r.hasReceivedPayout
          && g.currentCycle == r.payoutPosition
       then [Payout(g, g.currentMembers * g.depositAmount, r.payoutPosition)] else [])
      + (if g.mode == ModeCollective && g.status == WithdrawalOpen && !r.hasWithdrawn
         then [Savings(g, r.totalContributed.GetOr(0))] else [])
  }

  /**
   * A group yields at most one item and none without a member record. A payout exists exactly
   * for an active ROSCA group whose current cycle is the member's position, while the member
   * has neither withdrawn nor been paid; its amount is the full pot. A savings item exists
   * exactly for a collective group open for withdrawal that the member has not withdrawn from.
   */
  lemma ItemRules(g: Group, m: Option<MemberRecord>)
    ensures var items := ItemsFor(g, m);
      && |items| <= 1
      && (m.None? ==> items == [])
      && (forall it :: it in items ==> it.group == g)
      && ((exists it :: it in items && it.Payout?) <==>
            m.Some? && g.mode == ModeRosca && g.status == Active && !m.value.hasWithdrawn
            && !m.value.hasReceivedPayout && g.currentCycle == m.value.payoutPosition)
      && ((exists it :: it in items && it.Savings?) <==>
            m.Some? && g.mode == ModeCollective && g.status == WithdrawalOpen && !m.value.hasWithdrawn)
      && (forall it :: it in items && it.Payout? ==>
            it.amount == g.currentMembers * g.depositAmount && it.cycle == m.value.payoutPosition)
      && (forall it :: it in items && it.Savings? ==> it.amount == m.value.totalContributed.GetOr(0))
  {
    var items := ItemsFor(g, m);
    if m.Some? {
      var payout := g.mode == ModeRosca && g.status == Active && !m.value.hasWithdrawn
        && !m.value.hasReceivedPayout && g.currentCycle == m.value.payoutPosition;
      if payout {
        assert items[0] in items;
      }
      if g.mode == ModeCollective && g.status == WithdrawalOpen && !m.value.hasWithdrawn {
        assert items[0] in items;
      }
    }
  }

  /** The items the second loop pushes, group by group. */
  function ClaimableItems(groups: seq<Group>, members: map<string, MemberRecord>): seq<ClaimableItem> {
    if groups == [] then []
    else
      var last := groups[|groups| - 1];
      ClaimableItems(groups[..|groups| - 1], members) + ItemsFor(last, MemberOf(members, last.id))
  }

  /** The claimable amount of one group: its item's amount, or 0. */
  function GroupClaim(g: Group, members: map<string, MemberRecord>): int {
    TotalAvailable(ItemsFor(g, MemberOf(members, g.id)))
  }

  /**
   * What one group adds to the balance: the full pot for a ROSCA payout, the member's
   * contributions for a savings withdrawal, and nothing otherwise.
   */
  lemma GroupClaimAmount(g: Group, members: map<string, MemberRecord>)
    ensures var m := MemberOf(members, g.id);
      GroupClaim(g, members) ==
        if m.Some? && g.mode == ModeRosca && g.status == Active && !m.value.hasWithdrawn
          && !m.value.hasReceivedPayout && g.currentCycle == m.value.payoutPosition
        then g.currentMembers * g.depositAmount
        else if m.Some? && g.mode == ModeCollective && g.status == WithdrawalOpen && !m.value.hasWithdrawn
        then m.value.totalContributed.GetOr(0)
        else 0
  {
    ItemRules(g, MemberOf(members, g.id));
  }

  function SumClaims(groups: seq<Group>, members: map<string, MemberRecord>): int {
    if groups == [] then 0
    else SumClaims(groups[..|groups| - 1], members) + GroupClaim(groups[|groups| - 1], members)
  }

  /**
   * At most one item per group, each for one of the groups and for a group where the user
   * has a member record.
   */
  lemma {:induction false} ClaimableItemsFacts(groups: seq<Group>, members: map<string, MemberRecord>)
    ensures var items := ClaimableItems(groups, members);
      && |items| <= |groups|
      && (forall it :: it in items ==> it.group in groups && it.group.id in members)
  {
    if groups != [] {
      var init := groups[..|groups| - 1];
      var last := groups[|groups| - 1];
      ClaimableItemsFacts(init, members);
      ItemRules(last, MemberOf(members, last.id));
      assert forall g :: g in init ==> g in groups;
    }
  }

  /** The claimable balance is the sum of what each group offers. */
  lemma {:induction false} ClaimableTotal(groups: seq<Group>, members: map<string, MemberRecord>)
    ensures TotalAvailable(ClaimableItems(groups, members)) == SumClaims(groups, members)
  {
    if groups != [] {
      var init := groups[..|groups| - 1];
      var last := groups[|groups| - 1];
      ClaimableTotal(init, members);
      TotalAppend(ClaimableItems(init, members), ItemsFor(last, MemberOf(members, last.id)));
    }
  }

  /** `claimableBalance`: the same left fold as the dialog's total. */
  function ClaimableBalance(items: seq<ClaimableItem>): int {
    TotalAvailable(items)
  }

  /** The tab filter's test: active, pending and completed tabs pick one status, any other tab all. */
  predicate TabKeeps(tab: string, g: Group) {
    if tab == "active" then g.status == Active
    else if tab == "pending" then g.status == Enrollment
    else if tab == "completed" then g.status == Completed
    else true
  }

  /** `filteredGroups`. */
  function FilteredGroups(groups: seq<Group>, tab: string): seq<Group> {
    Filter(groups, (g: Group) => TabKeeps(tab, g))
  }

  /**
   * The tab filter keeps exactly the groups with the tab's status, in their original order,
   * and any tab other than active, pending and completed keeps the whole list.
   */
  lemma TabFilter(groups: seq<Group>, tab: string)
    ensures IsSubsequence(FilteredGroups(groups, tab), groups)
    ensures forall g :: g in FilteredGroups(groups, tab) <==> g in groups && TabKeeps(tab, g)
    ensures tab !in {"active", "pending", "completed"} ==> FilteredGroups(groups, tab) == groups
  {
    FilterIsSubsequence(groups, (g: Group) => TabKeeps(tab, g));
    if tab !in {"active", "pending", "completed"} {
      FilterKeepsAll(groups, (g: Group) => TabKeeps(tab, g));
    }
  }

  /** The `activeGroups` counter: groups enrolling or active. */
  function ActiveGroups(groups: seq<Group>): nat {
    |Filter(groups, (g: Group) => g.status == Active || g.status == Enrollment)|
  }

  /** The `pendingActions` counter: groups still enrolling. */
  function PendingActions(groups: seq<Group>): nat {
    |Filter(groups, (g: Group) => g.status == Enrollment)|
  }

  /** The active counter splits into the active groups and the pending ones, so pending never exceeds it. */
  lemma CountersAgree(groups: seq<Group>)
    ensures ActiveGroups(groups) == |Filter(groups, (g: Group) => g.status == Active)| + PendingActions(groups)
    ensures PendingActions(groups) <= ActiveGroups(groups)
  {
    FilterSplitCount(groups, (g: Group) => g.status == Active, (g: Group) => g.status == Enrollment,
      (g: Group) => g.status == Active || g.status == Enrollment);
  }

  /** What one successful `fetchMyGroups` stores: the user's groups and their claimable items. */
  datatype Holdings = Holdings(groups: seq<Group>, items: seq<ClaimableItem>)

  /** The cache only ever holds records the contract returned. */
  predicate CacheAgrees(cache: map<string, MemberRecord>, members: map<string, MemberRecord>) {
    forall id :: id in cache ==> id in members && cache[id] == members[id]
  }

  /**
   * The first loop of `fetchMyGroups`: walk the listing, keep the user's groups and cache
   * every member record looked up on the way.
   */
  method CollectMyGroups(user: string, listing: seq<Option<ContractGroup>>,
                         members: map<string, MemberRecord>, codes: StatusCodes)
    returns (userGroups: seq<Group>, memberCache: map<string, MemberRecord>)
    ensures userGroups == MyGroups(listing, user, members, codes)
    ensures CacheAgrees(memberCache, members)
  {
    userGroups := [];
    memberCache := map[];
    var i := 0;
    while i < |listing|
      invariant 0 <= i <= |listing|
      invariant userGroups == MyGroups(listing[..i], user, members, codes)
      invariant CacheAgrees(memberCache, members)
    {
      assert listing[..i + 1][..i] == listing[..i];
      var entry := listing[i];
      if entry.Some? && entry.value.groupId != "" {
        var groupData := entry.value;
        var isCreator := groupData.creator == user;
        var isMember := false;
        if !isCreator {
          var memberData := MemberOf(members, groupData.groupId);
          isMember := memberData.Some?;
          if isMember {
            memberCache := memberCache[groupData.groupId := memberData.value];
          }
        }
        if isCreator || isMember {
          userGroups := userGroups + [ToGroup(groupData, codes)];
        }
      }
      i := i + 1;
    }
    assert listing[..i] == listing;
  }

  /** One group's turn in the second loop: the payout check, then the savings check. */
  method PushItems(items: seq<ClaimableItem>, grp: Group, memberRaw: Option<MemberRecord>)
    returns (pushed: seq<ClaimableItem>)
    ensures pushed == items + ItemsFor(grp, memberRaw)
  {
    pushed := items;
    if memberRaw.Some? {
      var member := memberRaw.value;
      if grp.mode == ModeRosca && grp.status == Active && !member.hasWithdrawn
        && !member.hasReceivedPayout && grp.currentCycle == member.payoutPosition {
        pushed := pushed + [Payout(grp, grp.currentMembers * grp.depositAmount, member.payoutPosition)];
      }
      if grp.mode == ModeCollective && grp.status == WithdrawalOpen && !member.hasWithdrawn {
        pushed := pushed + [Savings(grp, member.totalContributed.GetOr(0))];
      }
    }
  }

  /** `memberCache.get(id)`, falling back to `getGroupMember` on a miss: always the contract's record. */
  method CachedMember(memberCache: map<string, MemberRecord>, members: map<string, MemberRecord>, id: string)
    returns (memberRaw: Option<MemberRecord>)
    requires CacheAgrees(memberCache, members)
    ensures memberRaw == MemberOf(members, id)
  {
    memberRaw := if id in memberCache then Some(memberCache[id]) else None;
    if memberRaw.None? {
      memberRaw := MemberOf(members, id);
    }
  }

  /** The second loop of `fetchMyGroups`: the claimable items, reading the cache first. */
  method CollectItems(userGroups: seq<Group>, memberCache: map<string, MemberRecord>,
                      members: map<string, MemberRecord>)
    returns (items: seq<ClaimableItem>)
    requires CacheAgrees(memberCache, members)
    ensures items == ClaimableItems(userGroups, members)
  {
    items := [];
    var j := 0;
    while j < |userGroups|
      invariant 0 <= j <= |userGroups|
      invariant items == ClaimableItems(userGroups[..j], members)
    {
      assert userGroups[..j + 1][..j] == userGroups[..j];
      var grp := userGroups[j];
      var memberRaw := CachedMember(memberCache, members, grp.id);
      items := PushItems(items, grp, memberRaw);
      j := j + 1;
    }
    assert userGroups[..j] == userGroups;
  }

  /**
   * `fetchMyGroups`: without a signed-in user nothing is read and nothing stored (`None`).
   * Otherwise the user's groups and their claimable items, the items computed from the
   * contract's member records whether or not the cache held them.
   */
  method FetchMyGroups(user: string, listing: seq<Option<ContractGroup>>,
                       members: map<string, MemberRecord>, codes: StatusCodes)
    returns (result: Option<Holdings>)
    ensures user == "" <==> result.None?
    ensures result.Some? ==> result.value.groups == MyGroups(listing, user, members, codes)
    ensures result.Some? ==> result.value.items == ClaimableItems(result.value.groups, members)
  {
    if user == "" {
      return None;
    }
    var userGroups, memberCache := CollectMyGroups(user, listing, members, codes);
    var items := CollectItems(userGroups, memberCache, members);
    result := Some(Holdings(userGroups, items));
  }
}
