/**
 * The admin console page (app/admin/page.tsx): who may see it, the member
 * table it lists (search, then sort by rank and callsign), and the
 * promotion and demotion targets it offers for each member.
 */
module AdminPage {
  import opened Wrappers
  import opened Ranks
  import opened Roster
  import opened Text
  import opened Sorting
  import opened Listing

  /**
   * `session?.user?.rank === "DIRECTOR_GENERAL" || ... === "DIRECTOR_ADJUNCT"`
   * on the rank string of the signed-in user, None when there is no session.
   */
  function IsManagementView(sessionRank: Option<string>): (b: bool)
    ensures b <==> sessionRank.Some? && RankFromName(sessionRank.value).Some?
                   && IsManagement(RankFromName(sessionRank.value).value)
  {
    sessionRank == Some("DIRECTOR_GENERAL") || sessionRank == Some("DIRECTOR_ADJUNCT")
  }

  /** The page shows its console exactly to the sessions the admin routes let through. */
  lemma ViewAgreesWithRoutes(session: Option<Session>)
    ensures IsManagementView(if session.Some? then Some(session.value.rank) else None)
            <==> AuthFailure(session).None?
  {
  }

  // ------------------------------------------------------- the member table

  /**
   * The admin search box: the lower-cased search occurs in the lower-cased
   * name, or the search as typed occurs in the callsign or the Discord id.
   */
  function MatchesSearch(m: Member, search: string): (b: bool)
    ensures b <==> || (exists i :: OccursAt(ToLower(m.nameIC), ToLower(search), i))
                   || (exists i :: OccursAt(m.callsign, search, i))
                   || (exists i :: OccursAt(m.discordId, search, i))
  {
    Includes(ToLower(m.nameIC), ToLower(search)) || Includes(m.callsign, search) || Includes(m.discordId, search)
  }

  /** The filter callback: an empty search keeps every member. */
  function KeptBy(search: string): (p: Member -> bool)
    ensures forall m :: p(m) <==> search == [] || MatchesSearch(m, search)
  {
    m => search == [] || MatchesSearch(m, search)
  }

  /**
   * filteredMembers: `members.filter(...).sort(...)`, on a fresh list. It lists
   * each member that matches the search as often as it was fetched, no other
   * member, and, when every callsign parses, in order of rank and then
   * callsign number.
   */
  function FilteredMembers(members: seq<Member>, search: string): (r: seq<Member>)
    ensures forall x :: multiset(r)[x] == if search == [] || MatchesSearch(x, search) then multiset(members)[x] else 0
    ensures AllParse(members) ==> SortedBy(r, Compare)
  {
    FilterCounts(members, KeptBy(search));
    FilterKeeps(members, KeptBy(search));
    SortMembers(Filter(members, KeptBy(search)))
  }

  /** With an empty search the table is the whole fetched list, sorted. */
  lemma EmptySearchListsEveryone(members: seq<Member>)
    ensures FilteredMembers(members, []) == SortMembers(members)
  {
    FilterAll(members, KeptBy([]));
  }

  // ------------------------------------------------ promotion and demotion

  /** getAvailablePromotions: `RANK_ORDER.slice(0, indexOf(currentRank))`. */
  function AvailablePromotions(current: Rank): (targets: seq<Rank>)
    ensures forall q :: q in targets <==> CanPromoteTo(current, q)
    ensures forall k :: 0 <= k < |targets| ==> Index(targets[k]) == k
  {
    RankOrder[..Index(current)]
  }

  /** getAvailableDemotions: `RANK_ORDER.slice(indexOf(currentRank) + 1)`. */
  function AvailableDemotions(current: Rank): (targets: seq<Rank>)
    ensures forall q :: q in targets <==> CanDemoteTo(current, q)
    ensures forall k :: 0 <= k < |targets| ==> Index(targets[k]) == Index(current) + 1 + k
  {
    RankOrder[Index(current) + 1..]
  }

  /** The promotions, the rank itself and the demotions are RANK_ORDER cut in three. */
  lemma TargetsPartitionRankOrder(current: Rank)
    ensures AvailablePromotions(current) + [current] + AvailableDemotions(current) == RankOrder
  {
    RankOrderComplete(current);
  }

  /**
   * The promote button is hidden only for DIRECTOR_GENERAL and the demote
   * button only for STAGIAR.
   */
  lemma ActionButtons(current: Rank)
    ensures |AvailablePromotions(current)| > 0 <==> current != DirectorGeneral
    ensures |AvailableDemotions(current)| > 0 <==> current != Stagiar
  {
  }
}
