/**
 * The member directory page (app/members/page.tsx): `filterMembers` copies the
 * fetched member list, narrows it by the search box and the rank selector,
 * sorts the copy in place by rank then callsign, and hands it to the view.
 */
module MembersPage {
  import opened Wrappers
  import opened Ranks
  import opened Roster
  import opened Text
  import opened Sorting
  import opened Listing

  /**
   * The search box: the lower-cased search occurs in the lower-cased name, or
   * the search as typed occurs in the callsign or the phone number.
   */
  function MatchesSearch(m: Member, search: string): (b: bool)
    ensures b <==> || (exists i :: OccursAt(ToLower(m.nameIC), ToLower(search), i))
                   || (exists i :: OccursAt(m.callsign, search, i))
                   || (exists i :: OccursAt(m.phoneNumber, search, i))
  {
    Includes(ToLower(m.nameIC), ToLower(search)) || Includes(m.callsign, search) || Includes(m.phoneNumber, search)
  }

  /** The rank selector; None is the "ALL" choice. */
  function MatchesRank(m: Member, rankFilter: Option<Rank>): (b: bool)
    ensures b <==> rankFilter in {None, Some(m.rank)}
  {
    rankFilter.None? || m.rank == rankFilter.value
  }

  /**
   * Whether the directory lists a member, as one predicate for `filter`: an
   * empty search lets every member through, and "ALL" every rank.
   */
  function ShownBy(search: string, rankFilter: Option<Rank>): (p: Member -> bool)
    ensures forall m :: p(m) <==> (search == [] || MatchesSearch(m, search)) && MatchesRank(m, rankFilter)
  {
    m => (search == [] || MatchesSearch(m, search)) && MatchesRank(m, rankFilter)
  }

  /**
   * filterMembers. The fetched list is a value the method cannot change; the
   * filters work on a copy, which is sorted in place in an array and returned
   * as the new displayed list. ShownFacts says what that list holds and in which order.
   */
  method FilterMembers(members: seq<Member>, search: string, rankFilter: Option<Rank>) returns (shown: seq<Member>)
    ensures shown == SortMembers(Filter(members, ShownBy(search, rankFilter)))
  {
    ghost var keep := ShownBy(search, rankFilter);
    ghost var bySearch := (m: Member) => search == [] || MatchesSearch(m, search);
    var filtered := members;
    if search != [] {
      var s := ToLower(search);
      var hit := (m: Member) => Includes(ToLower(m.nameIC), s) || Includes(m.callsign, search) || Includes(m.phoneNumber, search);
      filtered := Filter(filtered, hit);
      assert filtered == Filter(members, bySearch) by {
        FilterSamePredicate(members, hit, bySearch);
      }
    } else {
      assert filtered == Filter(members, bySearch) by {
        FilterAll(members, bySearch);
      }
    }
    if rankFilter.Some? {
      var sameRank := (m: Member) => m.rank == rankFilter.value;
      filtered := Filter(filtered, sameRank);
      assert filtered == Filter(members, keep) by {
        FilterFilter(members, bySearch, sameRank, keep);
      }
    } else {
      assert filtered == Filter(members, keep) by {
        FilterSamePredicate(members, bySearch, keep);
      }
    }
    var a := new Member[|filtered|](k requires 0 <= k < |filtered| => filtered[k]);
    assert a[..] == filtered;
    SortInPlace(a, Compare);
    shown := a[..];
  }

  /** What the displayed list holds and in which order, for any fetched list. */
  lemma ShownFacts(s: seq<Member>, search: string, rankFilter: Option<Rank>)
    ensures var shown := SortMembers(Filter(s, ShownBy(search, rankFilter)));
      && (forall x :: multiset(shown)[x]
                      == if (search == [] || MatchesSearch(x, search)) && MatchesRank(x, rankFilter) then multiset(s)[x] else 0)
      && (forall k :: 0 <= k < |shown| ==>
            shown[k] in s && (search == [] || MatchesSearch(shown[k], search)) && MatchesRank(shown[k], rankFilter))
      && (AllParse(s) ==> SortedBy(shown, Compare))
  {
    var filtered := Filter(s, ShownBy(search, rankFilter));
    var shown := SortMembers(filtered);
    FilterCounts(s, ShownBy(search, rankFilter));
    FilterKeeps(s, ShownBy(search, rankFilter));
    forall k | 0 <= k < |shown| ensures shown[k] in s && ShownBy(search, rankFilter)(shown[k]) {
      assert shown[k] in multiset(filtered);
    }
    FilteredParse(s, ShownBy(search, rankFilter));
  }

  /** Filtering keeps only members of the input, so their callsigns still parse. */
  lemma FilteredParse(s: seq<Member>, p: Member -> bool)
    ensures AllParse(s) ==> AllParse(Filter(s, p))
  {
    FilterKeeps(s, p);
  }

  /** With an empty search and "ALL" selected the directory lists every member, as a permutation. */
  lemma ShowsEveryone(members: seq<Member>)
    ensures Filter(members, ShownBy([], None)) == members
  {
    FilterAll(members, ShownBy([], None));
  }
}
