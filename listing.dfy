/**
 * The member order both directory pages show: the comparator they hand to
 * `Array.prototype.sort` (rank index, then numeric callsign) and the sorted
 * list it produces.
 */
module Listing {
  import opened Wrappers
  import opened Ranks
  import opened Callsigns
  import opened Roster
  import opened Sorting

  /**
   * The comparator `(a, b) => aIndex - bIndex || parseInt(a.callsign) -
   * parseInt(b.callsign)`, by sign. A NaN difference (a callsign that does not
   * parse) counts as 0, as the sort treats it.
   */
  function Compare(a: Member, b: Member): (c: int)
    ensures Index(a.rank) < Index(b.rank) ==> c < 0
    ensures Index(a.rank) > Index(b.rank) ==> c > 0
    ensures a.rank == b.rank && ParseCallsign(a.callsign).Some? && ParseCallsign(b.callsign).Some?
            ==> c == Number(a) - Number(b)
  {
    if Index(a.rank) != Index(b.rank) then Index(a.rank) - Index(b.rank)
    else match (ParseCallsign(a.callsign), ParseCallsign(b.callsign))
      case (Some(x), Some(y)) => x as int - y as int
      case _ => 0
  }

  /** The comparator is antisymmetric: swapping the arguments flips its sign. */
  lemma CompareFlips(a: Member, b: Member)
    ensures Compare(a, b) > 0 <==> Compare(b, a) < 0
    ensures Compare(a, b) == 0 <==> Compare(b, a) == 0
  {
  }

  predicate Parses(m: Member) {
    ParseCallsign(m.callsign).Some?
  }

  predicate AllParse(s: seq<Member>) {
    forall k :: 0 <= k < |s| ==> Parses(s[k])
  }

  /** Between members whose callsigns parse, the comparator orders by (rank index, callsign number). */
  lemma CompareIsLexicographic(a: Member, b: Member)
    requires Parses(a) && Parses(b)
    ensures Compare(a, b) <= 0 <==>
      Index(a.rank) < Index(b.rank) || (Index(a.rank) == Index(b.rank) && Number(a) <= Number(b))
  {
    if Index(a.rank) == Index(b.rank) {
      RankOrderDistinct(Index(a.rank), Index(b.rank));
    }
  }

  /**
   * A callsign that does not parse (NaN) ties with every member of its rank,
   * so the comparator is no preorder once such a callsign is present.
   */
  lemma UnparsedBreaksTransitivity(a: Member, b: Member, c: Member)
    requires a.rank == b.rank == c.rank && !Parses(a) && Parses(b) && Parses(c)
    requires Number(b) > Number(c)
    ensures Compare(b, a) <= 0 && Compare(a, c) <= 0 && Compare(b, c) > 0
  {
  }

  /** Among members whose callsigns parse, the comparator is total and transitive. */
  lemma ComparePreorder()
    ensures PreorderOn(Compare, iset m | Parses(m))
  {
    forall a, b, c | Parses(a) && Parses(b) && Parses(c) && Compare(a, b) <= 0 && Compare(b, c) <= 0
      ensures Compare(a, c) <= 0
    {
      CompareIsLexicographic(a, b);
      CompareIsLexicographic(b, c);
      CompareIsLexicographic(a, c);
    }
    forall a, b | Parses(a) && Parses(b) ensures Compare(a, b) <= 0 || Compare(b, a) <= 0 {
      CompareFlips(a, b);
    }
  }

  /** `s.sort(compare)`: the order both pages show. */
  function SortMembers(s: seq<Member>): (r: seq<Member>)
    ensures multiset(r) == multiset(s)
    ensures AllParse(s) ==> SortedBy(r, Compare)
  {
    SortByPermutes(s, Compare);
    if AllParse(s) then
      ComparePreorder();
      SortBySorted(s, Compare, iset m | Parses(m));
      SortBy(s, Compare)
    else
      SortBy(s, Compare)
  }

  /**
   * The sorted list read pair by pair: an earlier member has a more senior
   * rank, or the same rank and a callsign number no larger.
   */
  lemma SortMembersOrder(s: seq<Member>, i: int, j: int)
    requires AllParse(s)
    requires 0 <= i < j < |s|
    ensures var r := SortMembers(s);
      Parses(r[i]) && Parses(r[j]) &&
      (Index(r[i].rank) < Index(r[j].rank) || (r[i].rank == r[j].rank && Number(r[i]) <= Number(r[j])))
  {
    var r := SortMembers(s);
    PermutationWithin(s, r, iset m | Parses(m));
    CompareIsLexicographic(r[i], r[j]);
    if Index(r[i].rank) == Index(r[j].rank) {
      RankOrderDistinct(Index(r[i].rank), Index(r[j].rank));
    }
  }

  /**
   * The shown order is stable: members with the same rank and the same
   * callsign number as y appear in the order they were fetched.
   */
  lemma SortMembersStable(s: seq<Member>, y: Member)
    requires AllParse(s) && Parses(y)
    ensures Filter(SortMembers(s), TiedWith(Compare, y)) == Filter(s, TiedWith(Compare, y))
    ensures forall m :: Parses(m) ==> (TiedWith(Compare, y)(m) <==> m.rank == y.rank && Number(m) == Number(y))
  {
    ComparePreorder();
    SortByKeepsTiesInOrder(s, Compare, (iset m | Parses(m)), y);
    forall m | Parses(m) ensures TiedWith(Compare, y)(m) <==> m.rank == y.rank && Number(m) == Number(y) {
      CompareIsLexicographic(m, y);
      CompareIsLexicographic(y, m);
      if Index(m.rank) == Index(y.rank) {
        RankOrderDistinct(Index(m.rank), Index(y.rank));
      }
    }
  }

  /** Sorting a list already in the shown order changes nothing, so re-sorting is harmless. */
  lemma SortMembersIdempotent(s: seq<Member>)
    requires AllParse(s)
    ensures SortMembers(SortMembers(s)) == SortMembers(s)
  {
    SortedUnchanged(SortMembers(s), Compare);
  }
}
