/**
 * The rank model of lib/callsign.ts: the eight ranks, their seniority order
 * (RANK_ORDER, index 0 = most senior), the callsign band each rank owns
 * (RANK_RANGES) and the predicates over the order.
 */
module Ranks {
  import opened Wrappers

  datatype Rank =
    | DirectorGeneral
    | DirectorAdjunct
    | MedicPrimar
    | MedicChirurg
    | MedicRezident
    | Asistent
    | Paramedic
    | Stagiar

  /** A closed integer interval [min, max]. */
  datatype Range = Range(min: int, max: int)

  /** RANK_ORDER: most senior first. */
  const RankOrder: seq<Rank> := [
    DirectorGeneral, DirectorAdjunct, MedicPrimar, MedicChirurg,
    MedicRezident, Asistent, Paramedic, Stagiar
  ]

  /** The enum member's name, as stored in the database and in the session. */
  function RankName(r: Rank): (name: string)
    ensures name != [] && forall k :: 0 <= k < |name| ==> 'A' <= name[k] <= 'Z' || name[k] == '_'
  {
    match r
    case DirectorGeneral => "DIRECTOR_GENERAL"
    case DirectorAdjunct => "DIRECTOR_ADJUNCT"
    case MedicPrimar => "MEDIC_PRIMAR"
    case MedicChirurg => "MEDIC_CHIRURG"
    case MedicRezident => "MEDIC_REZIDENT"
    case Asistent => "ASISTENT"
    case Paramedic => "PARAMEDIC"
    case Stagiar => "STAGIAR"
  }

  /** The rank a name denotes (the `as Rank` cast of a request or session string); None if none. */
  function RankFromName(name: string): (r: Option<Rank>)
    ensures r.Some? ==> RankName(r.value) == name
    ensures r.None? ==> forall q :: RankName(q) != name
  {
    if name == "DIRECTOR_GENERAL" then Some(DirectorGeneral)
    else if name == "DIRECTOR_ADJUNCT" then Some(DirectorAdjunct)
    else if name == "MEDIC_PRIMAR" then Some(MedicPrimar)
    else if name == "MEDIC_CHIRURG" then Some(MedicChirurg)
    else if name == "MEDIC_REZIDENT" then Some(MedicRezident)
    else if name == "ASISTENT" then Some(Asistent)
    else if name == "PARAMEDIC" then Some(Paramedic)
    else if name == "STAGIAR" then Some(Stagiar)
    else None
  }

  lemma RankNameRoundTrip(r: Rank)
    ensures RankFromName(RankName(r)) == Some(r)
  {
  }

  /** RANK_ORDER.indexOf(r): the position of r in the seniority order. */
  function Index(r: Rank): (i: nat)
    ensures i < |RankOrder| && RankOrder[i] == r
  {
    match r
    case DirectorGeneral => 0
    case DirectorAdjunct => 1
    case MedicPrimar => 2
    case MedicChirurg => 3
    case MedicRezident => 4
    case Asistent => 5
    case Paramedic => 6
    case Stagiar => 7
  }

  /** No rank occurs twice in RANK_ORDER, so Index is the first (and only) occurrence. */
  lemma RankOrderDistinct(i: int, j: int)
    requires 0 <= i < |RankOrder| && 0 <= j < |RankOrder|
    requires RankOrder[i] == RankOrder[j]
    ensures i == j && Index(RankOrder[i]) == i
  {
  }

  /** Every rank occurs in RANK_ORDER. */
  lemma RankOrderComplete(r: Rank)
    ensures r in RankOrder && RankOrder[..Index(r)] + [r] + RankOrder[Index(r) + 1..] == RankOrder
  {
  }

  /** RANK_RANGES. */
  function Band(r: Rank): (b: Range)
    ensures 1 <= b.min <= b.max <= 599
  {
    match r
    case DirectorGeneral => Range(1, 2)
    case DirectorAdjunct => Range(3, 5)
    case MedicPrimar => Range(6, 99)
    case MedicChirurg => Range(100, 199)
    case MedicRezident => Range(200, 299)
    case Asistent => Range(300, 399)
    case Paramedic => Range(400, 499)
    case Stagiar => Range(500, 599)
  }

  /** Every band holds at least two numbers. */
  lemma BandHoldsTwo(r: Rank)
    ensures Band(r).min < Band(r).max
  {
  }

  predicate InBand(n: int, r: Rank) {
    Band(r).min <= n <= Band(r).max
  }

  /** Bands ascend along RANK_ORDER: a more senior rank's band lies wholly below a junior one's. */
  lemma BandsAscend(a: Rank, b: Rank)
    requires Index(a) < Index(b)
    ensures Band(a).max < Band(b).min
  {
  }

  /** Consecutive bands in RANK_ORDER are adjacent, from 1 up to 599, with no gap. */
  lemma BandsContiguous(i: nat)
    requires i + 1 < |RankOrder|
    ensures Band(RankOrder[i + 1]).min == Band(RankOrder[i]).max + 1
    ensures Band(RankOrder[0]).min == 1 && Band(RankOrder[|RankOrder| - 1]).max == 599
  {
  }

  /** Bands of distinct ranks never overlap. */
  lemma BandsDisjoint(a: Rank, b: Rank, n: int)
    requires InBand(n, a) && InBand(n, b)
    ensures a == b
  {
    if Index(a) < Index(b) {
      BandsAscend(a, b);
    } else if Index(b) < Index(a) {
      BandsAscend(b, a);
    }
  }

  /** The rank whose band holds n, if any. */
  function RankOfNumber(n: int): (r: Option<Rank>)
    ensures r.Some? ==> InBand(n, r.value)
    ensures r.None? <==> (n < 1 || n > 599)
  {
    if n < 1 || n > 599 then None
    else if n <= 2 then Some(DirectorGeneral)
    else if n <= 5 then Some(DirectorAdjunct)
    else if n <= 99 then Some(MedicPrimar)
    else if n <= 199 then Some(MedicChirurg)
    else if n <= 299 then Some(MedicRezident)
    else if n <= 399 then Some(Asistent)
    else if n <= 499 then Some(Paramedic)
    else Some(Stagiar)
  }

  /** Every number 1..599 belongs to exactly one rank's band. */
  lemma BandsPartitionNumbers(n: int, r: Rank)
    requires 1 <= n <= 599
    ensures InBand(n, r) <==> RankOfNumber(n) == Some(r)
  {
    if InBand(n, r) {
      BandsDisjoint(r, RankOfNumber(n).value, n);
    }
  }

  /** isManagement: the management ranks are exactly the two most senior ones. */
  function IsManagement(r: Rank): (b: bool)
    ensures b <==> Index(r) < 2
  {
    r == DirectorGeneral || r == DirectorAdjunct
  }

  /** `isManagement(session.user.rank as Rank)` on the session's rank string. */
  function IsManagementName(name: string): (b: bool)
    ensures b <==> (name == "DIRECTOR_GENERAL" || name == "DIRECTOR_ADJUNCT")
  {
    match RankFromName(name)
    case Some(r) => IsManagement(r)
    case None => false
  }

  /** canPromoteTo: the target comes before the current rank in RANK_ORDER. */
  function CanPromoteTo(current: Rank, target: Rank): (b: bool)
    ensures b <==> exists i, j :: 0 <= i < j < |RankOrder| && RankOrder[i] == target && RankOrder[j] == current
  {
    PositionIsIndex();
    Index(target) < Index(current)
  }

  /** canDemoteTo: the target comes after the current rank in RANK_ORDER. */
  function CanDemoteTo(current: Rank, target: Rank): (b: bool)
    ensures b <==> exists i, j :: 0 <= i < j < |RankOrder| && RankOrder[i] == current && RankOrder[j] == target
  {
    PositionIsIndex();
    Index(target) > Index(current)
  }

  /** The rank at each position of RANK_ORDER has that position as its index. */
  lemma PositionIsIndex()
    ensures forall i :: 0 <= i < |RankOrder| ==> Index(RankOrder[i]) == i
  {
    forall i | 0 <= i < |RankOrder| ensures Index(RankOrder[i]) == i {
      RankOrderDistinct(i, Index(RankOrder[i]));
    }
  }

  /** Exactly one of: promotion, demotion, same rank. */
  lemma PromoteDemoteTrichotomy(current: Rank, target: Rank)
    ensures !(CanPromoteTo(current, target) && CanDemoteTo(current, target))
    ensures !CanPromoteTo(current, target) && !CanDemoteTo(current, target) <==> current == target
    ensures CanPromoteTo(current, target) <==> CanDemoteTo(target, current)
  {
    if Index(current) == Index(target) {
      RankOrderDistinct(Index(current), Index(target));
    }
  }
}
