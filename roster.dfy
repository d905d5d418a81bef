/**
 * The member table and the action log, and the three admin workflows that
 * change them: recruit (app/api/admin/recruit/route.ts), rank change
 * (app/api/admin/rank-change/route.ts) and dismiss
 * (app/api/admin/dismiss/route.ts).
 *
 * Each workflow is specified by a step function from the old table and log to
 * a response and the new table and log; the class RosterStore performs the
 * same workflow by updating its fields in place.
 */
module Roster {
  import opened Wrappers
  import opened Ranks
  import opened Callsigns

  datatype Member = Member(
    id: int,
    nameIC: string,
    cnp: string,
    discordId: string,
    phoneNumber: string,
    rank: Rank,
    callsign: string,
    avatarUrl: Option<string>)

  datatype ActionType = RecruitAction | RankChangeAction | DismissAction

  /** One row of the append-only action log. */
  datatype LogEntry = LogEntry(
    actionType: ActionType,
    targetId: int,
    performedBy: int,
    reason: Option<string>,
    oldRank: Option<Rank>,
    newRank: Option<Rank>)

  /** The signed-in user as the session reports it; the rank is the string stored at sign-in. */
  datatype Session = Session(memberId: int, rank: string)

  /** Request bodies. An empty string stands for a missing or empty field. */
  datatype RecruitRequest = RecruitRequest(nameIC: string, cnp: string, discordId: string, phoneNumber: string)
  datatype RankChangeRequest = RankChangeRequest(memberId: Option<int>, newRank: string, reason: Option<string>)
  datatype DismissRequest = DismissRequest(memberId: Option<int>, reason: string)

  /**
   * What a workflow answers. BadRequest is the 400 validation error;
   * ServerError is the 500 answer of the catch-all handler, which is where an
   * exhausted band (the allocator's throw) and an unknown rank name end up.
   */
  datatype Response =
    | Recruited(member: Member, callsign: string)
    | RankChanged(member: Member, newCallsign: string)
    | Dismissed
    | Unauthorized
    | Forbidden
    | BadRequest
    | NotFound
    | ServerError

  /** The database: members by id, the next autoincrement id, and the action log. */
  datatype Db = Db(members: map<int, Member>, nextId: int, log: seq<LogEntry>)

  /** Ids are positive, below the autoincrement counter, and match the record's own id. */
  predicate WellKeyed(db: Db) {
    && db.nextId >= 1
    && forall id :: id in db.members ==> 1 <= id < db.nextId && db.members[id].id == id
  }

  /** `!memberId`: absent, or the falsy number 0. */
  function MissingId(memberId: Option<int>): (b: bool)
    ensures b <==> memberId == None || memberId == Some(0)
  {
    memberId.None? || memberId.value == 0
  }

  /** The set of parsed callsigns of the members holding rank (non-numeric callsigns parse to NaN and drop out). */
  function UsedNumbers(members: map<int, Member>, rank: Rank): (used: set<int>)
    ensures forall id :: id in members && members[id].rank == rank && ParseCallsign(members[id].callsign).Some?
                         ==> ParseCallsign(members[id].callsign).value in used
    ensures forall n :: n in used ==> exists id :: id in members && members[id].rank == rank
                                                   && ParseCallsign(members[id].callsign) == Some(n)
  {
    set id | id in members && members[id].rank == rank && ParseCallsign(members[id].callsign).Some?
      :: ParseCallsign(members[id].callsign).value
  }

  /** The recruit route's duplicate check: some member already has this CNP or this Discord id. */
  function IdentityTaken(members: map<int, Member>, cnp: string, discordId: string): (b: bool)
    ensures b <==> cnp in (set id | id in members :: members[id].cnp)
                   || discordId in (set id | id in members :: members[id].discordId)
  {
    exists id :: id in members && (members[id].cnp == cnp || members[id].discordId == discordId)
  }

  /** The common guard of the admin routes: no session, or a session whose rank is not management. */
  function AuthFailure(session: Option<Session>): (r: Option<Response>)
    ensures r == None <==> session.Some? && (session.value.rank == "DIRECTOR_GENERAL" || session.value.rank == "DIRECTOR_ADJUNCT")
    ensures r.Some? ==> r.value == (if session.None? then Unauthorized else Forbidden)
  {
    if session.None? then Some(Unauthorized)
    else if !IsManagementName(session.value.rank) then Some(Forbidden)
    else None
  }

  /** Distinct members of one rank never share a callsign. */
  predicate CallsignsDistinct(members: map<int, Member>) {
    forall a, b :: a in members && b in members && a != b && members[a].rank == members[b].rank
      ==> members[a].callsign != members[b].callsign
  }

  /** Every callsign is the formatted form of a number of its holder's band. */
  predicate CallsignsInBand(members: map<int, Member>) {
    forall id :: id in members ==>
      var n := ParseCallsign(members[id].callsign);
      n.Some? && InBand(n.value, members[id].rank) && members[id].callsign == FormatCallsign(n.value)
  }

  // ---------------------------------------------------------------- recruit

  /** POST /api/admin/recruit. */
  function RecruitStep(db: Db, session: Option<Session>, req: RecruitRequest): (r: (Response, Db))
    ensures !r.0.Recruited? ==> r.1 == db
  {
    if AuthFailure(session).Some? then (AuthFailure(session).value, db)
    else if req.nameIC == "" || req.cnp == "" || req.discordId == "" || req.phoneNumber == "" then (BadRequest, db)
    else if IdentityTaken(db.members, req.cnp, req.discordId) then (BadRequest, db)
    else match Allocate(Stagiar, UsedNumbers(db.members, Stagiar))
      case None => (ServerError, db)
      case Some(callsign) =>
        var m := Member(db.nextId, req.nameIC, req.cnp, req.discordId, req.phoneNumber, Stagiar, callsign, None);
        var entry := LogEntry(RecruitAction, m.id, session.value.memberId, None, None, Some(Stagiar));
        (Recruited(m, callsign), Db(db.members[m.id := m], db.nextId + 1, db.log + [entry]))
  }

  /**
   * The recruit route's answers: 401 without a session, 403 for a non-management
   * rank, 400 for a missing field or a CNP or Discord id already on the roster,
   * 500 when the STAGIAR band is exhausted, and otherwise a new STAGIAR member
   * under the next id with the lowest free callsign and a RECRUIT log entry.
   */
  lemma RecruitOutcomes(db: Db, session: Option<Session>, req: RecruitRequest)
    ensures var r := RecruitStep(db, session, req);
      && (r.0 == Unauthorized <==> session.None?)
      && (r.0 == Forbidden <==> session.Some? && !IsManagementName(session.value.rank))
      && (r.0 == BadRequest <==>
           AuthFailure(session).None? &&
           (req.nameIC == "" || req.cnp == "" || req.discordId == "" || req.phoneNumber == ""
            || IdentityTaken(db.members, req.cnp, req.discordId)))
      && (r.0 == ServerError <==>
           r.0 != BadRequest && AuthFailure(session).None? && BandFull(Stagiar, UsedNumbers(db.members, Stagiar)))
      && !(r.0.RankChanged? || r.0.Dismissed? || r.0 == NotFound)
  {
  }

  /** A successful recruit: the new member, its callsign, the stored row and the log entry. */
  lemma RecruitSuccess(db: Db, session: Option<Session>, req: RecruitRequest)
    requires RecruitStep(db, session, req).0.Recruited?
    ensures var r := RecruitStep(db, session, req);
      var m := r.0.member;
      && m == Member(db.nextId, req.nameIC, req.cnp, req.discordId, req.phoneNumber, Stagiar, r.0.callsign, None)
      && Some(m.callsign) == Allocate(Stagiar, UsedNumbers(db.members, Stagiar))
      && r.1.members == db.members[m.id := m]
      && r.1.nextId == db.nextId + 1
      && r.1.log == db.log + [LogEntry(RecruitAction, m.id, session.value.memberId, None, None, Some(Stagiar))]
  {
  }

  /** Recruiting keeps the table well keyed, and the new id was not in use. */
  lemma RecruitKeepsWellKeyed(db: Db, session: Option<Session>, req: RecruitRequest)
    requires WellKeyed(db)
    ensures var r := RecruitStep(db, session, req);
      WellKeyed(r.1) && (r.0.Recruited? ==> r.0.member.id !in db.members)
  {
    var r := RecruitStep(db, session, req);
    if r.0.Recruited? {
      RecruitSuccess(db, session, req);
      var m := r.0.member;
      forall id | id in r.1.members ensures 1 <= id < r.1.nextId && r.1.members[id].id == id {
        if id != m.id {
          assert id in db.members;
        }
      }
    }
  }

  /** The successful recruit, spelled out for a caller that has already passed every guard. */
  lemma RecruitStepSucceeds(db: Db, session: Option<Session>, req: RecruitRequest, callsign: string)
    requires session.Some? && IsManagementName(session.value.rank)
    requires req.nameIC != "" && req.cnp != "" && req.discordId != "" && req.phoneNumber != ""
    requires !IdentityTaken(db.members, req.cnp, req.discordId)
    requires Allocate(Stagiar, UsedNumbers(db.members, Stagiar)) == Some(callsign)
    ensures RecruitStep(db, session, req).0
            == Recruited(Member(db.nextId, req.nameIC, req.cnp, req.discordId, req.phoneNumber, Stagiar, callsign, None), callsign)
    ensures RecruitStep(db, session, req).1.members
            == db.members[db.nextId := Member(db.nextId, req.nameIC, req.cnp, req.discordId, req.phoneNumber, Stagiar, callsign, None)]
    ensures RecruitStep(db, session, req).1.nextId == db.nextId + 1
    ensures RecruitStep(db, session, req).1.log
            == db.log + [LogEntry(RecruitAction, db.nextId, session.value.memberId, None, None, Some(Stagiar))]
  {
  }

  // ------------------------------------------------------------ rank change

  /** POST /api/admin/rank-change. No promotion or demotion legality check is made. */
  function RankChangeStep(db: Db, session: Option<Session>, req: RankChangeRequest): (r: (Response, Db))
    ensures !r.0.RankChanged? ==> r.1 == db
  {
    if AuthFailure(session).Some? then (AuthFailure(session).value, db)
    else if MissingId(req.memberId) || req.newRank == "" then (BadRequest, db)
    else if req.memberId.value !in db.members then (NotFound, db)
    else
      var id := req.memberId.value;
      var prev := db.members[id];
      match RankFromName(req.newRank)
      case None => (ServerError, db)
      case Some(newRank) =>
        match Allocate(newRank, UsedNumbers(db.members, newRank))
        case None => (ServerError, db)
        case Some(callsign) =>
          var m := prev.(rank := newRank, callsign := callsign);
          var entry := LogEntry(RankChangeAction, id, session.value.memberId, req.reason, Some(prev.rank), Some(newRank));
          (RankChanged(m, callsign), Db(db.members[id := m], db.nextId, db.log + [entry]))
  }

  /**
   * The rank-change route's answers: 401, 403, 400 for a missing (or zero)
   * member id or rank, 404 for an unknown member, 500 for a rank name the
   * table does not know or an exhausted band, and success in every other case.
   */
  lemma RankChangeOutcomes(db: Db, session: Option<Session>, req: RankChangeRequest)
    ensures var r := RankChangeStep(db, session, req);
      && (r.0 == Unauthorized <==> session.None?)
      && (r.0 == Forbidden <==> session.Some? && !IsManagementName(session.value.rank))
      && (r.0 == BadRequest <==> AuthFailure(session).None? && (MissingId(req.memberId) || req.newRank == ""))
      && (r.0 == NotFound <==>
           AuthFailure(session).None? && !MissingId(req.memberId) && req.newRank != "" && req.memberId.value !in db.members)
      && (r.0 == ServerError <==>
           AuthFailure(session).None? && !MissingId(req.memberId) && req.newRank != "" && req.memberId.value in db.members
           && (RankFromName(req.newRank).None?
               || BandFull(RankFromName(req.newRank).value, UsedNumbers(db.members, RankFromName(req.newRank).value))))
      && (r.0.RankChanged? <==>
           AuthFailure(session).None? && !MissingId(req.memberId) && req.newRank != "" && req.memberId.value in db.members
           && RankFromName(req.newRank).Some?
           && !BandFull(RankFromName(req.newRank).value, UsedNumbers(db.members, RankFromName(req.newRank).value)))
      && (r.0.RankChanged? || r.0 in {Unauthorized, Forbidden, BadRequest, NotFound, ServerError})
  {
  }

  /** A successful rank change: the member keeps its id and details, takes the new rank and a fresh callsign of it. */
  lemma RankChangeSuccess(db: Db, session: Option<Session>, req: RankChangeRequest)
    requires RankChangeStep(db, session, req).0.RankChanged?
    ensures var r := RankChangeStep(db, session, req);
      var id := req.memberId.value;
      var m := r.0.member;
      && id in db.members
      && RankFromName(req.newRank) == Some(m.rank)
      && m == db.members[id].(rank := m.rank, callsign := r.0.newCallsign)
      && Some(m.callsign) == Allocate(m.rank, UsedNumbers(db.members, m.rank))
      && r.1.members == db.members[id := m]
      && r.1.nextId == db.nextId
      && r.1.log == db.log + [LogEntry(RankChangeAction, id, session.value.memberId, req.reason,
                                       Some(db.members[id].rank), Some(m.rank))]
  {
  }

  lemma RankChangeKeepsWellKeyed(db: Db, session: Option<Session>, req: RankChangeRequest)
    requires WellKeyed(db)
    ensures WellKeyed(RankChangeStep(db, session, req).1)
  {
    var r := RankChangeStep(db, session, req);
    if r.0.RankChanged? {
      var id := req.memberId.value;
      assert id in db.members && r.1.members == db.members[id := r.0.member]
             && r.1.nextId == db.nextId && r.0.member.id == id by {
        RankChangeSuccess(db, session, req);
      }
    }
  }

  // ---------------------------------------------------------------- dismiss

  /** POST /api/admin/dismiss: the DISMISS entry is logged, then the member row is deleted. */
  function DismissStep(db: Db, session: Option<Session>, req: DismissRequest): (r: (Response, Db))
    ensures !r.0.Dismissed? ==> r.1 == db
  {
    if AuthFailure(session).Some? then (AuthFailure(session).value, db)
    else if MissingId(req.memberId) || req.reason == "" then (BadRequest, db)
    else if req.memberId.value !in db.members then (NotFound, db)
    else
      var id := req.memberId.value;
      var entry := LogEntry(DismissAction, id, session.value.memberId, Some(req.reason), Some(db.members[id].rank), None);
      (Dismissed, Db(db.members - {id}, db.nextId, db.log + [entry]))
  }

  /** The dismiss route's answers: 401, 403, 400 for a missing (or zero) member id or reason, 404 for an unknown member. */
  lemma DismissOutcomes(db: Db, session: Option<Session>, req: DismissRequest)
    ensures var r := DismissStep(db, session, req);
      && (r.0 == Unauthorized <==> session.None?)
      && (r.0 == Forbidden <==> session.Some? && !IsManagementName(session.value.rank))
      && (r.0 == BadRequest <==> AuthFailure(session).None? && (MissingId(req.memberId) || req.reason == ""))
      && (r.0 == NotFound <==>
           AuthFailure(session).None? && !MissingId(req.memberId) && req.reason != "" && req.memberId.value !in db.members)
      && r.0 in {Dismissed, Unauthorized, Forbidden, BadRequest, NotFound}
  {
  }

  /** A successful dismissal deletes exactly the member's row and logs its last rank. */
  lemma DismissSuccess(db: Db, session: Option<Session>, req: DismissRequest)
    requires DismissStep(db, session, req).0.Dismissed?
    ensures var r := DismissStep(db, session, req);
      var id := req.memberId.value;
      && id in db.members
      && r.1.members == db.members - {id}
      && r.1.nextId == db.nextId
      && r.1.log == db.log + [LogEntry(DismissAction, id, session.value.memberId, Some(req.reason),
                                       Some(db.members[id].rank), None)]
  {
  }

  lemma DismissKeepsWellKeyed(db: Db, session: Option<Session>, req: DismissRequest)
    requires WellKeyed(db)
    ensures WellKeyed(DismissStep(db, session, req).1)
  {
    if DismissStep(db, session, req).0.Dismissed? {
      DismissSuccess(db, session, req);
    }
  }

  // ------------------------------------------- invariants the workflows keep

  /** A callsign that parses to a number outside used is held by no member of that rank. */
  lemma FreshCallsignUnheld(members: map<int, Member>, rank: Rank, n: nat, id: int)
    requires n !in UsedNumbers(members, rank)
    requires id in members && members[id].rank == rank
    ensures members[id].callsign != FormatCallsign(n)
  {
    ParseFormatRoundTrip(n);
  }

  /**
   * Storing a member whose callsign is the formatted form of an unused number
   * of its band (a fresh row, or an update of an existing one) keeps both
   * callsign invariants.
   */
  lemma PutKeepsCallsignInvariants(members: map<int, Member>, k: int, m: Member, n: nat)
    requires CallsignsDistinct(members) && CallsignsInBand(members)
    requires InBand(n, m.rank) && n !in UsedNumbers(members, m.rank) && m.callsign == FormatCallsign(n)
    ensures CallsignsDistinct(members[k := m]) && CallsignsInBand(members[k := m])
  {
    var after := members[k := m];
    ParseFormatRoundTrip(n);
    forall a, b | a in after && b in after && a != b && after[a].rank == after[b].rank
      ensures after[a].callsign != after[b].callsign
    {
      if a == k {
        FreshCallsignUnheld(members, m.rank, n, b);
      } else if b == k {
        FreshCallsignUnheld(members, m.rank, n, a);
      }
    }
  }

  lemma RecruitKeepsCallsignInvariants(db: Db, session: Option<Session>, req: RecruitRequest)
    requires CallsignsDistinct(db.members) && CallsignsInBand(db.members)
    ensures CallsignsDistinct(RecruitStep(db, session, req).1.members)
    ensures CallsignsInBand(RecruitStep(db, session, req).1.members)
  {
    var r := RecruitStep(db, session, req);
    if r.0.Recruited? {
      RecruitSuccess(db, session, req);
      var m := r.0.member;
      var used := UsedNumbers(db.members, Stagiar);
      var n :| InBand(n, Stagiar) && n !in used && m.callsign == FormatCallsign(n);
      PutKeepsCallsignInvariants(db.members, m.id, m, n);
    }
  }

  lemma RankChangeKeepsCallsignInvariants(db: Db, session: Option<Session>, req: RankChangeRequest)
    requires CallsignsDistinct(db.members) && CallsignsInBand(db.members)
    ensures CallsignsDistinct(RankChangeStep(db, session, req).1.members)
    ensures CallsignsInBand(RankChangeStep(db, session, req).1.members)
  {
    var r := RankChangeStep(db, session, req);
    if r.0.RankChanged? {
      var m := r.0.member;
      var used := UsedNumbers(db.members, m.rank);
      assert r.1.members == db.members[req.memberId.value := m] && Some(m.callsign) == Allocate(m.rank, used) by {
        RankChangeSuccess(db, session, req);
      }
      var n :| InBand(n, m.rank) && n !in used && m.callsign == FormatCallsign(n);
      PutKeepsCallsignInvariants(db.members, req.memberId.value, m, n);
    }
  }

  lemma DismissKeepsCallsignInvariants(db: Db, session: Option<Session>, req: DismissRequest)
    requires CallsignsDistinct(db.members) && CallsignsInBand(db.members)
    ensures CallsignsDistinct(DismissStep(db, session, req).1.members)
    ensures CallsignsInBand(DismissStep(db, session, req).1.members)
  {
  }

  // ------------------------------------------------- recycling of callsigns

  /** The number a member's callsign stands for (its parsed value), for members whose callsign parses. */
  function Number(m: Member): nat
    requires ParseCallsign(m.callsign).Some?
  {
    ParseCallsign(m.callsign).value
  }

  /** No two members of one rank hold callsigns that parse to the same value. */
  predicate NumbersDistinct(members: map<int, Member>) {
    forall a, b :: a in members && b in members && a != b && members[a].rank == members[b].rank
      ==> ParseCallsign(members[a].callsign) != ParseCallsign(members[b].callsign)
  }

  /** Under both callsign invariants, members of one rank also differ in their numbers. */
  lemma CallsignInvariantsGiveDistinctNumbers(members: map<int, Member>)
    requires CallsignsDistinct(members) && CallsignsInBand(members)
    ensures NumbersDistinct(members)
  {
    forall a, b | a in members && b in members && a != b && members[a].rank == members[b].rank
      ensures ParseCallsign(members[a].callsign) != ParseCallsign(members[b].callsign)
    {
      assert members[a].callsign != members[b].callsign;
    }
  }

  /** Removing a member takes exactly its number out of its rank's used set, and no other. */
  lemma UsedAfterRemove(members: map<int, Member>, id: int, rank: Rank)
    requires NumbersDistinct(members)
    requires id in members && ParseCallsign(members[id].callsign).Some?
    ensures UsedNumbers(members - {id}, rank)
            == UsedNumbers(members, rank) - (if members[id].rank == rank then {Number(members[id])} else {})
  {
    var before, after := UsedNumbers(members, rank), UsedNumbers(members - {id}, rank);
    var freed := if members[id].rank == rank then {Number(members[id])} else {};
    forall x | x in before - freed ensures x in after {
      var holder :| holder in members && members[holder].rank == rank && ParseCallsign(members[holder].callsign) == Some(x);
      assert holder in members - {id};
    }
    forall x | x in after ensures x in before && x !in freed {
      var holder :| holder in members - {id} && members[holder].rank == rank
                    && ParseCallsign(members[holder].callsign) == Some(x);
      assert holder in members && holder != id;
    }
  }

  /** Overwriting a member's row: the used set is the one without it, plus the new row's number. */
  lemma UsedAfterPut(members: map<int, Member>, id: int, m: Member, rank: Rank)
    requires ParseCallsign(m.callsign).Some?
    ensures UsedNumbers(members[id := m], rank)
            == UsedNumbers(members - {id}, rank) + (if m.rank == rank then {Number(m)} else {})
  {
    UsedAfterPutShrinks(members, id, m, rank);
    UsedAfterPutGrows(members, id, m, rank);
  }

  lemma UsedAfterPutShrinks(members: map<int, Member>, id: int, m: Member, rank: Rank)
    requires ParseCallsign(m.callsign).Some?
    ensures UsedNumbers(members[id := m], rank)
            <= UsedNumbers(members - {id}, rank) + (if m.rank == rank then {Number(m)} else {})
  {
    var updated := members[id := m];
    var rest := UsedNumbers(members - {id}, rank);
    forall x | x in UsedNumbers(updated, rank) ensures x in rest + (if m.rank == rank then {Number(m)} else {}) {
      var holder :| holder in updated && updated[holder].rank == rank
                    && ParseCallsign(updated[holder].callsign) == Some(x);
      if holder != id {
        assert holder in members - {id};
      }
    }
  }

  lemma UsedAfterPutGrows(members: map<int, Member>, id: int, m: Member, rank: Rank)
    requires ParseCallsign(m.callsign).Some?
    ensures UsedNumbers(members - {id}, rank) + (if m.rank == rank then {Number(m)} else {})
            <= UsedNumbers(members[id := m], rank)
  {
    UsedAfterPutKeepsOthers(members, id, m, rank);
    if m.rank == rank {
      var updated := members[id := m];
      assert id in updated && updated[id] == m;
    }
  }

  /** Rows other than the overwritten one keep their numbers in the used set. */
  lemma UsedAfterPutKeepsOthers(members: map<int, Member>, id: int, m: Member, rank: Rank)
    ensures UsedNumbers(members - {id}, rank) <= UsedNumbers(members[id := m], rank)
  {
    var updated := members[id := m];
    forall x | x in UsedNumbers(members - {id}, rank) ensures x in UsedNumbers(updated, rank) {
      var holder :| holder in members - {id} && members[holder].rank == rank
                    && ParseCallsign(members[holder].callsign) == Some(x);
      assert holder in updated && updated[holder] == members[holder];
    }
  }

  /** After a dismissal, the dismissed member's number is free again in its rank and nothing else changes. */
  lemma DismissFreesCallsign(db: Db, session: Option<Session>, req: DismissRequest, rank: Rank)
    requires CallsignsDistinct(db.members) && CallsignsInBand(db.members)
    requires DismissStep(db, session, req).0.Dismissed?
    ensures var gone := db.members[req.memberId.value];
            UsedNumbers(DismissStep(db, session, req).1.members, rank)
            == UsedNumbers(db.members, rank) - (if gone.rank == rank then {Number(gone)} else {})
  {
    CallsignInvariantsGiveDistinctNumbers(db.members);
    UsedAfterRemove(db.members, req.memberId.value, rank);
  }

  /** Moving a member to another rank frees its old number there and adds its new number to the new rank. */
  lemma MoveShiftsNumber(members: map<int, Member>, id: int, m: Member)
    requires NumbersDistinct(members)
    requires id in members && ParseCallsign(members[id].callsign).Some? && ParseCallsign(m.callsign).Some?
    requires m.rank != members[id].rank
    ensures UsedNumbers(members[id := m], members[id].rank)
            == UsedNumbers(members, members[id].rank) - {Number(members[id])}
    ensures UsedNumbers(members[id := m], m.rank) == UsedNumbers(members, m.rank) + {Number(m)}
  {
    UsedAfterPut(members, id, m, members[id].rank);
    UsedAfterRemove(members, id, members[id].rank);
    UsedAfterPut(members, id, m, m.rank);
    UsedAfterRemove(members, id, m.rank);
  }

  /**
   * After a rank change away from a rank, the member's old number is free in
   * the old rank; the new rank's used set gains exactly the new number.
   */
  lemma RankChangeMovesNumber(db: Db, session: Option<Session>, req: RankChangeRequest)
    requires CallsignsDistinct(db.members) && CallsignsInBand(db.members)
    requires RankChangeStep(db, session, req).0.RankChanged?
    requires RankFromName(req.newRank) != Some(db.members[req.memberId.value].rank)
    ensures var r := RankChangeStep(db, session, req);
            var was := db.members[req.memberId.value];
            && ParseCallsign(r.0.newCallsign).Some?
            && UsedNumbers(r.1.members, was.rank) == UsedNumbers(db.members, was.rank) - {Number(was)}
            && UsedNumbers(r.1.members, r.0.member.rank)
               == UsedNumbers(db.members, r.0.member.rank) + {Number(r.0.member)}
  {
    var r := RankChangeStep(db, session, req);
    var id := req.memberId.value;
    var m := r.0.member;
    var n :| InBand(n, m.rank) && n !in UsedNumbers(db.members, m.rank) && m.callsign == FormatCallsign(n);
    ParseFormatRoundTrip(n);
    CallsignInvariantsGiveDistinctNumbers(db.members);
    MoveShiftsNumber(db.members, id, m);
  }

  /**
   * A rank change to the member's current rank still allocates: its own number
   * counts as used, so it receives a different callsign.
   */
  lemma SameRankChangeMovesCallsign(db: Db, session: Option<Session>, req: RankChangeRequest)
    requires RankChangeStep(db, session, req).0.RankChanged?
    requires RankFromName(req.newRank) == Some(db.members[req.memberId.value].rank)
    ensures RankChangeStep(db, session, req).0.newCallsign != db.members[req.memberId.value].callsign
  {
    var r := RankChangeStep(db, session, req);
    var m := r.0.member;
    var n :| InBand(n, m.rank) && n !in UsedNumbers(db.members, m.rank) && m.callsign == FormatCallsign(n);
    FreshCallsignUnheld(db.members, m.rank, n, req.memberId.value);
  }

  /**
   * Recycling: when a STAGIAR member holding number n is dismissed and every
   * lower STAGIAR number is taken, the next recruit receives n's callsign.
   */
  lemma DismissThenRecruitReusesCallsign(
    db: Db, session: Option<Session>, dismiss: DismissRequest, recruit: RecruitRequest)
    requires CallsignsDistinct(db.members) && CallsignsInBand(db.members)
    requires DismissStep(db, session, dismiss).0.Dismissed?
    requires db.members[dismiss.memberId.value].rank == Stagiar
    requires forall j :: Band(Stagiar).min <= j < Number(db.members[dismiss.memberId.value])
                         ==> j in UsedNumbers(db.members, Stagiar)
    requires recruit.nameIC != "" && recruit.cnp != "" && recruit.discordId != "" && recruit.phoneNumber != ""
    requires !IdentityTaken(DismissStep(db, session, dismiss).1.members, recruit.cnp, recruit.discordId)
    ensures var r := RecruitStep(DismissStep(db, session, dismiss).1, session, recruit);
            r.0.Recruited? && r.0.callsign == db.members[dismiss.memberId.value].callsign
  {
    var after := DismissStep(db, session, dismiss).1;
    DismissSuccess(db, session, dismiss);
    RemovedNumberIsLowestFree(db.members, dismiss.memberId.value);
    RecruitSucceedsWithLowestFree(after, session, recruit, Number(db.members[dismiss.memberId.value]));
  }

  /**
   * Removing a member whose number is preceded in its band only by used numbers
   * makes that number the lowest free one of its rank.
   */
  lemma RemovedNumberIsLowestFree(members: map<int, Member>, id: int)
    requires CallsignsDistinct(members) && CallsignsInBand(members)
    requires id in members
    requires forall j :: Band(members[id].rank).min <= j < Number(members[id])
                         ==> j in UsedNumbers(members, members[id].rank)
    ensures var gone := members[id];
            var n := Number(gone);
            var rest := UsedNumbers(members - {id}, gone.rank);
            && InBand(n, gone.rank) && n !in rest && gone.callsign == FormatCallsign(n)
            && forall j :: Band(gone.rank).min <= j < n ==> j in rest
  {
    CallsignInvariantsGiveDistinctNumbers(members);
    UsedAfterRemove(members, id, members[id].rank);
  }

  // ------------------------------------------------------------- scenarios

  /**
   * An authorised recruit with complete, unused identity fields succeeds, and
   * receives the callsign of the lowest free STAGIAR number.
   */
  lemma RecruitSucceedsWithLowestFree(db: Db, session: Option<Session>, req: RecruitRequest, n: int)
    requires AuthFailure(session).None?
    requires req.nameIC != "" && req.cnp != "" && req.discordId != "" && req.phoneNumber != ""
    requires !IdentityTaken(db.members, req.cnp, req.discordId)
    requires InBand(n, Stagiar) && n !in UsedNumbers(db.members, Stagiar)
    requires forall j :: Band(Stagiar).min <= j < n ==> j in UsedNumbers(db.members, Stagiar)
    ensures RecruitStep(db, session, req).0.Recruited?
    ensures RecruitStep(db, session, req).0.callsign == FormatCallsign(n)
  {
    AllocateIsLowestFree(Stagiar, UsedNumbers(db.members, Stagiar), n);
  }

  /**
   * With no STAGIAR member, a recruit receives the callsign of the band's
   * lowest number lo (500), which is then the only STAGIAR number in use.
   */
  lemma FirstRecruitGetsLowest(db: Db, session: Option<Session>, req: RecruitRequest, lo: int)
    requires forall id :: id in db.members ==> db.members[id].rank != Stagiar
    requires lo == Band(Stagiar).min
    requires RecruitStep(db, session, req).0.Recruited?
    ensures RecruitStep(db, session, req).0.callsign == FormatCallsign(lo)
    ensures UsedNumbers(RecruitStep(db, session, req).1.members, Stagiar) == {lo}
  {
    assert UsedNumbers(db.members, Stagiar) == {};
    RecruitSucceedsWithLowestFree(db, session, req, lo);
    ParseFormatRoundTrip(lo);
    OnlyMemberOfRank(db.members, RecruitStep(db, session, req).0.member);
  }

  /** A member stored into a table with nobody of its rank is the only holder of a number there. */
  lemma OnlyMemberOfRank(members: map<int, Member>, m: Member)
    requires forall id :: id in members ==> members[id].rank != m.rank
    requires ParseCallsign(m.callsign).Some?
    ensures UsedNumbers(members[m.id := m], m.rank) == {Number(m)}
  {
    UsedAfterPut(members, m.id, m, m.rank);
    assert UsedNumbers(members - {m.id}, m.rank) == {};
  }

  /**
   * When every number of a rank's band is held by a member of that rank (for
   * DIRECTOR_GENERAL: 1 and 2), a rank change into it fails and changes nothing.
   */
  lemma FullBandRejectsRankChange(db: Db, session: Option<Session>, req: RankChangeRequest, target: Rank)
    requires forall n :: InBand(n, target) ==>
               exists id :: id in db.members && db.members[id].rank == target && db.members[id].callsign == FormatCallsign(n)
    requires AuthFailure(session).None? && !MissingId(req.memberId) && req.memberId.value in db.members
    requires RankFromName(req.newRank) == Some(target)
    ensures RankChangeStep(db, session, req) == (ServerError, db)
  {
    var used := UsedNumbers(db.members, target);
    forall n | InBand(n, target) ensures n in used {
      var id :| id in db.members && db.members[id].rank == target && db.members[id].callsign == FormatCallsign(n);
      ParseFormatRoundTrip(n);
    }
    assert BandFull(target, used);
  }
}
