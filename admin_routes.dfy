/**
 * The three admin route handlers, performing their workflow on a store whose
 * member table and action log are updated in place. Each handler's final
 * state and answer are those of the corresponding step function in Roster,
 * and each keeps the per-rank callsign invariants.
 */
module AdminRoutes {
  import opened Wrappers
  import opened Ranks
  import opened Callsigns
  import opened Roster

  class RosterStore {
    var members: map<int, Member>
    var nextId: int
    var log: seq<LogEntry>

    /** The store's contents as a value. */
    function Snapshot(): Db
      reads this
    {
      Db(members, nextId, log)
    }

    ghost predicate Valid()
      reads this
    {
      WellKeyed(Snapshot())
    }

    /** Per-rank callsign uniqueness, and every callsign drawn from its holder's band. */
    ghost predicate CallsignsSound()
      reads this
    {
      CallsignsDistinct(members) && CallsignsInBand(members)
    }

    /** An empty store: no members, no log entries, ids starting at 1. */
    constructor ()
      ensures Valid() && CallsignsSound()
      ensures Snapshot() == Db(map[], 1, [])
    {
      members := map[];
      nextId := 1;
      log := [];
    }

    /** POST /api/admin/recruit. */
    method Recruit(session: Option<Session>, req: RecruitRequest) returns (res: Response)
      requires Valid()
      modifies this
      ensures Valid()
      ensures (res, Snapshot()) == RecruitStep(old(Snapshot()), session, req)
      ensures old(CallsignsSound()) ==> CallsignsSound()
    {
      ghost var before := Snapshot();
      if session.None? {
        return Unauthorized;
      }
      if !IsManagementName(session.value.rank) {
        return Forbidden;
      }
      if req.nameIC == "" || req.cnp == "" || req.discordId == "" || req.phoneNumber == "" {
        return BadRequest;
      }
      if IdentityTaken(members, req.cnp, req.discordId) {
        return BadRequest;
      }
      var callsign := NextAvailableCallsign(Stagiar, UsedNumbers(members, Stagiar));
      if callsign.None? {
        return ServerError;
      }
      var recruit := Member(nextId, req.nameIC, req.cnp, req.discordId, req.phoneNumber, Stagiar, callsign.value, None);
      var entry := LogEntry(RecruitAction, recruit.id, session.value.memberId, None, None, Some(Stagiar));
      members := members[recruit.id := recruit];
      nextId := nextId + 1;
      log := log + [entry];
      res := Recruited(recruit, callsign.value);
      RecruitStepSucceeds(before, session, req, callsign.value);
      assert RecruitStep(before, session, req).1 == Snapshot();
      RecruitKeepsWellKeyed(before, session, req);
      if CallsignsDistinct(before.members) && CallsignsInBand(before.members) {
        RecruitKeepsCallsignInvariants(before, session, req);
      }
    }

    /** POST /api/admin/rank-change. */
    method ChangeRank(session: Option<Session>, req: RankChangeRequest) returns (res: Response)
      requires Valid()
      modifies this
      ensures Valid()
      ensures (res, Snapshot()) == RankChangeStep(old(Snapshot()), session, req)
      ensures old(CallsignsSound()) ==> CallsignsSound()
    {
      ghost var before := Snapshot();
      if session.None? {
        return Unauthorized;
      }
      if !IsManagementName(session.value.rank) {
        return Forbidden;
      }
      if MissingId(req.memberId) || req.newRank == "" {
        return BadRequest;
      }
      var id := req.memberId.value;
      if id !in members {
        return NotFound;
      }
      var member := members[id];
      var oldRank := member.rank;
      var newRank := RankFromName(req.newRank);
      if newRank.None? {
        return ServerError;
      }
      var callsign := NextAvailableCallsign(newRank.value, UsedNumbers(members, newRank.value));
      if callsign.None? {
        return ServerError;
      }
      var updated := member.(rank := newRank.value, callsign := callsign.value);
      members := members[id := updated];
      log := log + [LogEntry(RankChangeAction, id, session.value.memberId, req.reason, Some(oldRank), newRank)];
      res := RankChanged(updated, callsign.value);
      RankChangeKeepsWellKeyed(before, session, req);
      if CallsignsDistinct(before.members) && CallsignsInBand(before.members) {
        RankChangeKeepsCallsignInvariants(before, session, req);
      }
    }

    /** POST /api/admin/dismiss: the DISMISS entry is written before the member row is deleted. */
    method Dismiss(session: Option<Session>, req: DismissRequest) returns (res: Response)
      requires Valid()
      modifies this
      ensures Valid()
      ensures (res, Snapshot()) == DismissStep(old(Snapshot()), session, req)
      ensures old(CallsignsSound()) ==> CallsignsSound()
    {
      ghost var before := Snapshot();
      if session.None? {
        return Unauthorized;
      }
      if !IsManagementName(session.value.rank) {
        return Forbidden;
      }
      if MissingId(req.memberId) || req.reason == "" {
        return BadRequest;
      }
      var id := req.memberId.value;
      if id !in members {
        return NotFound;
      }
      log := log + [LogEntry(DismissAction, id, session.value.memberId, Some(req.reason), Some(members[id].rank), None)];
      members := members - {id};
      res := Dismissed;
      DismissKeepsWellKeyed(before, session, req);
    }
  }
}
