/**
 Session records and the transitions the dispatcher drives. The store is a map from session id to
 record; looking up an unknown id raises KeyError.
 */
module Sessions {
  import opened Wrappers

  datatype Status = Queued | Running | Completed | Failed | Cancelled

  datatype SessionRecord = SessionRecord(
    status: Status,
    startedAt: Option<int>,
    endedAt: Option<int>,
    currentSkill: string,
    errorCode: string,
    stopRequested: bool)

  predicate Terminal(s: Status) {
    s in {Completed, Failed, Cancelled}
  }

  datatype KeyError = KeyError(sessionId: string)

  class SessionManager {
    var sessions: map<string, SessionRecord>

    constructor ()
      ensures sessions == map[]
    {
      sessions := map[];
    }

    method CreateSession(id: string)
      modifies this
      ensures sessions == old(sessions)[id := SessionRecord(Queued, None, None, "", "", false)]
    {
      sessions := sessions[id := SessionRecord(Queued, None, None, "", "", false)];
    }

    /** Starting again keeps the first start time. */
    method StartSession(id: string, now: int) returns (res: Result<SessionRecord, KeyError>)
      modifies this
      ensures match res
              case Failure(e) => id !in old(sessions) && e == KeyError(id) && sessions == old(sessions)
              case Success(r) =>
                && id in old(sessions) && sessions == old(sessions)[id := r]
                && var was := old(sessions)[id];
                   r == was.(status := Running, startedAt := if was.startedAt.Some? then was.startedAt else Some(now))
    {
      if id !in sessions {
        return Failure(KeyError(id));
      }
      var record := sessions[id].(status := Running);
      if record.startedAt.None? {
        record := record.(startedAt := Some(now));
      }
      sessions := sessions[id := record];
      return Success(record);
    }

    /** Completing overwrites whatever status the session had, a cancelled one included. */
    method CompleteSession(id: string, now: int) returns (res: Result<SessionRecord, KeyError>)
      modifies this
      ensures match res
              case Failure(e) => id !in old(sessions) && e == KeyError(id) && sessions == old(sessions)
              case Success(r) =>
                && id in old(sessions) && sessions == old(sessions)[id := r]
                && var was := old(sessions)[id];
                   r == was.(status := Completed, currentSkill := "", errorCode := "", endedAt := Some(now))
    {
      if id !in sessions {
        return Failure(KeyError(id));
      }
      var record := sessions[id].(status := Completed, currentSkill := "", errorCode := "", endedAt := Some(now));
      sessions := sessions[id := record];
      return Success(record);
    }

    method FailSession(id: string, code: string, now: int) returns (res: Result<SessionRecord, KeyError>)
      modifies this
      ensures match res
              case Failure(e) => id !in old(sessions) && e == KeyError(id) && sessions == old(sessions)
              case Success(r) =>
                && id in old(sessions) && sessions == old(sessions)[id := r]
                && var was := old(sessions)[id];
                   r == was.(status := Failed, currentSkill := "", errorCode := code, endedAt := Some(now))
    {
      if id !in sessions {
        return Failure(KeyError(id));
      }
      var record := sessions[id].(status := Failed, currentSkill := "", errorCode := code, endedAt := Some(now));
      sessions := sessions[id := record];
      return Success(record);
    }

    /** A stop request is remembered always; it closes the session only if nothing closed it before. */
    method StopSession(id: string, now: int) returns (res: Result<SessionRecord, KeyError>)
      modifies this
      ensures match res
              case Failure(e) => id !in old(sessions) && e == KeyError(id) && sessions == old(sessions)
              case Success(r) =>
                && id in old(sessions) && sessions == old(sessions)[id := r]
                && r == (if Terminal(old(sessions)[id].status) then old(sessions)[id].(stopRequested := true)
                           else old(sessions)[id].(stopRequested := true, status := Cancelled, currentSkill := "",
                                                   errorCode := "SESSION_STOPPED", endedAt := Some(now)))
    {
      if id !in sessions {
        return Failure(KeyError(id));
      }
      var record := sessions[id].(stopRequested := true);
      if !Terminal(record.status) {
        record := record.(status := Cancelled, currentSkill := "", errorCode := "SESSION_STOPPED");
        record := record.(endedAt := Some(now));
      }
      sessions := sessions[id := record];
      return Success(record);
    }
  }
}
