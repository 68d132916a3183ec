/** Session bookkeeping: creating sessions, recording each question on its session, and session lookups. */
module SessionServices {
  import opened Wrappers
  import opened JavaText
  import opened Entities
  import opened ChatSessionEntity
  import opened Repositories

  /** The guard of updateSessionWithMessage: a null message, or one that trims to "", is ignored. */
  predicate IgnoresMessage(message: Option<string>) {
    message.None? || Trim(message.value) == ""
  }

  /** The columns of a session after updateSessionWithMessage has accepted message at time now. */
  function WithMessage(r: SessionRecord, message: string, now: int): (u: SessionRecord)
    ensures u.owner == r.owner && u.createTime == r.createTime
    ensures u.lastMessage == Some(message) && u.updateTime == Some(now)
    ensures u.sessionName == NameAfterMessage(r.sessionName, Some(message))
  {
    r.(sessionName := NameAfterMessage(r.sessionName, Some(message)),
       lastMessage := Some(message),
       updateTime := Some(now))
  }

  /**
   * An accepted message leaves the session with a real name: either the name
   * it already had or one taken from the message, never null or "".
   */
  lemma AcceptedMessageNamesSession(r: SessionRecord, message: string, now: int)
    requires Trim(message) != ""
    ensures WithMessage(r, message, now).sessionName.Some?
    ensures WithMessage(r, message, now).sessionName.value != ""
    ensures Created(WithMessage(r, message, now), now) == WithMessage(r, message, now).(createTime := Some(now))
  {
    assert message != "";
    if AwaitsName(r.sessionName) {
      assert |NameFromMessage(message)| > 0;
    }
  }

  lemma SomeIdIffPositiveCount(records: map<int, SessionRecord>, owner: int)
    ensures |IdsOf(records, owner)| > 0 <==> exists id :: id in records && records[id].owner == owner
  {
    var ids := IdsOf(records, owner);
    if |ids| > 0 {
      if forall id :: id !in ids {
        assert false;
      }
      var id :| id in ids;
    }
    if exists id :: id in records && records[id].owner == owner {
      var id :| id in records && records[id].owner == owner;
      assert id in ids;
    }
  }

  class SessionService {
    const repository: ChatSessionRepository

    constructor (repository: ChatSessionRepository)
      ensures this.repository == repository
    {
      this.repository := repository;
    }

    /** A new session of user named with the default name, both times now, saved once. */
    method CreateNewSession(user: User, now: int) returns (session: ChatSession)
      modifies repository
      ensures fresh(session)
      ensures session.id == Some(old(repository.nextId))
      ensures session.Record() == SessionRecord(user.id, Some(DefaultSessionName), None, Some(now), Some(now))
      ensures repository.records == old(repository.records)[session.id.value := session.Record()]
      ensures repository.saved == old(repository.saved) + [session.Record()]
    {
      session := new ChatSession(user.id);
      session.sessionName := Some(DefaultSessionName);
      session.createTime := Some(now);
      session.updateTime := Some(now);
      repository.Save(session, now);
    }

    /**
     * Records message as the session's latest: an ignored call changes and
     * saves nothing; otherwise the name is initialised from the message first,
     * the last message becomes the message verbatim, the update time becomes
     * now, and the session is saved exactly once.
     */
    method UpdateSessionWithMessage(session: ChatSession?, message: Option<string>, now: int)
      modifies session, repository
      ensures session == null || IgnoresMessage(message) ==> unchanged(repository)
      ensures session != null && IgnoresMessage(message) ==> unchanged(session)
      ensures session != null && !IgnoresMessage(message) ==>
                && session.sessionName == NameAfterMessage(old(session.sessionName), message)
                && session.lastMessage == message
                && session.updateTime == Some(now)
                && session.owner == old(session.owner)
                && (old(session.id).Some? ==> session.id == old(session.id) && session.createTime == old(session.createTime))
                && (old(session.id).None? ==> session.createTime == Some(now))
                && session.id.Some?
                && (old(session.id).Some? ==> session.Record() == WithMessage(old(session.Record()), message.value, now))
                && repository.records == old(repository.records)[session.id.value := session.Record()]
                && repository.saved == old(repository.saved) + [session.Record()]
                && repository.nextId == (if old(session.id).Some? then old(repository.nextId) else old(repository.nextId) + 1)
    {
      if session == null || message.None? || Trim(message.value) == "" {
        return;
      }
      AcceptMessage(session, message.value, now);
    }

    /** The accepted path of updateSessionWithMessage. */
    method AcceptMessage(session: ChatSession, message: string, now: int)
      requires Trim(message) != ""
      modifies session, repository
      ensures session.Record() == (if old(session.id).Some? then WithMessage(old(session.Record()), message, now)
                                   else WithMessage(old(session.Record()), message, now).(createTime := Some(now)))
      ensures old(session.id).Some? ==> session.id == old(session.id)
      ensures session.id.Some?
      ensures repository.records == old(repository.records)[session.id.value := session.Record()]
      ensures repository.saved == old(repository.saved) + [session.Record()]
      ensures repository.nextId == (if old(session.id).Some? then old(repository.nextId) else old(repository.nextId) + 1)
    {
      ghost var before := session.Record();
      NoteMessage(session, message, now);
      AcceptedMessageNamesSession(before, message, now);
      repository.Save(session, now);
    }

    /** The in-memory steps of the accepted path: name from the first message, last message, update time. */
    method NoteMessage(session: ChatSession, message: string, now: int)
      modifies session
      ensures session.Record() == WithMessage(old(session.Record()), message, now)
      ensures session.id == old(session.id)
    {
      session.InitNameWithFirstMessage(Some(message));
      session.lastMessage := Some(message);
      session.updateTime := Some(now);
    }

    /** hasSessions(user): the user's session count is positive. */
    predicate HasSessions(user: User)
      reads repository
    {
      repository.CountByUser(user.id) > 0
    }

    /** A user has sessions exactly when some stored session belongs to them. */
    lemma HasSessionsIffOwnsOne(user: User)
      ensures HasSessions(user) <==> exists id :: id in repository.records && repository.records[id].owner == user.id
    {
      SomeIdIffPositiveCount(repository.records, user.id);
    }

    /**
     * getLatestSession(user), given listing, the id list the update-time
     * query returns: its head, or null when the user has no session. The head
     * is the user's session with the latest update time.
     */
    function GetLatestSession(user: User, listing: seq<int>): (latest: Option<int>)
      reads repository
      requires IsUpdateTimeListing(repository.records, user.id, listing)
      ensures latest.None? <==> !HasSessions(user)
      ensures latest.Some? ==>
                && latest.value in repository.records
                && repository.records[latest.value].owner == user.id
                && forall id :: id in repository.records && repository.records[id].owner == user.id ==>
                     !Earlier(repository.records[latest.value].updateTime, repository.records[id].updateTime)
    {
      if listing == [] then
        assert forall id :: id !in IdsOf(repository.records, user.id);
        None
      else
        assert listing[0] in IdsOf(repository.records, user.id);
        assert forall id :: id in repository.records && repository.records[id].owner == user.id ==>
            exists j :: 0 <= j < |listing| && listing[j] == id;
        Some(listing[0])
    }
  }
}
