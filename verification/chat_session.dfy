/**
 * The ChatSession entity: a conversation owned by one user, with a display
 * name derived from its first real message, a last-message snapshot and
 * creation / update timestamps, updated in place by its lifecycle callbacks.
 */
module ChatSessionEntity {
  import opened Wrappers

  /** The name every new conversation starts with ("new conversation"). */
  const DefaultSessionName: string := "新会话"

  /** How many chars of the first message the name keeps before the ellipsis. */
  const NameLimit: nat := 20

  const Ellipsis: string := "..."

  /** The persistent columns of a session, as the repository stores them. */
  datatype SessionRecord = SessionRecord(
    owner: int,
    sessionName: Option<string>,
    lastMessage: Option<string>,
    createTime: Option<int>,
    updateTime: Option<int>)

  /** A name that the next message may still replace: null, empty or the default name. */
  predicate AwaitsName(name: Option<string>) {
    name.None? || name.value == "" || name.value == DefaultSessionName
  }

  /** The name a message gives: the message itself, or its first 20 chars followed by "...". */
  function NameFromMessage(message: string): (r: string)
    ensures |r| <= NameLimit + |Ellipsis|
    ensures |message| <= NameLimit ==> r == message
    ensures |message| > NameLimit ==>
              |r| == NameLimit + |Ellipsis| && r[..NameLimit] == message[..NameLimit] && r[NameLimit..] == Ellipsis
  {
    if |message| > NameLimit then message[..NameLimit] + Ellipsis else message
  }

  /** The name after initNameWithFirstMessage(message). */
  function NameAfterMessage(name: Option<string>, message: Option<string>): (r: Option<string>)
    ensures !AwaitsName(name) || message.None? ==> r == name
    ensures AwaitsName(name) && message.Some? ==> r.Some? && |r.value| <= NameLimit + |Ellipsis|
  {
    if AwaitsName(name) && message.Some? then Some(NameFromMessage(message.value)) else name
  }

  /**
   * The message-derived name still awaits renaming exactly when the message
   * itself is "" or the default name: a long message ends in "..." and so is
   * neither.
   */
  lemma NameFromMessageAwaits(message: string)
    ensures AwaitsName(Some(NameFromMessage(message))) <==> message == "" || message == DefaultSessionName
  {
    var r := NameFromMessage(message);
    if |message| > NameLimit {
      assert r[|r| - 1] == '.';
      assert DefaultSessionName[|DefaultSessionName| - 1] != '.';
      assert |DefaultSessionName| == 3;
    }
  }

  /** The name after initNameWithFirstMessage has been called with each message in turn. */
  function NameAfterMessages(name: Option<string>, messages: seq<Option<string>>): Option<string>
    decreases |messages|
  {
    if messages == [] then name else NameAfterMessages(NameAfterMessage(name, messages[0]), messages[1..])
  }

  /** Once a name outside {null, "", the default} is set, no later message changes it. */
  lemma {:induction false} NameIsSticky(name: Option<string>, messages: seq<Option<string>>)
    requires !AwaitsName(name)
    ensures NameAfterMessages(name, messages) == name
    decreases |messages|
  {
    if messages != [] {
      NameIsSticky(name, messages[1..]);
    }
  }

  /**
   * The first message that is neither null, "" nor the default name fixes the
   * name for good: earlier ones leave the session awaiting a name, later ones
   * leave it alone.
   */
  lemma {:induction false} FirstRealMessageNamesSession(name: Option<string>, messages: seq<Option<string>>, k: nat)
    requires AwaitsName(name)
    requires k < |messages| && !AwaitsName(messages[k])
    requires forall j :: 0 <= j < k ==> AwaitsName(messages[j])
    ensures NameAfterMessages(name, messages) == Some(NameFromMessage(messages[k].value))
    decreases k
  {
    var next := NameAfterMessage(name, messages[0]);
    if k == 0 {
      NameFromMessageAwaits(messages[0].value);
      NameIsSticky(next, messages[1..]);
    } else {
      if messages[0].Some? {
        NameFromMessageAwaits(messages[0].value);
      }
      assert AwaitsName(next);
      FirstRealMessageNamesSession(next, messages[1..], k - 1);
    }
  }

  /** What @PrePersist does to a record: stamp both times, default an empty name. */
  function Created(r: SessionRecord, now: int): (c: SessionRecord)
    ensures c.createTime == c.updateTime == Some(now)
    ensures c.owner == r.owner && c.lastMessage == r.lastMessage
    ensures c.sessionName.Some? && c.sessionName.value != ""
    ensures r.sessionName.Some? && r.sessionName.value != "" ==> c.sessionName == r.sessionName
  {
    r.(createTime := Some(now),
       updateTime := Some(now),
       sessionName := if r.sessionName.None? || r.sessionName.value == "" then Some(DefaultSessionName) else r.sessionName)
  }

  class ChatSession {
    var id: Option<int>
    var owner: int
    var sessionName: Option<string>
    var lastMessage: Option<string>
    var createTime: Option<int>
    var updateTime: Option<int>

    /** The persistent columns of this session. */
    function Record(): SessionRecord
      reads this
    {
      SessionRecord(owner, sessionName, lastMessage, createTime, updateTime)
    }

    /** A new, not yet saved session of the given owner: every other column is null. */
    constructor (owner: int)
      ensures id.None? && this.owner == owner
      ensures sessionName.None? && lastMessage.None? && createTime.None? && updateTime.None?
    {
      id := None;
      this.owner := owner;
      sessionName := None;
      lastMessage := None;
      createTime := None;
      updateTime := None;
    }

    /** A detached copy of a stored session, as the repository hands it out. */
    constructor Load(id: int, r: SessionRecord)
      ensures this.id == Some(id) && Record() == r
    {
      this.id := Some(id);
      owner := r.owner;
      sessionName := r.sessionName;
      lastMessage := r.lastMessage;
      createTime := r.createTime;
      updateTime := r.updateTime;
    }

    /** @PrePersist: both times become now; a null or empty name becomes the default name. */
    method OnCreate(now: int)
      modifies this
      ensures id == old(id)
      ensures Record() == Created(old(Record()), now)
      ensures old(sessionName).Some? && old(sessionName).value != "" ==> sessionName == old(sessionName)
    {
      createTime := Some(now);
      updateTime := Some(now);
      if sessionName.None? || sessionName.value == "" {
        sessionName := Some(DefaultSessionName);
      }
    }

    /** @PreUpdate: only the update time changes. */
    method OnUpdate(now: int)
      modifies this`updateTime
      ensures updateTime == Some(now)
    {
      updateTime := Some(now);
    }

    /** Renames a session that still awaits a name after a non-null message; otherwise nothing changes. */
    method InitNameWithFirstMessage(message: Option<string>)
      modifies this`sessionName
      ensures sessionName == NameAfterMessage(old(sessionName), message)
      ensures !AwaitsName(old(sessionName)) || message.None? ==> sessionName == old(sessionName)
    {
      if AwaitsName(sessionName) && message.Some? {
        sessionName := Some(NameFromMessage(message.value));
      }
    }
  }
}
