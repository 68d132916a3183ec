/**
 * The answer pipeline: validates the session, answers from the question
 * cache or streams a fresh answer from the model with a token-bounded
 * history context, records every exchange, and replays a session's history.
 */
module Chat {
  import opened Wrappers
  import opened JavaText
  import opened SeqUtil
  import opened Entities
  import opened ChatSessionEntity
  import opened Repositories
  import opened SessionServices
  import opened Sse
  import opened ZhipuLlm

  // ---------------------------------------------------------------------------
  // Cache key
  // ---------------------------------------------------------------------------

  /** The qaCache key: the session id text as received, ":", then the trimmed, lower-cased question. */
  function CacheKey(sessionId: string, question: string): (key: string)
    ensures |key| > |sessionId| && key[..|sessionId|] == sessionId && key[|sessionId|] == ':'
  {
    sessionId + ":" + ToLowerCase(Trim(question))
  }

  /** Questions that differ only in surrounding blanks or in letter case share a key. */
  lemma KeyIgnoresPaddingAndCase(sessionId: string, question: string, left: string, right: string)
    requires IsBlank(left) && IsBlank(right)
    ensures CacheKey(sessionId, left + question + right) == CacheKey(sessionId, question)
    ensures CacheKey(sessionId, ToLowerCase(question)) == CacheKey(sessionId, question)
  {
    TrimIgnoresPadding(left, question, right);
    LowerCaseCommutesWithTrim(question);
    ToLowerCaseIdempotent(Trim(question));
  }

  /** The key keeps the id text: "07" and "7" name the same session but never share a cache entry. */
  lemma KeyKeepsIdText(question: string)
    ensures ParseLong("07") == ParseLong("7") == Some(7)
    ensures CacheKey("07", question) != CacheKey("7", question)
  {
    assert "07"[..1] == "0";
    ColonSeparatedDiffer("07", "7", ToLowerCase(Trim(question)), ToLowerCase(Trim(question)));
  }

  /** Two different parseable session ids never share a key, whatever the questions. */
  lemma KeysSeparateSessions(id1: string, id2: string, q1: string, q2: string)
    requires ParseLong(id1).Some? && ParseLong(id2).Some? && id1 != id2
    ensures CacheKey(id1, q1) != CacheKey(id2, q2)
  {
    assert ':' !in id1 && ':' !in id2;
    ColonSeparatedDiffer(id1, id2, ToLowerCase(Trim(q1)), ToLowerCase(Trim(q2)));
  }

  /** Different colon-free heads stay apart once a ':' and any tail follow them. */
  lemma ColonSeparatedDiffer(a: string, b: string, x: string, y: string)
    requires ':' !in a && ':' !in b && a != b
    ensures a + ":" + x != b + ":" + y
  {
    var k1 := a + ":" + x;
    var k2 := b + ":" + y;
    if |a| < |b| {
      assert k1[|a|] == ':' && k2[|a|] == b[|a|];
    } else if |b| < |a| {
      assert k2[|b|] == ':' && k1[|b|] == a[|b|];
    } else {
      var i :| 0 <= i < |a| && a[i] != b[i];
      assert k1[i] == a[i] && k2[i] == b[i];
    }
  }

  /** Whether the session id text names a stored session of user (anything else is refused). */
  predicate IsOwnedSession(records: map<int, SessionRecord>, sessionId: string, user: User) {
    ParseLong(sessionId).Some? && ParseLong(sessionId).value in records
    && records[ParseLong(sessionId).value].owner == user.id
  }

  // ---------------------------------------------------------------------------
  // Token-aware context
  // ---------------------------------------------------------------------------

  const MaxContextTokens: int := 2048
  /** Tokens kept free for the reply: checked for every turn, never added to the running total. */
  const ReplyReserve: int := 500
  /** How many of the latest exchanges the context draws on. */
  const ContextTurns: nat := 20

  /** The tokens of one exchange: question plus answer. */
  function TurnCost(h: ChatHistory, countTokens: string -> nat): nat {
    countTokens(h.question) + countTokens(h.answer)
  }

  function TokensOf(turns: seq<ChatHistory>, countTokens: string -> nat): nat
    decreases |turns|
  {
    if turns == [] then 0 else TurnCost(turns[0], countTokens) + TokensOf(turns[1..], countTokens)
  }

  /**
   * How many of the newest-first turns the packer takes with used tokens
   * already counted: turns are taken while the running total plus the turn
   * plus the reserve stays within the limit; the first that does not fit
   * ends the packing.
   */
  function PackedCount(turns: seq<ChatHistory>, countTokens: string -> nat, used: int): (k: nat)
    ensures k <= |turns|
    decreases |turns|
  {
    if turns == [] then 0
    else
      var cost := TurnCost(turns[0], countTokens);
      if used + cost + ReplyReserve > MaxContextTokens then 0
      else 1 + PackedCount(turns[1..], countTokens, used + cost)
  }

  /** The context after the packer took the newest-first turns: each turn's user then assistant message, oldest turn first. */
  function ContextOf(turns: seq<ChatHistory>): (r: seq<Message>)
    ensures |r| == 2 * |turns|
    decreases |turns|
  {
    if turns == [] then []
    else
      var last := turns[|turns| - 1];
      [Message(UserRole, last.question), Message(AssistantRole, last.answer)] + ContextOf(turns[..|turns| - 1])
  }

  /** The context lists the turns oldest first (the reverse of the newest-first input), each as its question then its answer. */
  lemma {:induction false} ContextLayout(turns: seq<ChatHistory>)
    ensures forall i :: 0 <= i < |turns| ==>
              && ContextOf(turns)[2 * i] == Message(UserRole, turns[|turns| - 1 - i].question)
              && ContextOf(turns)[2 * i + 1] == Message(AssistantRole, turns[|turns| - 1 - i].answer)
    decreases |turns|
  {
    if turns != [] {
      var rest := turns[..|turns| - 1];
      ContextLayout(rest);
      ContextShift(turns, ContextOf(rest), ContextOf(turns));
    }
  }

  /** Putting the last turn's two messages in front of the earlier turns' context keeps the layout. */
  lemma ContextShift(turns: seq<ChatHistory>, rest: seq<Message>, r: seq<Message>)
    requires |turns| > 0 && |rest| == 2 * (|turns| - 1)
    requires forall j :: 0 <= j < |turns| - 1 ==>
               && rest[2 * j] == Message(UserRole, turns[|turns| - 2 - j].question)
               && rest[2 * j + 1] == Message(AssistantRole, turns[|turns| - 2 - j].answer)
    requires r == [Message(UserRole, turns[|turns| - 1].question), Message(AssistantRole, turns[|turns| - 1].answer)] + rest
    ensures forall i :: 0 <= i < |turns| ==>
              && r[2 * i] == Message(UserRole, turns[|turns| - 1 - i].question)
              && r[2 * i + 1] == Message(AssistantRole, turns[|turns| - 1 - i].answer)
  {
    forall i | 1 <= i < |turns|
      ensures r[2 * i] == Message(UserRole, turns[|turns| - 1 - i].question)
      ensures r[2 * i + 1] == Message(AssistantRole, turns[|turns| - 1 - i].answer)
    {
      var j := i - 1;
      assert r[2 * i] == rest[2 * j] && r[2 * i + 1] == rest[2 * j + 1];
    }
  }

  /** The newest-first exchanges the packer walks: the latest 20 of the session. */
  function LatestTurns(rows: seq<ChatHistory>, sessionId: int): (turns: seq<ChatHistory>)
    ensures |turns| <= ContextTurns
  {
    BySessionNewestFirst(rows, sessionId, Pageable(0, ContextTurns)).content
  }

  /**
   * The latest turns are the session's exchanges newest first, as many as it
   * has up to 20, and no exchange of the session left out is newer than one
   * taken.
   */
  lemma LatestTurnsAreNewest(rows: seq<ChatHistory>, sessionId: int)
    ensures var matching := Filter(rows, h => InSession(h, sessionId));
            var turns := LatestTurns(rows, sessionId);
            && |turns| == Min(ContextTurns, |matching|)
            && Sorted(turns, true)
            && (forall h :: h in turns ==> h in rows && InSession(h, sessionId))
            && NoNewerRowLeftOff(turns, matching)
  {
    var p := Pageable(0, ContextTurns);
    var page := BySessionNewestFirst(rows, sessionId, p);
    assert IsNewestFirstPage(page, Filter(rows, h => InSession(h, sessionId)), p);
  }

  /** The context buildTokenAwareContext returns for a session. */
  function PackedContext(rows: seq<ChatHistory>, sessionId: int, countTokens: string -> nat): (context: seq<Message>)
    ensures |context| % 2 == 0 && |context| <= 2 * ContextTurns
  {
    var turns := LatestTurns(rows, sessionId);
    var k := PackedCount(turns, countTokens, 0);
    var context := ContextOf(turns[..k]);
    DoubleIsEven(k);
    context
  }

  lemma DoubleIsEven(k: nat)
    ensures (2 * k) % 2 == 0
  {
  }

  /** The running total of the packed turns never exceeds the limit minus the reserve. */
  lemma {:induction false} PackedWithinBudget(turns: seq<ChatHistory>, countTokens: string -> nat, used: int)
    requires used + ReplyReserve <= MaxContextTokens
    ensures used + TokensOf(turns[..PackedCount(turns, countTokens, used)], countTokens) + ReplyReserve <= MaxContextTokens
    decreases |turns|
  {
    var k := PackedCount(turns, countTokens, used);
    if k > 0 {
      var cost := TurnCost(turns[0], countTokens);
      PackedWithinBudget(turns[1..], countTokens, used + cost);
      assert turns[..k][1..] == turns[1..][..k - 1];
    }
  }

  /** Packing stops only at the end of the turns or at the first turn that does not fit. */
  lemma {:induction false} PackedIsMaximal(turns: seq<ChatHistory>, countTokens: string -> nat, used: int)
    ensures var k := PackedCount(turns, countTokens, used);
            k < |turns| ==>
              used + TokensOf(turns[..k], countTokens) + TurnCost(turns[k], countTokens) + ReplyReserve > MaxContextTokens
    decreases |turns|
  {
    var k := PackedCount(turns, countTokens, used);
    if k > 0 {
      var cost := TurnCost(turns[0], countTokens);
      PackedIsMaximal(turns[1..], countTokens, used + cost);
      assert turns[..k][1..] == turns[1..][..k - 1];
    }
  }

  /**
   * The context of a session uses at most 2048 - 500 tokens, holds an even
   * number of messages, at most 40, drawn from a prefix of the latest turns.
   */
  lemma ContextBounds(rows: seq<ChatHistory>, sessionId: int, countTokens: string -> nat)
    ensures var turns := LatestTurns(rows, sessionId);
            var k := PackedCount(turns, countTokens, 0);
            && TokensOf(turns[..k], countTokens) <= MaxContextTokens - ReplyReserve
            && |PackedContext(rows, sessionId, countTokens)| == 2 * k <= 2 * ContextTurns
  {
    PackedWithinBudget(LatestTurns(rows, sessionId), countTokens, 0);
  }

  // ---------------------------------------------------------------------------
  // Session history
  // ---------------------------------------------------------------------------

  /** One message of a replayed conversation. */
  datatype HistoryMessage = HistoryMessage(content: string, role: Role, timestamp: Option<int>)

  /** Each exchange as its user message followed by its assistant message, both with its timestamp. */
  function Replay(turns: seq<ChatHistory>): (r: seq<HistoryMessage>)
    ensures |r| == 2 * |turns|
    ensures forall i :: 0 <= i < |turns| ==>
              && r[2 * i] == HistoryMessage(turns[i].question, UserRole, turns[i].timestamp)
              && r[2 * i + 1] == HistoryMessage(turns[i].answer, AssistantRole, turns[i].timestamp)
    decreases |turns|
  {
    if turns == [] then []
    else
      var rest := Replay(turns[1..]);
      var r := [HistoryMessage(turns[0].question, UserRole, turns[0].timestamp),
                HistoryMessage(turns[0].answer, AssistantRole, turns[0].timestamp)] + rest;
      ReplayShift(turns, rest, r);
      r
  }

  /** Putting the first turn's two messages in front of the later turns' replay keeps the layout. */
  lemma ReplayShift(turns: seq<ChatHistory>, rest: seq<HistoryMessage>, r: seq<HistoryMessage>)
    requires |turns| > 0 && |rest| == 2 * (|turns| - 1)
    requires forall j :: 0 <= j < |turns| - 1 ==>
               && rest[2 * j] == HistoryMessage(turns[j + 1].question, UserRole, turns[j + 1].timestamp)
               && rest[2 * j + 1] == HistoryMessage(turns[j + 1].answer, AssistantRole, turns[j + 1].timestamp)
    requires r == [HistoryMessage(turns[0].question, UserRole, turns[0].timestamp),
                   HistoryMessage(turns[0].answer, AssistantRole, turns[0].timestamp)] + rest
    ensures forall i :: 0 <= i < |turns| ==>
              && r[2 * i] == HistoryMessage(turns[i].question, UserRole, turns[i].timestamp)
              && r[2 * i + 1] == HistoryMessage(turns[i].answer, AssistantRole, turns[i].timestamp)
  {
    forall i | 1 <= i < |turns|
      ensures r[2 * i] == HistoryMessage(turns[i].question, UserRole, turns[i].timestamp)
      ensures r[2 * i + 1] == HistoryMessage(turns[i].answer, AssistantRole, turns[i].timestamp)
    {
      var j := i - 1;
      assert r[2 * i] == rest[2 * j] && r[2 * i + 1] == rest[2 * j + 1];
    }
  }

  /** The row a request leaves its session with: updated by the message unless ignored, touched when history was stored. */
  function RowAfterRequest(r: SessionRecord, question: string, now: int, historyStored: bool): (u: SessionRecord)
    ensures u.owner == r.owner && u.createTime == r.createTime
    ensures !IgnoresMessage(Some(question)) ==>
              && u.lastMessage == Some(question) && u.updateTime == Some(now)
              && u.sessionName == NameAfterMessage(r.sessionName, Some(question))
    ensures IgnoresMessage(Some(question)) ==>
              u.sessionName == r.sessionName && u.lastMessage == r.lastMessage
              && u.updateTime == (if historyStored then Some(now) else r.updateTime)
  {
    if !IgnoresMessage(Some(question)) then WithMessage(r, question, now)
    else if historyStored then r.(updateTime := Some(now))
    else r
  }

  /** The history row saveHistory stores. */
  function Exchange(id: int, question: string, answer: string, user: User, sessionId: int, now: int): (h: ChatHistory)
    ensures InSession(h, sessionId) && OwnedBy(h, user.id) && h.timestamp == Some(now)
    ensures h.id == id && h.question == question && h.answer == answer
  {
    ChatHistory(id, question, answer, user, Some(sessionId), Some(now))
  }

  /**
   * The session rows a request saves, in order: on a cache hit the touch by
   * saveHistory, then the message unless ignored; on a miss the message
   * unless ignored, then the touch by saveHistory when the answer was stored.
   */
  function SavedRows(r: SessionRecord, question: string, now: int, cached: bool, stored: bool): seq<SessionRecord> {
    var recorded := if IgnoresMessage(Some(question)) then [] else [WithMessage(r, question, now)];
    if cached then [r.(updateTime := Some(now))] + recorded
    else recorded + (if stored then [RowAfterRequest(r, question, now, true)] else [])
  }

  /**
   * A request saves its session at most twice, and the last row it saves is
   * the row it leaves; when it saves nothing the row is left as it was.
   */
  lemma LastSavedRowIsFinal(r: SessionRecord, question: string, now: int, cached: bool, stored: bool)
    requires cached ==> stored
    ensures var saves := SavedRows(r, question, now, cached, stored);
            && |saves| <= 2
            && (saves != [] ==> saves[|saves| - 1] == RowAfterRequest(r, question, now, stored))
            && (saves == [] ==> RowAfterRequest(r, question, now, stored) == r)
  {
  }

  /** The session row after a cache hit: saveHistory's touch, then the message's update. */
  lemma HitRecords(records: map<int, SessionRecord>, touched: map<int, SessionRecord>, final: map<int, SessionRecord>,
                   id: int, r: SessionRecord, question: string, now: int)
    requires touched == records[id := r.(updateTime := Some(now))]
    requires final == if IgnoresMessage(Some(question)) then touched else touched[id := WithMessage(r, question, now)]
    ensures final == records[id := RowAfterRequest(r, question, now, true)]
  {
  }

  /** The session saves of a cache hit: saveHistory's touch, then the message's. */
  lemma HitLog(log: seq<SessionRecord>, touchedLog: seq<SessionRecord>, finalLog: seq<SessionRecord>,
               r: SessionRecord, question: string, now: int)
    requires touchedLog == log + [r.(updateTime := Some(now))]
    requires finalLog == touchedLog + (if IgnoresMessage(Some(question)) then [] else [WithMessage(r, question, now)])
    ensures finalLog == log + SavedRows(r, question, now, true, true)
  {
    AppendAssoc(log, [r.(updateTime := Some(now))], if IgnoresMessage(Some(question)) then [] else [WithMessage(r, question, now)]);
  }

  /** The session row after a cache miss: the message's update, then saveHistory's touch. */
  lemma MissRecords(records: map<int, SessionRecord>, recorded: map<int, SessionRecord>, final: map<int, SessionRecord>,
                    id: int, r: SessionRecord, question: string, now: int, stored: bool)
    requires recorded == records[id := if IgnoresMessage(Some(question)) then r else WithMessage(r, question, now)]
    requires final == if stored then recorded[id := recorded[id].(updateTime := Some(now))] else recorded
    ensures final == records[id := RowAfterRequest(r, question, now, stored)]
  {
    if stored {
      assert recorded[id := recorded[id].(updateTime := Some(now))] == records[id := recorded[id].(updateTime := Some(now))];
    }
  }

  /** The session saves of a cache miss: the message's, then saveHistory's touch. */
  lemma MissLog(log: seq<SessionRecord>, recordedLog: seq<SessionRecord>, finalLog: seq<SessionRecord>,
                r: SessionRecord, question: string, now: int, stored: bool)
    requires recordedLog == log + (if IgnoresMessage(Some(question)) then [] else [WithMessage(r, question, now)])
    requires finalLog == recordedLog + (if stored then [(if IgnoresMessage(Some(question)) then r else WithMessage(r, question, now)).(updateTime := Some(now))] else [])
    ensures finalLog == log + SavedRows(r, question, now, false, stored)
  {
    var recorded := if IgnoresMessage(Some(question)) then [] else [WithMessage(r, question, now)];
    AppendAssoc(log, recorded, if stored then [RowAfterRequest(r, question, now, true)] else []);
  }

  class ChatService {
    const historyRepository: ChatHistoryRepository
    const sessionRepository: ChatSessionRepository
    const sessionService: SessionService
    const llmService: ZhipuLlmService
    /** The tokenizer's count of a text. */
    const countTokens: string -> nat
    /** The question cache: key to answer. */
    var qaCache: map<string, string>

    /** The session service works on the same session table. */
    ghost predicate Valid()
      reads this, sessionService
    {
      sessionService.repository == sessionRepository
    }

    constructor (historyRepository: ChatHistoryRepository, sessionService: SessionService,
                 llmService: ZhipuLlmService, countTokens: string -> nat)
      ensures Valid() && qaCache == map[]
      ensures this.historyRepository == historyRepository && this.sessionService == sessionService
      ensures this.llmService == llmService && this.countTokens == countTokens
    {
      this.historyRepository := historyRepository;
      this.sessionRepository := sessionService.repository;
      this.sessionService := sessionService;
      this.llmService := llmService;
      this.countTokens := countTokens;
      qaCache := map[];
    }

    /**
     * getSessionHistory(sessionId): None stands for the exception thrown for
     * a missing session; otherwise the session's exchanges, oldest first,
     * each replayed as a user and an assistant message.
     */
    function GetSessionHistory(sessionId: int): (r: Option<seq<HistoryMessage>>)
      reads sessionRepository, historyRepository
      ensures r.None? <==> sessionId !in sessionRepository.records
      ensures r.Some? ==> r.value == Replay(BySessionOldestFirst(historyRepository.rows, sessionId))
    {
      if sessionId !in sessionRepository.records then None
      else Some(Replay(BySessionOldestFirst(historyRepository.rows, sessionId)))
    }

    /**
     * buildTokenAwareContext: walks the latest 20 exchanges newest first and
     * puts each in front of the context while it fits the budget; None stands
     * for the exception thrown for a missing session.
     */
    method BuildTokenAwareContext(sessionId: int) returns (context: Option<seq<Message>>)
      ensures context.None? <==> sessionId !in sessionRepository.records
      ensures context.Some? ==> context.value == PackedContext(historyRepository.rows, sessionId, countTokens)
    {
      var session := sessionRepository.FindById(sessionId);
      if session == null {
        return None;
      }
      var packed := Pack(LatestTurns(historyRepository.rows, sessionId), countTokens);
      context := Some(packed);
    }

    /**
     * saveHistory: touches the session's update time and stores the exchange.
     * Returns false for the exception thrown when the session is missing, in
     * which case nothing is written.
     */
    method SaveHistory(question: string, answer: string, user: User, sessionId: int, now: int) returns (saved: bool)
      modifies sessionRepository, historyRepository
      ensures saved <==> sessionId in old(sessionRepository.records)
      ensures !saved ==> unchanged(sessionRepository) && unchanged(historyRepository)
      ensures saved ==>
                && sessionRepository.records == old(sessionRepository.records)[sessionId :=
                     old(sessionRepository.records)[sessionId].(updateTime := Some(now))]
                && historyRepository.rows == old(historyRepository.rows) + [Exchange(old(historyRepository.nextId), question, answer, user, sessionId, now)]
                && historyRepository.nextId == old(historyRepository.nextId) + 1
                && sessionRepository.saved == old(sessionRepository.saved)
                     + [old(sessionRepository.records)[sessionId].(updateTime := Some(now))]
                && sessionRepository.nextId == old(sessionRepository.nextId)
    {
      var session := sessionRepository.FindById(sessionId);
      if session == null {
        return false;
      }
      session.updateTime := Some(now);
      sessionRepository.Save(session, now);
      var _ := historyRepository.Save(ChatHistory(0, question, answer, user, Some(sessionId), Some(now)));
      saved := true;
    }

    /**
     * The completion callback of a streamed answer: a blank answer is
     * dropped; otherwise the trimmed answer is stored as history and cached.
     * Threw when saving the history threw.
     */
    method SaveAndCache(question: string, fullAnswer: string, user: User, sessionId: int, key: string, now: int)
      returns (callback: CallbackOutcome)
      modifies this, sessionRepository, historyRepository
      ensures callback == if Trim(fullAnswer) == "" || sessionId in old(sessionRepository.records) then Ran else Threw
      ensures Trim(fullAnswer) == "" || sessionId !in old(sessionRepository.records) ==>
                qaCache == old(qaCache) && unchanged(sessionRepository) && unchanged(historyRepository)
      ensures Trim(fullAnswer) != "" && sessionId in old(sessionRepository.records) ==>
                && qaCache == old(qaCache)[key := Trim(fullAnswer)]
                && sessionRepository.records == old(sessionRepository.records)[sessionId :=
                     old(sessionRepository.records)[sessionId].(updateTime := Some(now))]
                && historyRepository.rows == old(historyRepository.rows)
                     + [Exchange(old(historyRepository.nextId), question, Trim(fullAnswer), user, sessionId, now)]
                && historyRepository.nextId == old(historyRepository.nextId) + 1
                && sessionRepository.saved == old(sessionRepository.saved)
                     + [old(sessionRepository.records)[sessionId].(updateTime := Some(now))]
                && sessionRepository.nextId == old(sessionRepository.nextId)
    {
      var finalAnswer := Trim(fullAnswer);
      if finalAnswer == "" {
        return Ran;
      }
      var saved := SaveHistory(question, finalAnswer, user, sessionId, now);
      if !saved {
        return Threw;
      }
      qaCache := qaCache[key := finalAnswer];
      callback := Ran;
    }

    /**
     * getStreamingResponse(question, user, sessionId) with every task it
     * submits run to the end: reply is what the model's server answers and
     * now the clock. An id that is not a long, or that names no session of
     * user, gives an emitter already ended with an error and touches nothing.
     * Otherwise a cached answer is replayed, or a fresh one is streamed.
     */
    method GetStreamingResponse(question: string, user: User, sessionId: string, reply: HttpReply, now: int)
      returns (emitter: SseEmitter, request: Option<ChatRequest>)
      requires Valid()
      modifies this, sessionRepository, historyRepository
      ensures fresh(emitter)
      ensures !IsOwnedSession(old(sessionRepository.records), sessionId, user) ==>
                && emitter.sent == [] && request.None?
                && emitter.state == Failed(if ParseLong(sessionId).None? then InvalidSessionIdFormat else InvalidSessionId)
                && qaCache == old(qaCache) && unchanged(sessionRepository) && unchanged(historyRepository)
      ensures IsOwnedSession(old(sessionRepository.records), sessionId, user) ==>
                var id := ParseLong(sessionId).value;
                var key := CacheKey(sessionId, question);
                var cached := key in old(qaCache);
                var run := StreamRun(llmService.apiKey, reply, llmService.parse);
                var answer := if cached then old(qaCache)[key] else if run.outcome.Success? then Trim(run.outcome.value) else "";
                var stored := cached || (run.outcome.Success? && answer != "");
                && emitter.sent == (if cached then [answer] else run.chunks)
                && emitter.state == (if cached || run.outcome.Success? then Completed else Failed(run.outcome.error))
                && request == (if cached || GenerateToken(llmService.apiKey, now).Failure? then None
                               else Some(ChatRequest(Model, OutboundMessages(Some(PackedContext(old(historyRepository.rows), id, countTokens)), question),
                                                     true, GenerateToken(llmService.apiKey, now).value)))
                && qaCache == (if !cached && stored then old(qaCache)[key := answer] else old(qaCache))
                && historyRepository.rows == old(historyRepository.rows)
                     + (if stored then [Exchange(old(historyRepository.nextId), question, answer, user, id, now)] else [])
                && sessionRepository.records == old(sessionRepository.records)[id :=
                     RowAfterRequest(old(sessionRepository.records)[id], question, now, stored)]
                && sessionRepository.saved == old(sessionRepository.saved)
                     + SavedRows(old(sessionRepository.records)[id], question, now, cached, stored)
                && sessionRepository.nextId == old(sessionRepository.nextId)
                && historyRepository.nextId == old(historyRepository.nextId) + (if stored then 1 else 0)
    {
      var parsed := ParseLong(sessionId);
      if parsed.None? {
        emitter := new SseEmitter();
        emitter.CompleteWithError(InvalidSessionIdFormat);
        return emitter, None;
      }
      var session := sessionRepository.FindById(parsed.value);
      if session == null || session.owner != user.id {
        emitter := new SseEmitter();
        emitter.CompleteWithError(InvalidSessionId);
        return emitter, None;
      }
      emitter, request := ServeOwned(question, user, session, CacheKey(sessionId, question), reply, now);
    }

    /** The steps after validation: a cached answer is replayed, or a fresh one is streamed. */
    method ServeOwned(question: string, user: User, session: ChatSession, key: string, reply: HttpReply, now: int)
      returns (emitter: SseEmitter, request: Option<ChatRequest>)
      requires Valid()
      requires session.id.Some? && session.id.value in sessionRepository.records
      requires session.Record() == sessionRepository.records[session.id.value]
      modifies this, sessionRepository, historyRepository, session
      ensures fresh(emitter)
      ensures var id := old(session.id.value);
              var cached := key in old(qaCache);
              var run := StreamRun(llmService.apiKey, reply, llmService.parse);
              var answer := if cached then old(qaCache)[key] else if run.outcome.Success? then Trim(run.outcome.value) else "";
              var stored := cached || (run.outcome.Success? && answer != "");
              && emitter.sent == (if cached then [answer] else run.chunks)
              && emitter.state == (if cached || run.outcome.Success? then Completed else Failed(run.outcome.error))
              && request == (if cached || GenerateToken(llmService.apiKey, now).Failure? then None
                             else Some(ChatRequest(Model, OutboundMessages(Some(PackedContext(old(historyRepository.rows), id, countTokens)), question),
                                                   true, GenerateToken(llmService.apiKey, now).value)))
              && qaCache == (if !cached && stored then old(qaCache)[key := answer] else old(qaCache))
              && historyRepository.rows == old(historyRepository.rows)
                   + (if stored then [Exchange(old(historyRepository.nextId), question, answer, user, id, now)] else [])
              && sessionRepository.records == old(sessionRepository.records)[id := RowAfterRequest(old(session.Record()), question, now, stored)]
              && sessionRepository.saved == old(sessionRepository.saved) + SavedRows(old(session.Record()), question, now, cached, stored)
              && sessionRepository.nextId == old(sessionRepository.nextId)
              && historyRepository.nextId == old(historyRepository.nextId) + (if stored then 1 else 0)
    {
      emitter := new SseEmitter();
      if key in qaCache {
        ServeCached(question, user, session, qaCache[key], emitter, now);
        request := None;
      } else {
        request := ServeFromModel(question, user, session, key, emitter, reply, now);
      }
    }

    /** The cache-hit branch: store the exchange, send the cached answer as the only chunk, complete, record the message. */
    method ServeCached(question: string, user: User, session: ChatSession, cached: string, emitter: SseEmitter, now: int)
      requires Valid()
      requires session.id.Some? && session.id.value in sessionRepository.records
      requires session.Record() == sessionRepository.records[session.id.value]
      requires emitter.sent == [] && emitter.state == Open
      modifies sessionRepository, historyRepository, session, emitter
      ensures emitter.sent == [cached] && emitter.state == Completed
      ensures historyRepository.rows == old(historyRepository.rows)
                + [Exchange(old(historyRepository.nextId), question, cached, user, old(session.id.value), now)]
      ensures sessionRepository.records == old(sessionRepository.records)[old(session.id.value) :=
                RowAfterRequest(old(session.Record()), question, now, true)]
      ensures sessionRepository.saved == old(sessionRepository.saved) + SavedRows(old(session.Record()), question, now, true, true)
      ensures sessionRepository.nextId == old(sessionRepository.nextId)
      ensures historyRepository.nextId == old(historyRepository.nextId) + 1
    {
      var id := session.id.value;
      ghost var before := session.Record();
      var saved := SaveHistory(question, cached, user, id, now);
      assert saved;
      ghost var touched := sessionRepository.records;
      ghost var touchedLog := sessionRepository.saved;
      emitter.Send(cached);
      emitter.Complete();
      sessionService.UpdateSessionWithMessage(session, Some(question), now);
      HitRecords(old(sessionRepository.records), touched, sessionRepository.records, id, before, question, now);
      HitLog(old(sessionRepository.saved), touchedLog, sessionRepository.saved, before, question, now);
    }

    /**
     * The cache-miss branch: build the context, record the message, stream
     * the model's answer, and on success run the save-and-cache callback
     * before completing.
     */
    method ServeFromModel(question: string, user: User, session: ChatSession, key: string, emitter: SseEmitter,
                          reply: HttpReply, now: int)
      returns (request: Option<ChatRequest>)
      requires Valid()
      requires session.id.Some? && session.id.value in sessionRepository.records
      requires session.Record() == sessionRepository.records[session.id.value]
      requires emitter.sent == [] && emitter.state == Open
      modifies this, sessionRepository, historyRepository, session, emitter
      ensures var run := StreamRun(llmService.apiKey, reply, llmService.parse);
              var stored := run.outcome.Success? && Trim(run.outcome.value) != "";
              var id := old(session.id.value);
              && emitter.sent == run.chunks
              && emitter.state == (if run.outcome.Success? then Completed else Failed(run.outcome.error))
              && request == (if GenerateToken(llmService.apiKey, now).Failure? then None
                             else Some(ChatRequest(Model, OutboundMessages(Some(PackedContext(old(historyRepository.rows), id, countTokens)), question),
                                                   true, GenerateToken(llmService.apiKey, now).value)))
              && qaCache == (if stored then old(qaCache)[key := Trim(run.outcome.value)] else old(qaCache))
              && historyRepository.rows == old(historyRepository.rows)
                   + (if stored then [Exchange(old(historyRepository.nextId), question, Trim(run.outcome.value), user, id, now)] else [])
              && sessionRepository.records == old(sessionRepository.records)[id :=
                   RowAfterRequest(old(session.Record()), question, now, stored)]
              && sessionRepository.saved == old(sessionRepository.saved) + SavedRows(old(session.Record()), question, now, false, stored)
              && sessionRepository.nextId == old(sessionRepository.nextId)
              && historyRepository.nextId == old(historyRepository.nextId) + (if stored then 1 else 0)
    {
      var id := session.id.value;
      ghost var before := session.Record();
      var context := PrepareRequest(question, session, now);
      ghost var recorded := sessionRepository.records;
      ghost var recordedLog := sessionRepository.saved;
      request := StreamAndStore(question, user, id, key, emitter, Some(context), reply, now);
      ghost var run := StreamRun(llmService.apiKey, reply, llmService.parse);
      ghost var stored := run.outcome.Success? && Trim(run.outcome.value) != "";
      MissRecords(old(sessionRepository.records), recorded, sessionRepository.records, id, before, question, now, stored);
      MissLog(old(sessionRepository.saved), recordedLog, sessionRepository.saved, before, question, now, stored);
    }

    /** The first steps of the cache-miss branch: build the context, then record the question on the session. */
    method PrepareRequest(question: string, session: ChatSession, now: int) returns (context: seq<Message>)
      requires Valid()
      requires session.id.Some? && session.id.value in sessionRepository.records
      requires session.Record() == sessionRepository.records[session.id.value]
      modifies sessionRepository, session
      ensures context == PackedContext(historyRepository.rows, old(session.id.value), countTokens)
      ensures sessionRepository.records == old(sessionRepository.records)[old(session.id.value) :=
                if IgnoresMessage(Some(question)) then old(session.Record()) else WithMessage(old(session.Record()), question, now)]
      ensures sessionRepository.saved == old(sessionRepository.saved)
                + (if IgnoresMessage(Some(question)) then [] else [WithMessage(old(session.Record()), question, now)])
      ensures sessionRepository.nextId == old(sessionRepository.nextId)
    {
      var id := session.id.value;
      var built := BuildTokenAwareContext(id);
      context := built.value;
      sessionService.UpdateSessionWithMessage(session, Some(question), now);
    }

    /** The streaming part of the cache-miss branch: stream the answer, then run the callback and complete on success. */
    method StreamAndStore(question: string, user: User, id: int, key: string, emitter: SseEmitter,
                          context: Option<seq<Message>>, reply: HttpReply, now: int)
      returns (request: Option<ChatRequest>)
      requires id in sessionRepository.records
      requires emitter.sent == [] && emitter.state == Open
      modifies this, sessionRepository, historyRepository, emitter
      ensures var run := StreamRun(llmService.apiKey, reply, llmService.parse);
              var stored := run.outcome.Success? && Trim(run.outcome.value) != "";
              && emitter.sent == run.chunks
              && emitter.state == (if run.outcome.Success? then Completed else Failed(run.outcome.error))
              && request == (if GenerateToken(llmService.apiKey, now).Failure? then None
                             else Some(ChatRequest(Model, OutboundMessages(context, question), true, GenerateToken(llmService.apiKey, now).value)))
              && qaCache == (if stored then old(qaCache)[key := Trim(run.outcome.value)] else old(qaCache))
              && historyRepository.rows == old(historyRepository.rows)
                   + (if stored then [Exchange(old(historyRepository.nextId), question, Trim(run.outcome.value), user, id, now)] else [])
              && sessionRepository.records == (if stored then old(sessionRepository.records)[id :=
                   old(sessionRepository.records)[id].(updateTime := Some(now))] else old(sessionRepository.records))
              && sessionRepository.saved == old(sessionRepository.saved)
                   + (if stored then [old(sessionRepository.records)[id].(updateTime := Some(now))] else [])
              && sessionRepository.nextId == old(sessionRepository.nextId)
              && historyRepository.nextId == old(historyRepository.nextId) + (if stored then 1 else 0)
    {
      var outcome;
      request, outcome := llmService.StreamChatResponse(question, emitter, context, reply, now);
      if outcome.Success? {
        var callback := SaveAndCache(question, outcome.value, user, id, key, now);
        assert callback == Ran;
        llmService.FinishStream(emitter, callback);
      }
    }
  }

  /**
   * The packing loop of buildTokenAwareContext over the newest-first turns:
   * each turn that fits goes in front of the context; the first that does
   * not fit ends the loop.
   */
  method Pack(history: seq<ChatHistory>, tokens: string -> nat) returns (packed: seq<Message>)
    ensures packed == ContextOf(history[..PackedCount(history, tokens, 0)])
  {
    packed := [];
    var currentTokens := 0;
    var i := 0;
    assert history[i..] == history;
    while i < |history|
      invariant 0 <= i <= |history|
      invariant packed == ContextOf(history[..i])
      invariant currentTokens == TokensOf(history[..i], tokens)
      invariant PackedCount(history, tokens, 0) == i + PackedCount(history[i..], tokens, currentTokens)
    {
      var h := history[i];
      var qTokens := tokens(h.question);
      var aTokens := tokens(h.answer);
      if currentTokens + qTokens + aTokens + ReplyReserve > MaxContextTokens {
        PackStop(history, i, currentTokens, tokens);
        break;
      }
      var next := currentTokens + qTokens + aTokens;
      PackStep(history, i, currentTokens, next, tokens);
      packed := [Message(UserRole, h.question), Message(AssistantRole, h.answer)] + packed;
      currentTokens := next;
      i := i + 1;
    }
    if i == |history| {
      assert history[i..] == [] && history[..i] == history;
    }
  }

  /** One turn taken by the packer: one more turn counted, its tokens added, its two messages put in front. */
  lemma PackStep(history: seq<ChatHistory>, i: nat, used: int, next: int, countTokens: string -> nat)
    requires i < |history|
    requires next == used + countTokens(history[i].question) + countTokens(history[i].answer)
    requires next + ReplyReserve <= MaxContextTokens
    ensures PackedCount(history[i..], countTokens, used) == 1 + PackedCount(history[i + 1..], countTokens, next)
    ensures used == TokensOf(history[..i], countTokens) ==> next == TokensOf(history[..i + 1], countTokens)
    ensures ContextOf(history[..i + 1])
              == [Message(UserRole, history[i].question), Message(AssistantRole, history[i].answer)] + ContextOf(history[..i])
  {
    assert history[i..][1..] == history[i + 1..];
    assert history[..i + 1] == history[..i] + [history[i]];
    assert history[..i + 1][..i] == history[..i];
    TokensOfAppend(history[..i], history[i], countTokens);
  }

  /** The first turn that does not fit ends the packing: none of the remaining turns is taken. */
  lemma PackStop(history: seq<ChatHistory>, i: nat, used: int, countTokens: string -> nat)
    requires i < |history|
    requires used + TurnCost(history[i], countTokens) + ReplyReserve > MaxContextTokens
    ensures PackedCount(history[i..], countTokens, used) == 0
  {
    assert history[i..][0] == history[i];
  }

  /** Appending a turn adds its cost to the total. */
  lemma {:induction false} TokensOfAppend(turns: seq<ChatHistory>, h: ChatHistory, countTokens: string -> nat)
    ensures TokensOf(turns + [h], countTokens) == TokensOf(turns, countTokens) + TurnCost(h, countTokens)
    decreases |turns|
  {
    if turns == [] {
      assert [] + [h] == [h];
      assert [h][1..] == [];
    } else {
      assert (turns + [h])[1..] == turns[1..] + [h];
      TokensOfAppend(turns[1..], h, countTokens);
    }
  }
}
