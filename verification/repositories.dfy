/**
 * The JPA repositories the core talks to, as in-memory stores: sessions
 * keyed by id (handing out detached copies), the chat-history table with
 * its derived, timestamp-ordered queries, and the knowledge base.
 */
module Repositories {
  import opened Wrappers
  import opened SeqUtil
  import opened Entities
  import opened ChatSessionEntity

  // ---------------------------------------------------------------------------
  // Timestamp order
  // ---------------------------------------------------------------------------

  /** The database's order on a nullable time column: null sorts before every value. */
  predicate Earlier(a: Option<int>, b: Option<int>) {
    (a.None? && b.Some?) || (a.Some? && b.Some? && a.value < b.value)
  }

  /** x may precede y: in newest-first order x is not earlier than y, in oldest-first order not later. */
  predicate InOrder(x: ChatHistory, y: ChatHistory, newestFirst: bool) {
    if newestFirst then !Earlier(x.timestamp, y.timestamp) else !Earlier(y.timestamp, x.timestamp)
  }

  predicate Sorted(s: seq<ChatHistory>, newestFirst: bool) {
    forall i, j :: 0 <= i < j < |s| ==> InOrder(s[i], s[j], newestFirst)
  }

  /** Everything in r may follow x. */
  lemma AllFollow(x: ChatHistory, h: ChatHistory, s: seq<ChatHistory>, r: seq<ChatHistory>, newestFirst: bool)
    requires multiset(r) == multiset(s) + multiset{h}
    requires InOrder(x, h, newestFirst)
    requires forall j :: 0 <= j < |s| ==> InOrder(x, s[j], newestFirst)
    ensures forall k :: 0 <= k < |r| ==> InOrder(x, r[k], newestFirst)
  {
    forall k | 0 <= k < |r|
      ensures InOrder(x, r[k], newestFirst)
    {
      assert r[k] in multiset(r);
      if r[k] != h {
        assert r[k] in multiset(s);
        var j :| 0 <= j < |s| && s[j] == r[k];
      }
    }
  }

  /** Inserts h after every element that may precede it, so after any ties already in s. */
  function Insert(h: ChatHistory, s: seq<ChatHistory>, newestFirst: bool): (r: seq<ChatHistory>)
    requires Sorted(s, newestFirst)
    ensures multiset(r) == multiset(s) + multiset{h}
    ensures Sorted(r, newestFirst)
    decreases |s|
  {
    if s == [] || !InOrder(s[0], h, newestFirst) then
      SortedCons(h, s, newestFirst);
      [h] + s
    else
      var rest := Insert(h, s[1..], newestFirst);
      assert s == [s[0]] + s[1..];
      AllFollow(s[0], h, s[1..], rest, newestFirst);
      SortedCons(s[0], rest, newestFirst);
      [s[0]] + rest
  }

  /** An element that may precede everything of a sorted sequence can be put in front of it. */
  lemma SortedCons(x: ChatHistory, s: seq<ChatHistory>, newestFirst: bool)
    requires Sorted(s, newestFirst)
    requires s == [] || InOrder(x, s[0], newestFirst)
    ensures Sorted([x] + s, newestFirst)
  {
    var r := [x] + s;
    forall i, j | 0 <= i < j < |r|
      ensures InOrder(r[i], r[j], newestFirst)
    {
      assert r[j] == s[j - 1];
      if i > 0 {
        assert r[i] == s[i - 1];
      } else if j > 1 {
        assert InOrder(s[0], s[j - 1], newestFirst);
      }
    }
  }

  /**
   * ORDER BY timestamp (DESC when newestFirst, ASC otherwise). SQL leaves the
   * order of equal times open; here each row goes after the ties that follow
   * it in s, so ties come out in reverse insertion order.
   */
  function SortByTimestamp(s: seq<ChatHistory>, newestFirst: bool): (r: seq<ChatHistory>)
    ensures multiset(r) == multiset(s) && |r| == |s|
    ensures Sorted(r, newestFirst)
    decreases |s|
  {
    if s == [] then []
    else
      assert s == [s[0]] + s[1..];
      Insert(s[0], SortByTimestamp(s[1..], newestFirst), newestFirst)
  }

  // ---------------------------------------------------------------------------
  // Paging
  // ---------------------------------------------------------------------------

  /** PageRequest.of(page, size). */
  datatype Pageable = Pageable(page: nat, size: nat) {
    /** The number of rows before this page. */
    function Offset(): nat {
      page * size
    }
  }

  /** A page of results together with the total number of matching rows. */
  datatype Page<T> = Page(content: seq<T>, total: nat)

  /**
   * The total a PageImpl built from a page's content reports: the count it is
   * given, unless the content is not empty and the page reaches past that
   * count, in which case the page's offset plus the content's size.
   */
  function PageImplTotal(p: Pageable, contentSize: nat, total: nat): nat {
    if contentSize > 0 && p.Offset() + p.size > total then p.Offset() + contentSize else total
  }

  /**
   * r is a page of the matching rows, newest first: the query's count as its
   * total, as many rows as fit on the page after its offset, drawn from the
   * matching rows, and on the first page no row left off is newer than a row
   * shown.
   */
  predicate IsNewestFirstPage(r: Page<ChatHistory>, matching: seq<ChatHistory>, p: Pageable) {
    && r.total == |matching|
    && |r.content| == (if p.Offset() < |matching| then Min(p.size, |matching| - p.Offset()) else 0)
    && Sorted(r.content, true)
    && multiset(r.content) <= multiset(matching)
    && (p.page == 0 ==> NoNewerRowLeftOff(r.content, matching))
  }

  /** No matching row missing from content is newer than a row of content. */
  predicate NoNewerRowLeftOff(content: seq<ChatHistory>, matching: seq<ChatHistory>) {
    forall x, h :: x in content && h in multiset(matching) - multiset(content) ==> InOrder(x, h, true)
  }

  /** A paged query ordered newest-first over the rows that match: the page's window of the sorted rows. */
  function NewestFirstPage(matching: seq<ChatHistory>, p: Pageable): (r: Page<ChatHistory>)
    ensures r.content == SortByTimestamp(matching, true)[Min(p.Offset(), |matching|)..Min(p.Offset() + p.size, |matching|)]
    ensures IsNewestFirstPage(r, matching, p)
    ensures forall h :: h in r.content ==> h in matching
  {
    var sorted := SortByTimestamp(matching, true);
    WindowIsNewestFirstPage(matching, sorted, p);
    Page(sorted[Min(p.Offset(), |matching|)..Min(p.Offset() + p.size, |matching|)], |matching|)
  }

  /** The window a page selects from the sorted matching rows is such a page. */
  lemma WindowIsNewestFirstPage(matching: seq<ChatHistory>, sorted: seq<ChatHistory>, p: Pageable)
    requires multiset(sorted) == multiset(matching) && |sorted| == |matching| && Sorted(sorted, true)
    ensures var r := Page(sorted[Min(p.Offset(), |matching|)..Min(p.Offset() + p.size, |matching|)], |matching|);
            && IsNewestFirstPage(r, matching, p)
            && forall h :: h in r.content ==> h in matching
  {
    var offset := p.Offset();
    var from, to := Min(offset, |matching|), Min(offset + p.size, |matching|);
    WindowLength(offset, p.size, |matching|);
    FirstPageStartsAtZero(p);
    assert p.page == 0 ==> from == 0;
    SliceIsNewestFirst(matching, sorted, p, from, to);
  }

  /** The first page starts at row 0. */
  lemma FirstPageStartsAtZero(p: Pageable)
    ensures p.page == 0 ==> p.Offset() == 0
  {
  }

  /**
   * A slice of the sorted matching rows, as long as the page asks and
   * starting at 0 on the first page, is a newest-first page of them.
   */
  lemma SliceIsNewestFirst(matching: seq<ChatHistory>, sorted: seq<ChatHistory>, p: Pageable, from: nat, to: nat)
    requires multiset(sorted) == multiset(matching) && Sorted(sorted, true) && from <= to <= |sorted|
    requires to - from == if p.Offset() < |matching| then Min(p.size, |matching| - p.Offset()) else 0
    requires p.page == 0 ==> from == 0
    ensures IsNewestFirstPage(Page(sorted[from..to], |matching|), matching, p)
    ensures forall h :: h in sorted[from..to] ==> h in matching
  {
    SliceKeepsOrder(sorted, from, to, true);
    SliceIsSubMultiset(sorted, from, to);
    forall h | h in sorted[from..to]
      ensures h in matching
    {
      assert h in multiset(sorted);
    }
    if from == 0 {
      assert sorted[from..to] == sorted[..to];
      FirstPageIsNewest(matching, sorted, to);
    }
  }

  /** The length of the window [offset, offset + size) of n rows. */
  lemma WindowLength(offset: nat, size: nat, n: nat)
    ensures Min(offset, n) <= Min(offset + size, n)
    ensures Min(offset + size, n) - Min(offset, n) == if offset < n then Min(size, n - offset) else 0
  {
  }

  /** A slice draws on its sequence, each element at most as often. */
  lemma SliceIsSubMultiset<T>(s: seq<T>, from: nat, to: nat)
    requires from <= to <= |s|
    ensures multiset(s[from..to]) <= multiset(s)
  {
    assert s == s[..from] + s[from..to] + s[to..];
  }

  /** Of a newest-first ordering of the rows, no row after a prefix is newer than a row of the prefix. */
  lemma FirstPageIsNewest(matching: seq<ChatHistory>, sorted: seq<ChatHistory>, to: nat)
    requires to <= |sorted| && Sorted(sorted, true) && multiset(sorted) == multiset(matching)
    ensures NoNewerRowLeftOff(sorted[..to], matching)
  {
    assert sorted == sorted[..to] + sorted[to..];
    assert multiset(matching) - multiset(sorted[..to]) == multiset(sorted[to..]);
    PrefixPrecedesRest(sorted, to);
  }

  /** In a sorted list, every element of a prefix may precede every element after it. */
  lemma PrefixPrecedesRest(sorted: seq<ChatHistory>, to: nat)
    requires to <= |sorted| && Sorted(sorted, true)
    ensures forall x, h :: x in sorted[..to] && h in sorted[to..] ==> InOrder(x, h, true)
  {
    forall x, h | x in sorted[..to] && h in sorted[to..]
      ensures InOrder(x, h, true)
    {
      var i :| 0 <= i < to && sorted[..to][i] == x;
      var k :| 0 <= k < |sorted| - to && sorted[to..][k] == h;
      assert sorted[i] == x && sorted[to + k] == h;
    }
  }

  /** A contiguous slice of a sorted list is sorted and draws only on the list. */
  lemma SliceKeepsOrder(s: seq<ChatHistory>, from: nat, to: nat, newestFirst: bool)
    requires from <= to <= |s| && Sorted(s, newestFirst)
    ensures Sorted(s[from..to], newestFirst)
    ensures forall h :: h in s[from..to] ==> h in multiset(s)
  {
    forall i, j | 0 <= i < j < to - from
      ensures InOrder(s[from..to][i], s[from..to][j], newestFirst)
    {
      assert s[from..to][i] == s[from + i] && s[from..to][j] == s[from + j];
    }
  }

  // ---------------------------------------------------------------------------
  // chat_history queries
  // ---------------------------------------------------------------------------

  predicate InSession(h: ChatHistory, sessionId: int) {
    h.sessionId == Some(sessionId)
  }

  predicate OwnedBy(h: ChatHistory, userId: int) {
    h.user.id == userId
  }

  /** findBySessionOrderByTimestampAsc(session): all of the session's rows, each as often as stored, oldest first. */
  function BySessionOldestFirst(rows: seq<ChatHistory>, sessionId: int): (r: seq<ChatHistory>)
    ensures Sorted(r, false)
    ensures multiset(r) == multiset(Filter(rows, h => InSession(h, sessionId)))
    ensures forall h :: h in r <==> h in rows && InSession(h, sessionId)
  {
    var matching := Filter(rows, h => InSession(h, sessionId));
    var r := SortByTimestamp(matching, false);
    assert forall h :: h in r <==> h in rows && InSession(h, sessionId) by {
      forall h
        ensures h in r <==> h in rows && InSession(h, sessionId)
      {
        assert h in r <==> h in multiset(r);
        assert h in matching <==> h in multiset(matching);
      }
    }
    r
  }

  /** findBySessionOrderByTimestampDesc(session, pageable). */
  function BySessionNewestFirst(rows: seq<ChatHistory>, sessionId: int, p: Pageable): (r: Page<ChatHistory>)
    ensures IsNewestFirstPage(r, Filter(rows, h => InSession(h, sessionId)), p)
    ensures forall h :: h in r.content ==> h in rows && InSession(h, sessionId)
  {
    NewestFirstPage(Filter(rows, h => InSession(h, sessionId)), p)
  }

  /** findAllByOrderByTimestampDesc(pageable). */
  function AllNewestFirst(rows: seq<ChatHistory>, p: Pageable): (r: Page<ChatHistory>)
    ensures IsNewestFirstPage(r, rows, p)
    ensures forall h :: h in r.content ==> h in rows
  {
    NewestFirstPage(rows, p)
  }

  /** findByUserOrderByTimestampDesc(user, pageable) and findByUserIdOrderByTimestampDesc(userId, pageable). */
  function ByUserNewestFirst(rows: seq<ChatHistory>, userId: int, p: Pageable): (r: Page<ChatHistory>)
    ensures IsNewestFirstPage(r, Filter(rows, h => OwnedBy(h, userId)), p)
    ensures forall h :: h in r.content ==> h in rows && OwnedBy(h, userId)
  {
    NewestFirstPage(Filter(rows, h => OwnedBy(h, userId)), p)
  }

  /** The chat_history table: rows in insertion order, ids assigned by the store. */
  class ChatHistoryRepository {
    var rows: seq<ChatHistory>
    var nextId: int

    constructor ()
      ensures rows == [] && nextId == 1
    {
      rows := [];
      nextId := 1;
    }

    /** save(history) of a new row: the store assigns the next id and appends the row. */
    method Save(h: ChatHistory) returns (saved: ChatHistory)
      modifies this
      ensures saved == h.(id := old(nextId))
      ensures rows == old(rows) + [saved]
      ensures nextId == old(nextId) + 1
    {
      saved := h.(id := nextId);
      rows := rows + [saved];
      nextId := nextId + 1;
    }
  }

  // ---------------------------------------------------------------------------
  // chat_session
  // ---------------------------------------------------------------------------

  /**
   * What findByUserOrderByUpdateTimeDesc(user) promises of the id list it
   * returns: exactly the user's sessions, each once, latest update first.
   */
  ghost predicate IsUpdateTimeListing(records: map<int, SessionRecord>, owner: int, listing: seq<int>) {
    && (forall i :: 0 <= i < |listing| ==> listing[i] in records && records[listing[i]].owner == owner)
    && (forall id :: id in records && records[id].owner == owner ==> id in listing)
    && (forall i, j :: 0 <= i < j < |listing| ==> listing[i] != listing[j])
    && (forall i, j :: 0 <= i < j < |listing| ==>
          !Earlier(records[listing[i]].updateTime, records[listing[j]].updateTime))
  }

  /** The ids of the sessions that belong to owner. */
  function IdsOf(records: map<int, SessionRecord>, owner: int): set<int> {
    set id | id in records && records[id].owner == owner
  }

  /** The chat_session table: one record per id; findById hands out detached copies. */
  class ChatSessionRepository {
    var records: map<int, SessionRecord>
    var nextId: int
    /** Every record written by save, in order. */
    ghost var saved: seq<SessionRecord>

    constructor ()
      ensures records == map[] && nextId == 1 && saved == []
    {
      records := map[];
      nextId := 1;
      saved := [];
    }

    /** findById(id): a fresh copy of the stored session, or null (Optional.empty). */
    method FindById(id: int) returns (s: ChatSession?)
      ensures s == null <==> id !in records
      ensures s != null ==> fresh(s) && s.id == Some(id) && s.Record() == records[id]
    {
      if id in records {
        s := new ChatSession.Load(id, records[id]);
      } else {
        s := null;
      }
    }

    /** existsById(id). */
    predicate ExistsById(id: int)
      reads this
    {
      id in records
    }

    /** countByUser(user). */
    function CountByUser(owner: int): (n: nat)
      reads this
      ensures n == |IdsOf(records, owner)|
    {
      |IdsOf(records, owner)|
    }

    /**
     * save(session). A session without id is persisted: @PrePersist runs on it
     * and it receives the next id. A session with id is merged: its columns
     * overwrite the stored row, and @PreUpdate stamps the stored row's update
     * time when a column changed. The session object itself is then unchanged.
     */
    method Save(s: ChatSession, now: int)
      modifies this, s
      ensures old(s.id).Some? ==>
                && s.id == old(s.id) && s.Record() == old(s.Record()) && nextId == old(nextId)
                && records == old(records)[s.id.value := Merged(old(records), s.id.value, s.Record(), now)]
      ensures old(s.id).None? ==>
                && s.id == Some(old(nextId)) && s.Record() == Created(old(s.Record()), now)
                && nextId == old(nextId) + 1
                && records == old(records)[old(nextId) := s.Record()]
      ensures saved == old(saved) + [records[s.id.value]]
    {
      if s.id.Some? {
        var row := Merged(records, s.id.value, s.Record(), now);
        records := records[s.id.value := row];
        saved := saved + [row];
      } else {
        s.OnCreate(now);
        s.id := Some(nextId);
        records := records[nextId := s.Record()];
        saved := saved + [s.Record()];
        nextId := nextId + 1;
      }
    }
  }

  /** The row merge writes: the snapshot, with the update time stamped when any column differs. */
  function Merged(records: map<int, SessionRecord>, id: int, snapshot: SessionRecord, now: int): (row: SessionRecord)
    ensures row.(updateTime := snapshot.updateTime) == snapshot
    ensures id in records && records[id] == snapshot ==> row == snapshot
    ensures snapshot.updateTime == Some(now) ==> row == snapshot
  {
    if id in records && records[id] == snapshot then snapshot else snapshot.(updateTime := Some(now))
  }

  // ---------------------------------------------------------------------------
  // knowledge_base
  // ---------------------------------------------------------------------------

  /** The knowledge_base table: entries in insertion order (findAll lists them in that order). */
  class KnowledgeRepository {
    var entries: seq<Knowledge>

    constructor ()
      ensures entries == []
    {
      entries := [];
    }

    /** save(knowledge) of a new entry. */
    method Save(k: Knowledge)
      modifies this
      ensures entries == old(entries) + [k]
    {
      entries := entries + [k];
    }
  }
}
