/**
 * The history views: which stored exchanges a signed-in user may list, and
 * the filter that hides exchanges whose session is gone or whose time is
 * missing. The page total is what a PageImpl reports for the filtered
 * content given the query's own, unfiltered count.
 */
module HistoryServices {
  import opened Wrappers
  import opened SeqUtil
  import opened Entities
  import opened ChatSessionEntity
  import opened Repositories

  /** The signed-in principal: its name and the authority strings granted to it. */
  datatype Authentication = Authentication(name: string, authorities: seq<string>)

  const AdminAuthority: string := "ROLE_ADMIN"

  /** Why a history query was refused. */
  datatype HistoryError =
    | UnknownUser(username: string)   // the RuntimeException for a name with no account
    | NotAdmin                        // the SecurityException of getUserHistory

  /** Some authority, checked one by one, equals role. */
  function AnyAuthorityIs(authorities: seq<string>, role: string): (found: bool)
    ensures found <==> exists i :: 0 <= i < |authorities| && authorities[i] == role
    decreases |authorities|
  {
    if authorities == [] then false
    else if authorities[0] == role then true
    else
      var found := AnyAuthorityIs(authorities[1..], role);
      assert forall i :: 1 <= i < |authorities| ==> authorities[i] == authorities[1..][i - 1];
      found
  }

  /** The admin check shared by the three queries. */
  predicate IsAdmin(auth: Authentication) {
    AnyAuthorityIs(auth.authorities, AdminAuthority)
  }

  /** findByUsername(name) over the users table: the account with that name, or None (Optional.empty). */
  function FindByUsername(users: seq<User>, name: string): (r: Option<User>)
    ensures r.None? <==> forall u :: u in users ==> u.username != name
    ensures r.Some? ==> r.value in users && r.value.username == name
    decreases |users|
  {
    if users == [] then None
    else if users[0].username == name then Some(users[0])
    else
      var r := FindByUsername(users[1..], name);
      assert forall u :: u in users <==> u == users[0] || u in users[1..];
      r
  }

  /** The record filter of the role-based views: its session is set and still exists, and its time is set. */
  predicate IsListable(h: ChatHistory, sessions: map<int, SessionRecord>) {
    h.sessionId.Some? && h.sessionId.value in sessions && h.timestamp.Some?
  }

  /** The record filter of getUserHistory: its time is set. */
  predicate HasTime(h: ChatHistory) {
    h.timestamp.Some?
  }

  /** The raw page the role-based views start from: every record for an admin, the user's own otherwise. */
  function RolePage(rows: seq<ChatHistory>, user: User, admin: bool, p: Pageable): (r: Page<ChatHistory>)
    ensures IsNewestFirstPage(r, if admin then rows else Filter(rows, h => OwnedBy(h, user.id)), p)
    ensures !admin ==> forall h :: h in r.content ==> OwnedBy(h, user.id)
    ensures forall h :: h in r.content ==> h in rows
  {
    if admin then AllNewestFirst(rows, p) else ByUserNewestFirst(rows, user.id, p)
  }

  /**
   * getHistoryByRole: the user's raw page filtered down to the listable
   * records, in a PageImpl given the raw page's total. An unknown user is
   * refused before any query.
   */
  function GetHistoryByRole(auth: Authentication, users: seq<User>, rows: seq<ChatHistory>,
                            sessions: map<int, SessionRecord>, p: Pageable): (r: Result<Page<ChatHistory>, HistoryError>)
    ensures r.Failure? <==> FindByUsername(users, auth.name).None?
    ensures r.Failure? ==> r.error == UnknownUser(auth.name)
    ensures r.Success? ==>
              var raw := RolePage(rows, FindByUsername(users, auth.name).value, IsAdmin(auth), p);
              && r.value.total == PageImplTotal(p, |r.value.content|, raw.total)
              && |r.value.content| <= |raw.content|
              && (forall h :: h in r.value.content <==> h in raw.content && IsListable(h, sessions))
              && (!IsAdmin(auth) ==> forall h :: h in r.value.content ==> h.user.id == FindByUsername(users, auth.name).value.id)
  {
    match FindByUsername(users, auth.name)
    case None => Failure(UnknownUser(auth.name))
    case Some(user) =>
      var raw := RolePage(rows, user, IsAdmin(auth), p);
      var kept := Filter(raw.content, h => IsListable(h, sessions));
      Success(Page(kept, PageImplTotal(p, |kept|, raw.total)))
  }

  /** One row of the formatted history view. */
  datatype HistoryEntry = HistoryEntry(
    id: int,
    question: string,
    answer: string,
    sessionId: int,
    username: string,
    formattedTimestamp: string)

  /** The text shown for a record without a time. */
  const NoTimestampText: string := "无时间记录"

  /** The entry made from one listable record; format renders a time as yyyy-MM-dd HH:mm:ss. */
  function EntryOf(h: ChatHistory, format: int -> string): (e: HistoryEntry)
    requires h.sessionId.Some?
    ensures e.id == h.id && e.question == h.question && e.answer == h.answer
    ensures e.sessionId == h.sessionId.value && e.username == h.user.username
    ensures h.timestamp.Some? ==> e.formattedTimestamp == format(h.timestamp.value)
  {
    HistoryEntry(h.id, h.question, h.answer, h.sessionId.value, h.user.username,
                 if h.timestamp.Some? then format(h.timestamp.value) else NoTimestampText)
  }

  /** The view's stream: keep the listable records and turn each into its entry, in order. */
  function ListableEntries(records: seq<ChatHistory>, sessions: map<int, SessionRecord>, format: int -> string): (r: seq<HistoryEntry>)
    ensures |r| <= |records|
    decreases |records|
  {
    if records == [] then []
    else
      var rest := ListableEntries(records[1..], sessions, format);
      if IsListable(records[0], sessions) then [EntryOf(records[0], format)] + rest else rest
  }

  /**
   * getHistoryWithFormattedDates: the same choice of records as
   * getHistoryByRole, each listable record turned into one entry.
   */
  function GetHistoryWithFormattedDates(auth: Authentication, users: seq<User>, rows: seq<ChatHistory>,
                                        sessions: map<int, SessionRecord>, p: Pageable, format: int -> string)
    : (r: Result<Page<HistoryEntry>, HistoryError>)
    ensures r.Failure? <==> FindByUsername(users, auth.name).None?
    ensures r.Failure? ==> r.error == UnknownUser(auth.name)
    ensures r.Success? ==>
              var raw := RolePage(rows, FindByUsername(users, auth.name).value, IsAdmin(auth), p);
              && r.value.total == PageImplTotal(p, |r.value.content|, raw.total)
              && |r.value.content| <= |raw.content|
  {
    match FindByUsername(users, auth.name)
    case None => Failure(UnknownUser(auth.name))
    case Some(user) =>
      var raw := RolePage(rows, user, IsAdmin(auth), p);
      var entries := ListableEntries(raw.content, sessions, format);
      Success(Page(entries, PageImplTotal(p, |entries|, raw.total)))
  }

  /**
   * getUserHistory(userId): refused unless the caller is an admin; otherwise
   * userId's records, newest first, keeping only those with a time. The
   * session is not checked here.
   */
  function GetUserHistory(userId: int, auth: Authentication, rows: seq<ChatHistory>, p: Pageable)
    : (r: Result<Page<ChatHistory>, HistoryError>)
    ensures r.Failure? <==> !IsAdmin(auth)
    ensures r.Failure? ==> r.error == NotAdmin
    ensures r.Success? ==>
              var raw := ByUserNewestFirst(rows, userId, p);
              && r.value.total == PageImplTotal(p, |r.value.content|, |Filter(rows, h => OwnedBy(h, userId))|)
              && |r.value.content| <= |raw.content|
              && forall h :: h in r.value.content <==> h in raw.content && h.timestamp.Some?
  {
    if !IsAdmin(auth) then Failure(NotAdmin)
    else
      var raw := ByUserNewestFirst(rows, userId, p);
      var kept := Filter(raw.content, HasTime);
      Success(Page(kept, PageImplTotal(p, |kept|, raw.total)))
  }

  // ---------------------------------------------------------------------------
  // Properties of the views
  // ---------------------------------------------------------------------------

  /** Filtering keeps a newest-first list newest-first. */
  lemma {:induction false} FilterKeepsOrder(s: seq<ChatHistory>, keep: ChatHistory -> bool, newestFirst: bool)
    requires Sorted(s, newestFirst)
    ensures Sorted(Filter(s, keep), newestFirst)
    decreases |s|
  {
    if s != [] {
      var rest := Filter(s[1..], keep);
      assert Sorted(s[1..], newestFirst) by {
        forall i, j | 0 <= i < j < |s[1..]|
          ensures InOrder(s[1..][i], s[1..][j], newestFirst)
        {
          assert s[1..][i] == s[i + 1] && s[1..][j] == s[j + 1];
        }
      }
      FilterKeepsOrder(s[1..], keep, newestFirst);
      if keep(s[0]) {
        forall j | 0 <= j < |rest|
          ensures InOrder(s[0], rest[j], newestFirst)
        {
          assert rest[j] in s[1..];
          var k :| 0 <= k < |s[1..]| && s[1..][k] == rest[j];
          assert s[k + 1] == rest[j];
        }
      }
    }
  }

  /**
   * The total a view reports for a filtered page: the query's count, less
   * the records the filter dropped when the page is the last one and keeps
   * some record. It never exceeds the query's count.
   */
  lemma FilteredPageTotal(raw: Page<ChatHistory>, matching: seq<ChatHistory>, p: Pageable, kept: nat)
    requires IsNewestFirstPage(raw, matching, p) && kept <= |raw.content|
    ensures var t := PageImplTotal(p, kept, raw.total);
            && t == (if kept > 0 && p.Offset() + p.size > raw.total then raw.total - (|raw.content| - kept) else raw.total)
            && t <= raw.total
  {
    if kept > 0 && p.Offset() + p.size > raw.total {
      assert p.Offset() < |matching|;
      assert |raw.content| == |matching| - p.Offset();
    }
  }

  /**
   * The role-based view lists an order-preserving subsequence of the raw
   * page: newest first, the caller's own records unless an admin, and a
   * total that is the query's count of every record it matched, listable
   * or not, less the records dropped from a last page.
   */
  lemma HistoryByRoleIsOrderedSubsequence(auth: Authentication, users: seq<User>, rows: seq<ChatHistory>,
                                          sessions: map<int, SessionRecord>, p: Pageable)
    requires FindByUsername(users, auth.name).Some?
    ensures var user := FindByUsername(users, auth.name).value;
            var raw := RolePage(rows, user, IsAdmin(auth), p);
            var r := GetHistoryByRole(auth, users, rows, sessions, p).value;
            && IsSubsequence(r.content, raw.content)
            && Sorted(r.content, true)
            && var count := if IsAdmin(auth) then |rows| else |Filter(rows, h => OwnedBy(h, user.id))|;
               && r.total <= count
               && r.total == (if r.content != [] && p.Offset() + p.size > count
                              then count - (|raw.content| - |r.content|) else count)
  {
    var user := FindByUsername(users, auth.name).value;
    var raw := RolePage(rows, user, IsAdmin(auth), p);
    var r := GetHistoryByRole(auth, users, rows, sessions, p).value;
    FilterIsSubsequence(raw.content, h => IsListable(h, sessions));
    FilterKeepsOrder(raw.content, h => IsListable(h, sessions), true);
    FilteredPageTotal(raw, if IsAdmin(auth) then rows else Filter(rows, h => OwnedBy(h, user.id)), p, |r.content|);
  }

  /** The entries are, one for one and in order, the records the filter keeps. */
  lemma {:induction false} EntriesFollowFilter(records: seq<ChatHistory>, sessions: map<int, SessionRecord>, format: int -> string)
    ensures var kept := Filter(records, h => IsListable(h, sessions));
            var entries := ListableEntries(records, sessions, format);
            && |entries| == |kept|
            && forall i :: 0 <= i < |kept| ==> kept[i].sessionId.Some? && entries[i] == EntryOf(kept[i], format)
    decreases |records|
  {
    if records != [] {
      EntriesFollowFilter(records[1..], sessions, format);
      var keep := h => IsListable(h, sessions);
      var kept := Filter(records, keep);
      var entries := ListableEntries(records, sessions, format);
      var keptRest := Filter(records[1..], keep);
      var entriesRest := ListableEntries(records[1..], sessions, format);
      if IsListable(records[0], sessions) {
        assert kept == [records[0]] + keptRest;
        assert entries == [EntryOf(records[0], format)] + entriesRest;
        forall i | 0 <= i < |kept|
          ensures kept[i].sessionId.Some? && entries[i] == EntryOf(kept[i], format)
        {
          if i > 0 {
            assert kept[i] == keptRest[i - 1] && entries[i] == entriesRest[i - 1];
          }
        }
      } else {
        assert kept == keptRest && entries == entriesRest;
      }
    }
  }

  /**
   * The formatted view has exactly one entry per record the role-based view
   * lists, carrying that record's id, question, answer, session id, user
   * name and time, and the same total.
   */
  lemma FormattedViewMatchesRoleView(auth: Authentication, users: seq<User>, rows: seq<ChatHistory>,
                                     sessions: map<int, SessionRecord>, p: Pageable, format: int -> string)
    ensures var byRole := GetHistoryByRole(auth, users, rows, sessions, p);
            var formatted := GetHistoryWithFormattedDates(auth, users, rows, sessions, p, format);
            && (byRole.Failure? <==> formatted.Failure?)
            && (byRole.Success? ==>
                  && formatted.value.total == byRole.value.total
                  && |formatted.value.content| == |byRole.value.content|
                  && forall i :: 0 <= i < |byRole.value.content| ==>
                       var h := byRole.value.content[i];
                       var e := formatted.value.content[i];
                       && h.sessionId.Some? && h.timestamp.Some?
                       && e == HistoryEntry(h.id, h.question, h.answer, h.sessionId.value, h.user.username, format(h.timestamp.value)))
  {
    if FindByUsername(users, auth.name).Some? {
      var user := FindByUsername(users, auth.name).value;
      var raw := RolePage(rows, user, IsAdmin(auth), p);
      EntriesFollowFilter(raw.content, sessions, format);
      var kept := Filter(raw.content, h => IsListable(h, sessions));
      forall i | 0 <= i < |kept|
        ensures kept[i].timestamp.Some?
      {
        assert kept[i] in kept;
      }
    }
  }

  /**
   * An admin's view of a user's history lists an order-preserving
   * subsequence of that user's raw page, newest first, with a total no
   * larger than the user's record count.
   */
  lemma UserHistoryKeepsTimedRecords(userId: int, auth: Authentication, rows: seq<ChatHistory>, p: Pageable)
    requires IsAdmin(auth)
    ensures var r := GetUserHistory(userId, auth, rows, p).value;
            && IsSubsequence(r.content, ByUserNewestFirst(rows, userId, p).content)
            && Sorted(r.content, true)
            && (forall h :: h in r.content ==> h in rows && OwnedBy(h, userId))
            && r.total <= |Filter(rows, h => OwnedBy(h, userId))|
  {
    var raw := ByUserNewestFirst(rows, userId, p);
    FilterIsSubsequence(raw.content, HasTime);
    FilterKeepsOrder(raw.content, HasTime, true);
    FilteredPageTotal(raw, Filter(rows, h => OwnedBy(h, userId)), p, |Filter(raw.content, HasTime)|);
  }
}
