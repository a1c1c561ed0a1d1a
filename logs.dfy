/**
 * The persistent parsing log (src/utils/log_manager.py): a file-backed
 * store that keeps the newest `max_logs` entries oldest-first, a Redis
 * store that keeps them newest-first in a list, the session table both
 * keep, and the manager that picks a backend and stamps entries.
 *
 * The clock and `uuid4` are parameters (`now`, `freshId`); the JSON files,
 * the Redis connection and the Python logger are not part of this model.
 */
module Logs {
  import opened Wrappers
  import opened PyStr
  import Singleton

  /** `LogEntry`; the context dictionary is kept as its items. */
  datatype LogEntry = LogEntry(timestamp: string, level: string, message: string, sessionId: string,
                               context: Option<seq<(string, string)>>)

  datatype Status = Active | Closed

  /** `Session` */
  datatype SessionRec = SessionRec(id: string, createdAt: string, status: Status, closedAt: Option<string>)

  /** A truthy optional string. */
  predicate TruthyStr(o: Option<string>)
  {
    o.Some? && o.value != []
  }

  /** `xs[-n:] if len(xs) > n else xs` */
  function LastN<T>(xs: seq<T>, n: int): (r: seq<T>)
    ensures |r| <= |xs| && r == xs[|xs| - |r|..]
    ensures n > 0 ==> |r| == if |xs| < n then |xs| else n
    ensures n == 0 ==> r == xs
    ensures n < 0 ==> |r| == if |xs| + n < 0 then 0 else |xs| + n
  {
    if |xs| > n then Drop(xs, -n) else xs
  }

  /** The entries of session `sid`, in order. */
  function OfSession(logs: seq<LogEntry>, sid: string): (r: seq<LogEntry>)
    ensures |r| <= |logs|
  {
    if logs == [] then []
    else OfSession(logs[..|logs| - 1], sid) + (if logs[|logs| - 1].sessionId == sid then [logs[|logs| - 1]] else [])
  }

  /** The entries of every other session, in order. */
  function WithoutSession(logs: seq<LogEntry>, sid: string): (r: seq<LogEntry>)
    ensures |r| <= |logs|
  {
    if logs == [] then []
    else WithoutSession(logs[..|logs| - 1], sid) + (if logs[|logs| - 1].sessionId != sid then [logs[|logs| - 1]] else [])
  }

  /** The entries kept for a session are entries of the log, of that session. */
  lemma {:induction false} OfSessionSound(logs: seq<LogEntry>, sid: string)
    ensures forall e :: e in OfSession(logs, sid) ==> e in logs && e.sessionId == sid
    decreases |logs|
  {
    if logs != [] {
      OfSessionSound(logs[..|logs| - 1], sid);
      assert logs == logs[..|logs| - 1] + [logs[|logs| - 1]];
    }
  }

  /** The entries kept when a session is removed are entries of the log, of other sessions. */
  lemma {:induction false} WithoutSessionSound(logs: seq<LogEntry>, sid: string)
    ensures forall e :: e in WithoutSession(logs, sid) ==> e in logs && e.sessionId != sid
    decreases |logs|
  {
    if logs != [] {
      WithoutSessionSound(logs[..|logs| - 1], sid);
      assert logs == logs[..|logs| - 1] + [logs[|logs| - 1]];
    }
  }

  /**
   * The two filters split the log: every entry lands in exactly one of them,
   * so nothing is lost and nothing is invented.
   */
  lemma {:induction false} SessionPartition(logs: seq<LogEntry>, sid: string)
    ensures multiset(OfSession(logs, sid)) + multiset(WithoutSession(logs, sid)) == multiset(logs)
    ensures forall e :: e in logs && e.sessionId == sid ==> e in OfSession(logs, sid)
    ensures forall e :: e in logs && e.sessionId != sid ==> e in WithoutSession(logs, sid)
    decreases |logs|
  {
    if logs != [] {
      var init := logs[..|logs| - 1];
      SessionPartition(init, sid);
      assert logs == init + [logs[|logs| - 1]];
    }
  }

  /** Removing a session keeps the other entries in their order. */
  lemma {:induction false} WithoutSessionKeepsOrder(logs: seq<LogEntry>, sid: string)
    ensures SubseqOf(WithoutSession(logs, sid), logs)
    decreases |logs|
  {
    if logs != [] {
      var init := logs[..|logs| - 1];
      var last := logs[|logs| - 1];
      WithoutSessionKeepsOrder(init, sid);
      var w := WithoutSession(init, sid);
      assert logs[..|logs| - 1] == init;
      if last.sessionId != sid {
        var r := WithoutSession(logs, sid);
        assert r[..|r| - 1] == w;
      } else {
        assert WithoutSession(logs, sid) == w;
        WithoutSessionSound(init, sid);
        assert w == [] || w[|w| - 1] != last;
        assert SubseqOf(w, init);
      }
    }
  }

  // ---------------------------------------------------------------------
  // The session table
  // ---------------------------------------------------------------------

  /** `create_session`: a new active session under `id`. */
  function WithOpened(sessions: map<string, SessionRec>, id: string, now: string): (r: map<string, SessionRec>)
    ensures r.Keys == sessions.Keys + {id}
    ensures r[id] == SessionRec(id, now, Active, None)
    ensures forall k :: k in sessions && k != id ==> r[k] == sessions[k]
  {
    sessions[id := SessionRec(id, now, Active, None)]
  }

  /** `close_session`: a known session becomes closed at `now`; an unknown id changes nothing. */
  function WithClosed(sessions: map<string, SessionRec>, id: string, now: string): (r: map<string, SessionRec>)
    ensures r.Keys == sessions.Keys
    ensures id in sessions ==> r[id] == sessions[id].(status := Closed, closedAt := Some(now))
    ensures forall k :: k in sessions && k != id ==> r[k] == sessions[k]
    ensures id !in sessions ==> r == sessions
  {
    if id in sessions then sessions[id := sessions[id].(status := Closed, closedAt := Some(now))] else sessions
  }

  /** The active sessions, in the order of `ids`. */
  function ActiveIn(ids: seq<string>, sessions: map<string, SessionRec>): seq<SessionRec>
  {
    if ids == [] then []
    else
      var id := ids[|ids| - 1];
      ActiveIn(ids[..|ids| - 1], sessions) + (if id in sessions && sessions[id].status == Active then [sessions[id]] else [])
  }

  /** The listed sessions are exactly the active sessions some id names. */
  lemma {:induction false} ActiveInSpec(ids: seq<string>, sessions: map<string, SessionRec>)
    ensures forall s :: s in ActiveIn(ids, sessions) ==> s.status == Active
    ensures forall s :: s in ActiveIn(ids, sessions) <==>
      exists i :: 0 <= i < |ids| && ids[i] in sessions && sessions[ids[i]] == s && s.status == Active
    decreases |ids|
  {
    if ids != [] {
      var init := ids[..|ids| - 1];
      ActiveInSpec(init, sessions);
      assert forall i :: 0 <= i < |init| ==> init[i] == ids[i];
    }
  }

  /** When `ids` names every session, the list holds exactly the active sessions. */
  lemma ActiveListsAll(ids: seq<string>, sessions: map<string, SessionRec>)
    requires forall id :: id in ids <==> id in sessions
    ensures forall s :: s in ActiveIn(ids, sessions) <==> s in sessions.Values && s.status == Active
  {
    ActiveInSpec(ids, sessions);
    forall s | s in sessions.Values && s.status == Active ensures s in ActiveIn(ids, sessions) {
      var k :| k in sessions && sessions[k] == s;
      var j :| 0 <= j < |ids| && ids[j] == k;
    }
  }

  /** A session just created is listed among the active ones. */
  lemma OpenedIsActive(sessions: map<string, SessionRec>, id: string, now: string, ids: seq<string>)
    requires id in ids
    ensures SessionRec(id, now, Active, None) in ActiveIn(ids, WithOpened(sessions, id, now))
  {
    var i :| 0 <= i < |ids| && ids[i] == id;
    ActiveInSpec(ids, WithOpened(sessions, id, now));
    assert WithOpened(sessions, id, now)[ids[i]] == SessionRec(id, now, Active, None);
  }

  // ---------------------------------------------------------------------
  // The file store
  // ---------------------------------------------------------------------

  /** `FileLogStorage.get_logs(limit, session_id)` */
  function FileLogs(logs: seq<LogEntry>, limit: int, sid: Option<string>): seq<LogEntry>
  {
    var recent := LastN(logs, limit);
    if TruthyStr(sid) then OfSession(recent, sid.value) else recent
  }

  /**
   * At most `limit` entries for a positive limit (every entry for limit 0),
   * all taken from the log and all of the requested session.
   */
  lemma FileLogsSpec(logs: seq<LogEntry>, limit: int, sid: Option<string>)
    ensures limit > 0 ==> |FileLogs(logs, limit, sid)| <= limit
    ensures limit == 0 && !TruthyStr(sid) ==> FileLogs(logs, limit, sid) == logs
    ensures forall e :: e in FileLogs(logs, limit, sid) ==> e in logs
    ensures TruthyStr(sid) ==> forall e :: e in FileLogs(logs, limit, sid) ==> e.sessionId == sid.value
    ensures !TruthyStr(sid) ==> FileLogs(logs, limit, sid) == logs[|logs| - |FileLogs(logs, limit, sid)|..]
  {
    var recent := LastN(logs, limit);
    var k := |logs| - |recent|;
    assert recent == logs[k..];
    forall e | e in recent ensures e in logs {
      var i :| 0 <= i < |recent| && recent[i] == e;
      assert logs[k + i] == e;
    }
    if TruthyStr(sid) {
      OfSessionSound(recent, sid.value);
    }
  }

  /** `FileLogStorage.clear_logs(session_id)` */
  function FileCleared(logs: seq<LogEntry>, sid: Option<string>): seq<LogEntry>
  {
    if TruthyStr(sid) then WithoutSession(logs, sid.value) else []
  }

  class FileLogStorage {
    const maxLogs: int
    var logs: seq<LogEntry>
    var sessions: map<string, SessionRec>
    /** The keys of `sessions` in insertion order, which a Python dict keeps. */
    var order: seq<string>

    ghost predicate Valid()
      reads this
    {
      && (forall id :: id in order <==> id in sessions)
      && (forall i, j :: 0 <= i < j < |order| ==> order[i] != order[j])
    }

    constructor(maxLogs: int)
      ensures this.maxLogs == maxLogs && logs == [] && sessions == map[] && order == [] && Valid()
    {
      this.maxLogs := maxLogs;
      logs := [];
      sessions := map[];
      order := [];
    }

    /** `add_log(entry)`: append, then keep the newest `max_logs` entries. */
    method AddLog(e: LogEntry)
      modifies this
      ensures logs == LastN(old(logs) + [e], maxLogs)
      ensures sessions == old(sessions) && order == old(order)
    {
      logs := logs + [e];
      if |logs| > maxLogs {
        logs := Drop(logs, -maxLogs);
      }
    }

    method GetLogs(limit: int, sid: Option<string>) returns (r: seq<LogEntry>)
      ensures r == FileLogs(logs, limit, sid)
    {
      r := if |logs| > limit then Drop(logs, -limit) else logs;
      if TruthyStr(sid) {
        r := OfSession(r, sid.value);
      }
    }

    method ClearLogs(sid: Option<string>)
      modifies this
      ensures logs == FileCleared(old(logs), sid)
      ensures sessions == old(sessions) && order == old(order)
    {
      if TruthyStr(sid) {
        logs := WithoutSession(logs, sid.value);
      } else {
        logs := [];
      }
    }

    /** `create_session()`; `freshId` is the generated uuid. */
    method CreateSession(freshId: string, now: string) returns (id: string)
      requires Valid()
      modifies this
      ensures Valid()
      ensures id == freshId && sessions == WithOpened(old(sessions), id, now)
      ensures order == if id in old(sessions) then old(order) else old(order) + [id]
      ensures logs == old(logs)
    {
      id := freshId;
      if id !in sessions {
        order := order + [id];
      }
      sessions := sessions[id := SessionRec(id, now, Active, None)];
    }

    method CloseSession(id: string, now: string)
      requires Valid()
      modifies this
      ensures Valid()
      ensures sessions == WithClosed(old(sessions), id, now)
      ensures order == old(order) && logs == old(logs)
    {
      if id in sessions {
        sessions := sessions[id := sessions[id].(status := Closed, closedAt := Some(now))];
      }
    }

    method GetActiveSessions() returns (r: seq<SessionRec>)
      requires Valid()
      ensures r == ActiveIn(order, sessions)
      ensures forall s :: s in r <==> s in sessions.Values && s.status == Active
    {
      r := [];
      var i := 0;
      while i < |order|
        invariant 0 <= i <= |order|
        invariant r == ActiveIn(order[..i], sessions)
      {
        assert order[..i + 1][..i] == order[..i];
        var id := order[i];
        if id in sessions && sessions[id].status == Active {
          r := r + [sessions[id]];
        }
        i := i + 1;
      }
      assert order[..|order|] == order;
      ActiveListsAll(order, sessions);
    }
  }

  // ---------------------------------------------------------------------
  // The Redis store
  // ---------------------------------------------------------------------

  /** Redis `LRANGE`/`LTRIM` on `xs[start..stop]`, both inclusive; negative indices count from the end. */
  function RedisRange<T>(xs: seq<T>, start: int, stop: int): (r: seq<T>)
    ensures |r| <= |xs|
  {
    var n := |xs|;
    var s := if start < 0 then (if n + start < 0 then 0 else n + start) else start;
    var e := if stop < 0 then n + stop else if stop >= n then n - 1 else stop;
    if s > e || s >= n then [] else xs[s..e + 1]
  }

  /** From the head: `0 .. n-1` keeps the first `n` items, and `0 .. -1` keeps them all. */
  lemma RedisRangeFromHead<T>(xs: seq<T>, n: int)
    ensures n > 0 ==> RedisRange(xs, 0, n - 1) == xs[..if |xs| < n then |xs| else n]
    ensures n == 0 ==> RedisRange(xs, 0, n - 1) == xs
  {
  }

  /** `RedisLogStorage.add_log(entry)`: `LPUSH` then `LTRIM 0 max_logs-1`. */
  function RedisAdded(logs: seq<LogEntry>, e: LogEntry, maxLogs: int): seq<LogEntry>
  {
    RedisRange([e] + logs, 0, maxLogs - 1)
  }

  /** `xs` back to front. */
  function Reverse<T>(xs: seq<T>): (r: seq<T>)
    ensures |r| == |xs| && forall i :: 0 <= i < |xs| ==> r[i] == xs[|xs| - 1 - i]
  {
    seq(|xs|, i requires 0 <= i < |xs| => xs[|xs| - 1 - i])
  }

  /**
   * For a positive `max_logs` both stores hold the same newest entries:
   * the Redis list newest-first is the file list oldest-first reversed,
   * and adding an entry keeps that so.
   */
  lemma AddAgrees(fileLogs: seq<LogEntry>, e: LogEntry, maxLogs: int)
    requires maxLogs > 0
    ensures RedisAdded(Reverse(fileLogs), e, maxLogs) == Reverse(LastN(fileLogs + [e], maxLogs))
    ensures RedisAdded(Reverse(fileLogs), e, maxLogs)[0] == e
  {
    var xs := [e] + Reverse(fileLogs);
    RedisRangeFromHead(xs, maxLogs);
    var a := RedisAdded(Reverse(fileLogs), e, maxLogs);
    var b := Reverse(LastN(fileLogs + [e], maxLogs));
    assert |a| == |b|;
    forall i | 0 <= i < |a| ensures a[i] == b[i] {
      if i > 0 {
        assert a[i] == Reverse(fileLogs)[i - 1];
      }
    }
  }

  /** `RedisLogStorage.get_logs(limit, session_id)`: the first `limit` of the list, of that session when one is given. */
  function RedisLogs(logs: seq<LogEntry>, limit: int, sid: Option<string>): seq<LogEntry>
  {
    var head := RedisRange(logs, 0, limit - 1);
    if sid.None? then head else OfSession(head, sid.value)
  }

  /** The newest entries first: at most `limit` of them, every entry for limit 0. */
  lemma RedisLogsSpec(logs: seq<LogEntry>, limit: int, sid: Option<string>)
    ensures limit > 0 ==> |RedisLogs(logs, limit, sid)| <= limit
    ensures limit == 0 && sid.None? ==> RedisLogs(logs, limit, sid) == logs
    ensures limit > 0 && sid.None? ==> RedisLogs(logs, limit, sid) == logs[..|RedisLogs(logs, limit, sid)|]
    ensures sid.Some? ==> forall e :: e in RedisLogs(logs, limit, sid) ==> e in logs && e.sessionId == sid.value
  {
    RedisRangeFromHead(logs, limit);
    var head := RedisRange(logs, 0, limit - 1);
    if sid.Some? {
      OfSessionSound(head, sid.value);
    }
    forall e | e in head ensures e in logs {
      var i :| 0 <= i < |head| && head[i] == e;
    }
  }

  /**
   * `RedisLogStorage.clear_logs(session_id)` as written: the survivors are
   * pushed back with one `LPUSH`, which leaves them in reverse order.
   */
  function RedisClearedAsWritten(logs: seq<LogEntry>, sid: Option<string>): seq<LogEntry>
  {
    if TruthyStr(sid) then Reverse(WithoutSession(logs, sid.value)) else []
  }

  /** The evidently intended clear: the survivors stay newest-first. */
  function RedisCleared(logs: seq<LogEntry>, sid: Option<string>): seq<LogEntry>
  {
    if TruthyStr(sid) then WithoutSession(logs, sid.value) else []
  }

  /**
   * The intended clear removes exactly the session's entries and keeps the
   * others in their order, so the head of the list is still the newest entry.
   */
  lemma RedisClearedSpec(logs: seq<LogEntry>, sid: Option<string>)
    requires TruthyStr(sid)
    ensures SubseqOf(RedisCleared(logs, sid), logs)
    ensures forall e :: e in RedisCleared(logs, sid) <==> e in logs && e.sessionId != sid.value
    ensures |RedisCleared(logs, sid)| + |OfSession(logs, sid.value)| == |logs|
  {
    WithoutSessionKeepsOrder(logs, sid.value);
    SessionPartition(logs, sid.value);
    assert |multiset(OfSession(logs, sid.value))| + |multiset(WithoutSession(logs, sid.value))| == |multiset(logs)|;
  }

  /** The clear as written keeps the same entries as the intended one, in reverse order. */
  lemma ClearedAsWrittenReversed(logs: seq<LogEntry>, sid: Option<string>)
    ensures RedisClearedAsWritten(logs, sid) == Reverse(RedisCleared(logs, sid))
    ensures forall e :: e in RedisClearedAsWritten(logs, sid) <==> e in RedisCleared(logs, sid)
  {
    var w, c := RedisClearedAsWritten(logs, sid), RedisCleared(logs, sid);
    forall e | e in c ensures e in w {
      var i :| 0 <= i < |c| && c[i] == e;
      assert w[|c| - 1 - i] == e;
    }
  }

  /**
   * With newest-first entries m3, m2 (session s1) and m1 (session s2),
   * clearing s2 as written leaves m2 at the head, so `get_logs(1)` returns
   * the older m2 where the intended clear returns m3.
   */
  lemma ClearReordersSurvivors()
    ensures var m3 := LogEntry("3", "INFO", "m3", "s1", None);
      var m2 := LogEntry("2", "INFO", "m2", "s1", None);
      var m1 := LogEntry("1", "INFO", "m1", "s2", None);
      && RedisLogs(RedisClearedAsWritten([m3, m2, m1], Some("s2")), 1, None) == [m2]
      && RedisLogs(RedisCleared([m3, m2, m1], Some("s2")), 1, None) == [m3]
  {
    var m3 := LogEntry("3", "INFO", "m3", "s1", None);
    var m2 := LogEntry("2", "INFO", "m2", "s1", None);
    var m1 := LogEntry("1", "INFO", "m1", "s2", None);
    var logs := [m3, m2, m1];
    assert "s1"[1] != "s2"[1];
    assert logs[..2] == [m3, m2] && [m3, m2][..1] == [m3];
    assert WithoutSession([m3], "s2") == [m3];
    assert WithoutSession([m3, m2], "s2") == [m3, m2];
    assert WithoutSession(logs, "s2") == [m3, m2];
    assert Reverse([m3, m2]) == [m2, m3];
    assert RedisClearedAsWritten(logs, Some("s2")) == [m2, m3];
    assert RedisRange([m2, m3], 0, 0) == [m2];
    assert RedisCleared(logs, Some("s2")) == [m3, m2];
    assert RedisRange([m3, m2], 0, 0) == [m3];
  }

  class RedisLogStorage {
    const maxLogs: int
    /** The `parsing_logs` list, head first. */
    var logs: seq<LogEntry>
    /** The `parsing_sessions` hash. */
    var sessions: map<string, SessionRec>

    /** Each session is stored under its own id. */
    ghost predicate Valid()
      reads this
    {
      forall k :: k in sessions ==> sessions[k].id == k
    }

    constructor(maxLogs: int)
      ensures this.maxLogs == maxLogs && logs == [] && sessions == map[] && Valid()
    {
      this.maxLogs := maxLogs;
      logs := [];
      sessions := map[];
    }

    method AddLog(e: LogEntry)
      modifies this
      ensures logs == RedisAdded(old(logs), e, maxLogs)
      ensures sessions == old(sessions)
    {
      logs := [e] + logs;
      logs := RedisRange(logs, 0, maxLogs - 1);
    }

    method GetLogs(limit: int, sid: Option<string>) returns (r: seq<LogEntry>)
      ensures r == RedisLogs(logs, limit, sid)
    {
      var head := RedisRange(logs, 0, limit - 1);
      r := [];
      var i := 0;
      while i < |head|
        invariant 0 <= i <= |head|
        invariant r == (if sid.None? then head[..i] else OfSession(head[..i], sid.value))
      {
        assert head[..i + 1][..i] == head[..i];
        if sid.None? || head[i].sessionId == sid.value {
          r := r + [head[i]];
        }
        i := i + 1;
      }
      assert head[..|head|] == head;
    }

    /**
     * `clear_logs(session_id)` as written: the survivors are read head
     * first and pushed back one by one with `LPUSH`, so they end up reversed.
     */
    method ClearLogs(sid: Option<string>)
      modifies this
      ensures logs == RedisClearedAsWritten(old(logs), sid)
      ensures sessions == old(sessions)
    {
      if TruthyStr(sid) {
        var toKeep := WithoutSession(logs, sid.value);
        // `LPUSH key v1 … vn` inserts each value at the head in turn
        logs := Reverse(toKeep);
      } else {
        logs := [];
      }
    }

    method CreateSession(freshId: string, now: string) returns (id: string)
      requires Valid()
      modifies this
      ensures Valid()
      ensures id == freshId && sessions == WithOpened(old(sessions), id, now)
      ensures logs == old(logs)
    {
      id := freshId;
      sessions := sessions[id := SessionRec(id, now, Active, None)];
    }

    method CloseSession(id: string, now: string)
      requires Valid()
      modifies this
      ensures Valid()
      ensures sessions == WithClosed(old(sessions), id, now)
      ensures logs == old(logs)
    {
      if id in sessions {
        sessions := sessions[id := sessions[id].(status := Closed, closedAt := Some(now))];
      }
    }

    /** `HGETALL` has no order of its own: the active sessions, each once, in some order. */
    method GetActiveSessions() returns (r: seq<SessionRec>)
      requires Valid()
      ensures forall s :: s in r <==> s in sessions.Values && s.status == Active
      ensures forall i, j :: 0 <= i < j < |r| ==> r[i] != r[j]
    {
      r := [];
      var rest := sessions.Keys;
      while rest != {}
        invariant rest <= sessions.Keys
        invariant forall s :: s in r <==> exists k :: k in sessions.Keys - rest && sessions[k] == s && s.status == Active
        invariant forall i :: 0 <= i < |r| ==> r[i].id in sessions.Keys - rest
        invariant forall i, j :: 0 <= i < j < |r| ==> r[i] != r[j]
        decreases rest
      {
        var k :| k in rest;
        if sessions[k].status == Active {
          r := r + [sessions[k]];
        }
        rest := rest - {k};
      }
    }
  }

  // ---------------------------------------------------------------------
  // The manager
  // ---------------------------------------------------------------------

  /** `session_id or 'default'` */
  function SessionOr(sid: Option<string>): (r: string)
    ensures r != []
    ensures TruthyStr(sid) ==> r == sid.value
  {
    if TruthyStr(sid) then sid.value else "default"
  }

  /** The entry `LogManager.add_log` builds. */
  function NewEntry(now: string, message: string, level: string, sid: Option<string>,
                    context: Option<seq<(string, string)>>): (e: LogEntry)
    ensures e.level == Upper(level) && forall i :: 0 <= i < |e.level| ==> !('a' <= e.level[i] <= 'z')
    ensures e.sessionId == SessionOr(sid) && e.message == message && e.timestamp == now
  {
    LogEntry(now, Upper(level), message, SessionOr(sid), context)
  }

  const DefaultMaxLogs: int := 1000

  class LogManager {
    /** Whether the Redis store was chosen; otherwise the file store is used. */
    const useRedis: bool
    const redis: RedisLogStorage
    const file: FileLogStorage

    /**
     * `LogManager(...)`: Redis when preferred and its construction does not
     * raise (`redisAvailable`), the file store otherwise.
     */
    constructor(preferRedis: bool, redisAvailable: bool, maxLogs: int)
      ensures useRedis == (preferRedis && redisAvailable)
      ensures fresh(redis) && fresh(file)
      ensures redis.maxLogs == maxLogs && file.maxLogs == maxLogs
      ensures redis.logs == [] && file.logs == [] && file.Valid() && redis.Valid() && redis.sessions == map[]
    {
      useRedis := preferRedis && redisAvailable;
      redis := new RedisLogStorage(maxLogs);
      file := new FileLogStorage(maxLogs);
    }

    method AddLog(message: string, level: string, sid: Option<string>, context: Option<seq<(string, string)>>, now: string)
      modifies redis, file
      ensures useRedis ==> redis.logs == RedisAdded(old(redis.logs), NewEntry(now, message, level, sid, context), redis.maxLogs)
      ensures !useRedis ==> file.logs == LastN(old(file.logs) + [NewEntry(now, message, level, sid, context)], file.maxLogs)
      ensures useRedis ==> file.logs == old(file.logs)
      ensures !useRedis ==> redis.logs == old(redis.logs)
      ensures redis.sessions == old(redis.sessions) && file.sessions == old(file.sessions) && file.order == old(file.order)
    {
      var e := NewEntry(now, message, level, sid, context);
      if useRedis {
        redis.AddLog(e);
      } else {
        file.AddLog(e);
      }
    }

    /** `create_session()`: the store opens the session, then the manager logs its creation under it. */
    method CreateSession(freshId: string, now: string) returns (id: string)
      requires file.Valid() && redis.Valid()
      modifies redis, file
      ensures file.Valid() && redis.Valid()
      ensures id == freshId
      ensures useRedis ==> redis.sessions == WithOpened(old(redis.sessions), id, now) && file.sessions == old(file.sessions)
      ensures !useRedis ==> file.sessions == WithOpened(old(file.sessions), id, now) && redis.sessions == old(redis.sessions)
      ensures useRedis ==> redis.logs == RedisAdded(old(redis.logs), NewEntry(now, "Сессия создана: " + id, "INFO", Some(id), None), redis.maxLogs)
      ensures !useRedis ==> file.logs == LastN(old(file.logs) + [NewEntry(now, "Сессия создана: " + id, "INFO", Some(id), None)], file.maxLogs)
    {
      if useRedis {
        id := redis.CreateSession(freshId, now);
      } else {
        id := file.CreateSession(freshId, now);
      }
      AddLog("Сессия создана: " + id, "INFO", Some(id), None, now);
    }

    /** `close_session(session_id)`: the manager logs the closing first, then the store closes the session. */
    method CloseSession(id: string, now: string)
      requires file.Valid() && redis.Valid()
      modifies redis, file
      ensures file.Valid() && redis.Valid()
      ensures useRedis ==> redis.sessions == WithClosed(old(redis.sessions), id, now) && file.sessions == old(file.sessions)
      ensures !useRedis ==> file.sessions == WithClosed(old(file.sessions), id, now) && redis.sessions == old(redis.sessions)
      ensures useRedis ==> redis.logs == RedisAdded(old(redis.logs), NewEntry(now, "Сессия закрыта: " + id, "INFO", Some(id), None), redis.maxLogs)
      ensures !useRedis ==> file.logs == LastN(old(file.logs) + [NewEntry(now, "Сессия закрыта: " + id, "INFO", Some(id), None)], file.maxLogs)
    {
      AddLog("Сессия закрыта: " + id, "INFO", Some(id), None, now);
      if useRedis {
        redis.CloseSession(id, now);
      } else {
        file.CloseSession(id, now);
      }
    }

    method GetLogs(limit: int, sid: Option<string>) returns (r: seq<LogEntry>)
      ensures useRedis ==> r == RedisLogs(redis.logs, limit, sid)
      ensures !useRedis ==> r == FileLogs(file.logs, limit, sid)
    {
      if useRedis {
        r := redis.GetLogs(limit, sid);
      } else {
        r := file.GetLogs(limit, sid);
      }
    }

    method ClearLogs(sid: Option<string>)
      modifies redis, file
      ensures useRedis ==> redis.logs == RedisClearedAsWritten(old(redis.logs), sid) && file.logs == old(file.logs)
      ensures !useRedis ==> file.logs == FileCleared(old(file.logs), sid) && redis.logs == old(redis.logs)
      ensures redis.sessions == old(redis.sessions) && file.sessions == old(file.sessions) && file.order == old(file.order)
    {
      if useRedis {
        redis.ClearLogs(sid);
      } else {
        file.ClearLogs(sid);
      }
    }
  }

  /**
   * `get_log_manager(...)`: the first call builds a manager with the
   * default capacity; later calls return that same manager.
   */
  method GetLogManager(cell: Singleton.Lazy<LogManager>, preferRedis: bool, redisAvailable: bool) returns (m: LogManager)
    modifies cell
    ensures old(cell.instance).Some? ==> m == old(cell.instance).value
    ensures old(cell.instance).None? ==> fresh(m) && m.useRedis == (preferRedis && redisAvailable)
                                         && m.redis.maxLogs == DefaultMaxLogs && m.file.maxLogs == DefaultMaxLogs
    ensures cell.instance == Some(m)
  {
    if cell.instance.Some? {
      m := cell.Get(cell.instance.value);
    } else {
      var built := new LogManager(preferRedis, redisAvailable, DefaultMaxLogs);
      m := cell.Get(built);
    }
  }
}
