/** nels_galaxy_api/db.py: the tracking tables kept by the API (terms of
    service, export tracking) and the queries over Galaxy's own export
    records. Tables are in-memory sequences of rows; the SQL text and the
    database driver are not modelled. */
module Db {
  import opened Wrappers
  import opened Seqs
  import Text

  /** Seconds in a day; times are whole seconds. */
  const Day: int := 86400

  datatype Session = Session(isValid: bool, userId: Option<int>)

  /** A row of `nels_tos`. */
  datatype Tos = Tos(id: nat, userId: int, status: string, tosDate: int)

  /** A row of `nels_export_tracking`. */
  datatype Tracking = Tracking(
    id: nat,
    instance: Option<string>,
    userEmail: Option<string>,
    historyId: Option<string>,
    exportId: Option<string>,
    state: Option<string>,
    createTime: Option<int>,
    updateTime: Option<int>,
    nelsId: Option<int>,
    destination: Option<string>,
    tmpfile: Option<string>)

  /** Bounds of PostgreSQL's 32-bit `integer` type. */
  const IntMin: int := -0x8000_0000
  const IntMax: int := 0x7fff_ffff

  /** PostgreSQL's conversion of a text parameter into an `integer` column:
      an optional sign and one or more decimal digits, within 32 bits;
      anything else makes the statement fail. */
  function IntCast(s: string): (r: Option<int>)
    ensures r.Some? ==> IntMin <= r.value <= IntMax
    ensures r.Some? ==> s != [] && Text.AllDigits(if s[0] == '-' || s[0] == '+' then s[1..] else s)
  {
    var digits := if s != [] && (s[0] == '-' || s[0] == '+') then s[1..] else s;
    if digits == [] || !Text.AllDigits(digits) then None
    else
      var v: int := if s[0] == '-' then -(Text.DigitsValue(digits) as int) else Text.DigitsValue(digits);
      if IntMin <= v <= IntMax then Some(v) else None
  }

  /** An integer written in decimal casts back to itself exactly when it
      fits in 32 bits. */
  lemma IntCastRoundTrip(n: int)
    ensures IntCast(Text.IntToString(n)) == if IntMin <= n <= IntMax then Some(n) else None
  {
    var s := Text.IntToString(n);
    if n < 0 {
      assert s[1..] == Text.NatToString(-n);
      Text.DigitsValueNatToString(-n);
    } else {
      Text.DigitsValueNatToString(n);
    }
  }

  /** The cast a tracker's `nels_id` goes through: absent stays absent. */
  function NelsIdCast(nelsId: Option<string>): (r: Option<Option<int>>)
    ensures r.None? <==> nelsId.Some? && IntCast(nelsId.value).None?
    ensures r == Some(None) <==> nelsId.None?
    ensures r.Some? && r.value.Some? ==> nelsId.Some? && IntCast(nelsId.value) == r.value
  {
    if nelsId.None? then Some(None)
    else if IntCast(nelsId.value).Some? then Some(Some(IntCast(nelsId.value).value))
    else None
  }

  /** The values a new tracking row is created from; `nelsId` is the text
      the client sent, which the database casts to an integer. */
  datatype TrackingValues = TrackingValues(
    instance: Option<string>,
    userEmail: Option<string>,
    historyId: Option<string>,
    state: Option<string>,
    nelsId: Option<string>,
    destination: Option<string>)

  /** The fields a tracking update may carry (`None` = not given). */
  datatype TrackingPatch = TrackingPatch(state: Option<string>, exportId: Option<string>, tmpfile: Option<string>)

  /** The column filters of `get_export_trackings(**filter)`. */
  datatype TrackingFilter = TrackingFilter(state: Option<string>, instance: Option<string>, userEmail: Option<string>)

  predicate Matches(t: Tracking, f: TrackingFilter) {
    (f.state.None? || t.state == f.state) &&
    (f.instance.None? || t.instance == f.instance) &&
    (f.userEmail.None? || t.userEmail == f.userEmail)
  }

  /** The row an update turns `t` into: given fields overwrite, and
      `update_time` is stamped. */
  function Patched(t: Tracking, p: TrackingPatch, now: int): (u: Tracking)
    ensures u.id == t.id && u.updateTime == Some(now) && u.createTime == t.createTime
    ensures u.state == (if p.state.Some? then p.state else t.state)
    ensures u.exportId == (if p.exportId.Some? then p.exportId else t.exportId)
    ensures u.tmpfile == (if p.tmpfile.Some? then p.tmpfile else t.tmpfile)
    ensures u.instance == t.instance && u.userEmail == t.userEmail && u.historyId == t.historyId
    ensures u.nelsId == t.nelsId && u.destination == t.destination
  {
    t.(state := if p.state.Some? then p.state else t.state,
       exportId := if p.exportId.Some? then p.exportId else t.exportId,
       tmpfile := if p.tmpfile.Some? then p.tmpfile else t.tmpfile,
       updateTime := Some(now))
  }

  /** The first terms-of-service row of a user, as `tos[0]` reads it. */
  function FirstTos(rows: seq<Tos>, userId: int): (r: Option<Tos>)
    ensures r.Some? ==> r.value in rows && r.value.userId == userId
    ensures r.None? <==> forall i :: 0 <= i < |rows| ==> rows[i].userId != userId
  {
    if rows == [] then None
    else if rows[0].userId == userId then Some(rows[0])
    else FirstTos(rows[1..], userId)
  }

  /** The row `get_user_tos` hands back for a user: the first existing one,
      or else the `grace` row it inserts with id `nextId`. */
  function TosRowFor(rows: seq<Tos>, nextId: nat, userId: int, now: int): (t: Tos)
    ensures t.userId == userId
    ensures FirstTos(rows, userId).None? ==> t.status == "grace" && t.tosDate == now + 14 * Day
  {
    match FirstTos(rows, userId)
    case Some(t) => t
    case None => Tos(nextId, userId, "grace", now + 14 * Day)
  }

  /** The table after `update_tos(t)`: the row with `t`'s id replaced. */
  function ReplaceTos(rows: seq<Tos>, t: Tos): (r: seq<Tos>)
    ensures |r| == |rows|
    ensures forall i :: 0 <= i < |r| ==> r[i] == if rows[i].id == t.id then t else rows[i]
  {
    seq(|rows|, i requires 0 <= i < |rows| => if rows[i].id == t.id then t else rows[i])
  }

  /** A session that identifies a user: present, valid and with a user id. */
  predicate UserSession(sessions: map<string, Session>, key: string) {
    key in sessions && sessions[key].isValid && sessions[key].userId.Some?
  }

  /** What `get_by_id` hands back: nothing, one row, or a list of rows. */
  datatype Fetched<T> = NoRow | Row(row: T) | Rows(rows: seq<T>)

  /** `get_dataset`: a non-empty list is unwrapped to its first row;
      anything else is passed on as it came. */
  function GetDataset<T>(r: Fetched<T>): (d: Fetched<T>)
    ensures d.Row? <==> r.Row? || (r.Rows? && r.rows != [])
    ensures d.Rows? ==> d == r && d.rows == []
    ensures r.Rows? && r.rows != [] ==> d == Row(r.rows[0])
    ensures !r.Rows? ==> d == r
  {
    if r.Rows? && r.rows != [] then Row(r.rows[0]) else r
  }

  class DB {
    /** Tables known to the database (what `to_regclass` finds). */
    var tables: set<string>
    var sessions: map<string, Session>
    var tos: seq<Tos>
    var trackings: seq<Tracking>
    /** The next values of the `SERIAL` id columns. */
    var nextTosId: nat
    var nextTrackingId: nat

    /** Ids are handed out in increasing order, so no two rows share one. */
    ghost predicate Valid()
      reads this
    {
      (forall i :: 0 <= i < |tos| ==> tos[i].id < nextTosId) &&
      (forall i, j :: 0 <= i < j < |tos| ==> tos[i].id < tos[j].id) &&
      (forall i :: 0 <= i < |trackings| ==> trackings[i].id < nextTrackingId) &&
      (forall i, j :: 0 <= i < j < |trackings| ==> trackings[i].id < trackings[j].id)
    }

    constructor (tables: set<string>, sessions: map<string, Session>)
      ensures Valid()
      ensures this.tables == tables && this.sessions == sessions
      ensures tos == [] && trackings == []
    {
      this.tables := tables;
      this.sessions := sessions;
      tos, trackings := [], [];
      nextTosId, nextTrackingId := 1, 1;
    }

    /** `table_exist`: false exactly when `to_regclass` finds nothing. */
    method TableExist(name: string) returns (b: bool)
      ensures b <==> name in tables
    {
      b := name in tables;
    }

    /** `create_tos_table`: nothing happens when the table is there already,
        so a second call changes nothing. */
    method CreateTosTable()
      modifies this`tables
      ensures tables == old(tables) + {"nels_tos"}
      ensures "nels_tos" in old(tables) ==> tables == old(tables)
    {
      var exists_ := TableExist("nels_tos");
      if exists_ {
        return;
      }
      tables := tables + {"nels_tos"};
    }

    /** `create_export_tracking_table`, idempotent in the same way. */
    method CreateExportTrackingTable()
      modifies this`tables
      ensures tables == old(tables) + {"nels_export_tracking"}
      ensures "nels_export_tracking" in old(tables) ==> tables == old(tables)
    {
      var exists_ := TableExist("nels_export_tracking");
      if exists_ {
        return;
      }
      tables := tables + {"nels_export_tracking"};
    }

    /** `_init_user_tos`: a `grace` row dated fourteen days from now. */
    method InitUserTos(userId: int, now: int)
      requires Valid()
      modifies this`tos, this`nextTosId
      ensures Valid()
      ensures tos == old(tos) + [Tos(old(nextTosId), userId, "grace", now + 14 * Day)]
      ensures nextTosId == old(nextTosId) + 1
    {
      tos := tos + [Tos(nextTosId, userId, "grace", now + 14 * Day)];
      nextTosId := nextTosId + 1;
    }

    /** `get_user_tos`: the session lookup yields a list, so an unknown
        session key raises `IndexError` when the first session row is read;
        `None` unless the session identifies a user; a user without a row
        first gets a `grace` row, dated from `now`, which is then read back. */
    method GetUserTos(sessionKey: string, now: int) returns (r: Result<Option<Tos>>)
      requires Valid()
      modifies this`tos, this`nextTosId
      ensures Valid()
      ensures r.Err? <==> sessionKey !in sessions
      ensures !UserSession(sessions, sessionKey) ==> tos == old(tos) && nextTosId == old(nextTosId)
      ensures sessionKey in sessions && !UserSession(sessions, sessionKey) ==> r == Ok(None)
      ensures UserSession(sessions, sessionKey) ==>
        r == Ok(Some(TosRowFor(old(tos), old(nextTosId), sessions[sessionKey].userId.value, now)))
      ensures UserSession(sessions, sessionKey) && FirstTos(old(tos), sessions[sessionKey].userId.value).Some? ==>
        r == Ok(FirstTos(old(tos), sessions[sessionKey].userId.value)) && tos == old(tos)
      ensures UserSession(sessions, sessionKey) && FirstTos(old(tos), sessions[sessionKey].userId.value).None? ==>
        r == Ok(Some(Tos(old(nextTosId), sessions[sessionKey].userId.value, "grace", now + 14 * Day))) &&
        tos == old(tos) + [r.value.value]
      decreases if UserSession(sessions, sessionKey) && FirstTos(tos, sessions[sessionKey].userId.value).None? then 1 else 0
    {
      if sessionKey !in sessions {
        return Err("list index out of range");
      }
      if !sessions[sessionKey].isValid || sessions[sessionKey].userId.None? {
        return Ok(None);
      }
      var userId := sessions[sessionKey].userId.value;
      var row := FirstTos(tos, userId);
      if row.None? {
        InitUserTos(userId, now);
        assert FirstTos(tos, userId) == Some(tos[|tos| - 1]) by {
          assert forall i :: 0 <= i < |old(tos)| ==> tos[i] == old(tos)[i];
        }
        r := GetUserTos(sessionKey, now);
      } else {
        r := Ok(row);
      }
    }

    /** `update_tos`: the row with the same id is replaced, no other. */
    method UpdateTos(t: Tos)
      requires Valid()
      modifies this`tos
      ensures Valid()
      ensures tos == ReplaceTos(old(tos), t)
    {
      tos := ReplaceTos(tos, t);
    }

    /** `add_export_tracking`: `create_time` is stamped and the row gets the
        next id. A `nels_id` the integer column cannot take makes the insert
        fail (`ok` is false) and leaves the table as it was. */
    method AddExportTracking(values: TrackingValues, now: int) returns (ok: bool)
      requires Valid()
      modifies this`trackings, this`nextTrackingId
      ensures Valid()
      ensures ok <==> NelsIdCast(values.nelsId).Some?
      ensures ok ==> trackings == old(trackings) + [Tracking(old(nextTrackingId), values.instance, values.userEmail,
        values.historyId, None, values.state, Some(now), None, NelsIdCast(values.nelsId).value, values.destination, None)]
      ensures ok ==> nextTrackingId == old(nextTrackingId) + 1
      ensures !ok ==> trackings == old(trackings) && nextTrackingId == old(nextTrackingId)
    {
      var nelsId := NelsIdCast(values.nelsId);
      if nelsId.None? {
        return false;
      }
      trackings := trackings + [Tracking(nextTrackingId, values.instance, values.userEmail,
        values.historyId, None, values.state, Some(now), None, nelsId.value, values.destination, None)];
      nextTrackingId := nextTrackingId + 1;
      ok := true;
    }

    /** `update_export_tracking`: `update_time` is stamped, and only the row
        with the given id changes. */
    method UpdateExportTracking(trackingId: nat, p: TrackingPatch, now: int)
      requires Valid()
      modifies this`trackings
      ensures Valid()
      ensures |trackings| == |old(trackings)|
      ensures forall i :: 0 <= i < |trackings| ==>
        trackings[i] == if old(trackings)[i].id == trackingId then Patched(old(trackings)[i], p, now) else old(trackings)[i]
    {
      var rows := trackings;
      trackings := seq(|rows|, i requires 0 <= i < |rows| =>
        if rows[i].id == trackingId then Patched(rows[i], p, now) else rows[i]);
    }

    /** `get_export_trackings(**filter)`: the rows matching every given
        column, in table order. */
    function ExportTrackings(f: TrackingFilter): (r: seq<Tracking>)
      reads this
      ensures forall i :: 0 <= i < |r| ==> Matches(r[i], f) && r[i] in trackings
      ensures forall i :: 0 <= i < |trackings| && Matches(trackings[i], f) ==> trackings[i] in r
    {
      Filter(trackings, (t: Tracking) => Matches(t, f))
    }
  }

  // -----------------------------------------------------------------------
  // Galaxy's history exports: latest export per history

  /** A row of the joins over `job_export_history_archive`, `history` and
      `job`, in the two column sets the queries select: `Export` for the
      per-user and per-export queries (with the history's `name` and the
      `job_id`), `Listed` for `get_all_exports` (with `history_name`, the
      owner's `user_id` and `email`). */
  datatype Export =
    | Export(exportId: int, datasetId: int, historyId: int, name: string,
             createTime: int, state: string, jobId: int)
    | Listed(exportId: int, datasetId: int, historyId: int, historyName: string,
             userId: int, email: string, createTime: int, state: string)

  /** A row as `get_all_exports` selects it. */
  type ListedExport = e: Export | e.Listed? witness Listed(0, 0, 0, "", 0, "", 0, "")

  /** The history ids of `rows` in order of first appearance: the key order
      of the `cleaned_exports` dict. */
  function HistoryOrder(rows: seq<Export>): seq<int>
    decreases |rows|
  {
    if rows == [] then []
    else
      var hs := HistoryOrder(rows[..|rows| - 1]);
      if rows[|rows| - 1].historyId in hs then hs else hs + [rows[|rows| - 1].historyId]
  }

  /** The `cleaned_exports` dict after the loop has taken `rows`: per
      history, the first row with the greatest `create_time`, since a row
      replaces the kept one only when it is strictly newer. */
  function Cleaned(rows: seq<Export>): map<int, Export>
    decreases |rows|
  {
    if rows == [] then map[]
    else
      var m := Cleaned(rows[..|rows| - 1]);
      var e := rows[|rows| - 1];
      if e.historyId !in m || m[e.historyId].createTime < e.createTime then m[e.historyId := e] else m
  }

  lemma {:induction false} HistoryOrderMembers(rows: seq<Export>)
    ensures forall h :: h in HistoryOrder(rows) <==> exists k :: 0 <= k < |rows| && rows[k].historyId == h
    ensures forall i, j :: 0 <= i < j < |HistoryOrder(rows)| ==> HistoryOrder(rows)[i] != HistoryOrder(rows)[j]
    decreases |rows|
  {
    if rows != [] {
      var pre := rows[..|rows| - 1];
      HistoryOrderMembers(pre);
      forall h ensures h in HistoryOrder(rows) <==> exists k :: 0 <= k < |rows| && rows[k].historyId == h {
        if exists k :: 0 <= k < |rows| && rows[k].historyId == h {
          var k :| 0 <= k < |rows| && rows[k].historyId == h;
          if k < |pre| { assert pre[k].historyId == h; }
        }
        if exists k :: 0 <= k < |pre| && pre[k].historyId == h {
          var k :| 0 <= k < |pre| && pre[k].historyId == h;
          assert rows[k].historyId == h;
        }
      }
    }
  }

  /** The dict has a key for exactly the histories of the rows. */
  lemma {:induction false} CleanedKeys(rows: seq<Export>)
    ensures forall h :: h in Cleaned(rows) <==> h in HistoryOrder(rows)
    decreases |rows|
  {
    if rows != [] {
      CleanedKeys(rows[..|rows| - 1]);
    }
  }

  /** Every key of the order is a key of the dict. */
  lemma OrderedKeys(rows: seq<Export>)
    ensures forall k :: 0 <= k < |HistoryOrder(rows)| ==> HistoryOrder(rows)[k] in Cleaned(rows)
  {
    CleanedKeys(rows);
    forall k | 0 <= k < |HistoryOrder(rows)| ensures HistoryOrder(rows)[k] in Cleaned(rows) {
      assert HistoryOrder(rows)[k] in HistoryOrder(rows);
    }
  }

  /** The row kept for a history is one of its rows, and none of its rows
      is newer. */
  lemma {:induction false} CleanedSpec(rows: seq<Export>)
    ensures forall h :: h in Cleaned(rows) ==> Cleaned(rows)[h] in rows && Cleaned(rows)[h].historyId == h
    ensures forall k :: 0 <= k < |rows| ==>
      rows[k].historyId in Cleaned(rows) && rows[k].createTime <= Cleaned(rows)[rows[k].historyId].createTime
    decreases |rows|
  {
    if rows != [] {
      var pre := rows[..|rows| - 1];
      CleanedSpec(pre);
      assert rows == pre + [rows[|rows| - 1]];
      forall k | 0 <= k < |pre| ensures rows[k] == pre[k] { }
    }
  }

  /** No earlier row of the same history is as new as `rows[j]`. */
  ghost predicate FirstNewest(rows: seq<Export>, j: int) {
    0 <= j < |rows| &&
    forall k :: 0 <= k < j && rows[k].historyId == rows[j].historyId ==> rows[k].createTime < rows[j].createTime
  }

  /** `e` is the row at some position `j` that satisfies `FirstNewest`. */
  ghost predicate IsFirstNewest(rows: seq<Export>, e: Export) {
    exists j :: FirstNewest(rows, j) && rows[j] == e
  }

  /** Since only a strictly newer row replaces the kept one, the kept row
      is the first of the newest rows of its history. */
  lemma {:induction false} CleanedFirstNewest(rows: seq<Export>)
    ensures forall h :: h in Cleaned(rows) ==> exists j :: FirstNewest(rows, j) && rows[j] == Cleaned(rows)[h]
    decreases |rows|
  {
    if rows != [] {
      var pre, e := rows[..|rows| - 1], rows[|rows| - 1];
      var m := Cleaned(pre);
      CleanedFirstNewest(pre);
      CleanedSpec(pre);
      forall h | h in Cleaned(rows) ensures exists j :: FirstNewest(rows, j) && rows[j] == Cleaned(rows)[h] {
        if e.historyId == h && (h !in m || m[h].createTime < e.createTime) {
          forall k | 0 <= k < |pre| && rows[k].historyId == h ensures rows[k].createTime < e.createTime {
            assert pre[k] == rows[k];
          }
          assert FirstNewest(rows, |rows| - 1);
        } else {
          var j :| FirstNewest(pre, j) && pre[j] == m[h];
          forall k | 0 <= k < j ensures rows[k] == pre[k] { }
          assert FirstNewest(rows, j) && rows[j] == pre[j];
        }
      }
    }
  }

  /** One more row, as the loop of `get_user_history_exports` takes it. */
  lemma CleanedStep(rows: seq<Export>, i: nat)
    requires i < |rows|
    ensures rows[i].historyId in Cleaned(rows[..i]) <==> rows[i].historyId in HistoryOrder(rows[..i])
    ensures HistoryOrder(rows[..i + 1]) ==
      if rows[i].historyId in HistoryOrder(rows[..i]) then HistoryOrder(rows[..i])
      else HistoryOrder(rows[..i]) + [rows[i].historyId]
    ensures Cleaned(rows[..i + 1]) ==
      if rows[i].historyId !in Cleaned(rows[..i]) || Cleaned(rows[..i])[rows[i].historyId].createTime < rows[i].createTime
      then Cleaned(rows[..i])[rows[i].historyId := rows[i]] else Cleaned(rows[..i])
  {
    assert rows[..i + 1][..i] == rows[..i];
    CleanedKeys(rows[..i]);
  }

  /** The value the dict holds for a history of the rows. */
  function KeptRow(rows: seq<Export>, h: int): (e: Export)
    requires h in HistoryOrder(rows)
    ensures h in Cleaned(rows) && e == Cleaned(rows)[h]
    ensures e in rows && e.historyId == h
    ensures forall k :: 0 <= k < |rows| && rows[k].historyId == h ==> rows[k].createTime <= e.createTime
  {
    CleanedKeys(rows);
    CleanedSpec(rows);
    Cleaned(rows)[h]
  }

  /** What `get_user_history_exports` returns: the values of the dict, in
      the order in which their keys were first inserted. */
  function LatestPerHistory(rows: seq<Export>): (r: seq<Export>)
    ensures |r| == |HistoryOrder(rows)|
    ensures forall i :: 0 <= i < |r| ==> r[i].historyId == HistoryOrder(rows)[i]
  {
    var hs := HistoryOrder(rows);
    seq(|hs|, i requires 0 <= i < |hs| => KeptRow(rows, hs[i]))
  }

  /** At most one export per history; every history of the input is
      represented; and each kept export is the latest of its history. */
  lemma LatestPerHistorySpec(rows: seq<Export>)
    ensures forall i, j :: 0 <= i < j < |LatestPerHistory(rows)| ==>
      LatestPerHistory(rows)[i].historyId != LatestPerHistory(rows)[j].historyId
    ensures forall k :: 0 <= k < |rows| ==> exists i :: 0 <= i < |LatestPerHistory(rows)| && LatestPerHistory(rows)[i].historyId == rows[k].historyId
    ensures forall i, k :: 0 <= i < |LatestPerHistory(rows)| && 0 <= k < |rows| && rows[k].historyId == LatestPerHistory(rows)[i].historyId ==>
      rows[k].createTime <= LatestPerHistory(rows)[i].createTime
    ensures forall i :: 0 <= i < |LatestPerHistory(rows)| ==> LatestPerHistory(rows)[i] in rows
    ensures forall i :: 0 <= i < |LatestPerHistory(rows)| ==> IsFirstNewest(rows, LatestPerHistory(rows)[i])
  {
    var r := LatestPerHistory(rows);
    LatestPerHistoryDistinct(rows);
    forall k | 0 <= k < |rows| ensures exists i :: 0 <= i < |r| && r[i].historyId == rows[k].historyId {
      var i := KeptIndexOf(rows, k);
    }
    LatestPerHistoryNewest(rows);
  }

  lemma LatestPerHistoryNewest(rows: seq<Export>)
    ensures forall i, k :: 0 <= i < |LatestPerHistory(rows)| && 0 <= k < |rows| && rows[k].historyId == LatestPerHistory(rows)[i].historyId ==>
      rows[k].createTime <= LatestPerHistory(rows)[i].createTime
    ensures forall i :: 0 <= i < |LatestPerHistory(rows)| ==> LatestPerHistory(rows)[i] in rows
    ensures forall i :: 0 <= i < |LatestPerHistory(rows)| ==> IsFirstNewest(rows, LatestPerHistory(rows)[i])
  {
    var r := LatestPerHistory(rows);
    forall i | 0 <= i < |r|
      ensures r[i] in rows
      ensures forall k :: 0 <= k < |rows| && rows[k].historyId == r[i].historyId ==> rows[k].createTime <= r[i].createTime
      ensures IsFirstNewest(rows, r[i])
    {
      var j := KeptRowIsFirstNewest(rows, i);
    }
  }

  lemma LatestPerHistoryDistinct(rows: seq<Export>)
    ensures forall i, j :: 0 <= i < j < |LatestPerHistory(rows)| ==>
      LatestPerHistory(rows)[i].historyId != LatestPerHistory(rows)[j].historyId
  {
    HistoryOrderMembers(rows);
  }

  /** The position `i` at which the history of row `k` is kept. */
  lemma KeptIndexOf(rows: seq<Export>, k: int) returns (i: int)
    requires 0 <= k < |rows|
    ensures 0 <= i < |LatestPerHistory(rows)| && LatestPerHistory(rows)[i].historyId == rows[k].historyId
  {
    var hs := HistoryOrder(rows);
    HistoryOrderMembers(rows);
    assert rows[k].historyId in hs;
    i :| 0 <= i < |hs| && hs[i] == rows[k].historyId;
  }

  /** The export kept at position `i` is a row of the input, none of its
      history is newer, and it is the row at `j`, the first of the newest. */
  lemma KeptRowIsFirstNewest(rows: seq<Export>, i: int) returns (j: int)
    requires 0 <= i < |LatestPerHistory(rows)|
    ensures LatestPerHistory(rows)[i] in rows
    ensures forall k :: 0 <= k < |rows| && rows[k].historyId == LatestPerHistory(rows)[i].historyId ==>
      rows[k].createTime <= LatestPerHistory(rows)[i].createTime
    ensures FirstNewest(rows, j) && rows[j] == LatestPerHistory(rows)[i]
  {
    var hs := HistoryOrder(rows);
    assert hs[i] in hs;
    var e := KeptRow(rows, hs[i]);
    assert LatestPerHistory(rows)[i] == e && e == Cleaned(rows)[hs[i]];
    CleanedFirstNewest(rows);
    j :| FirstNewest(rows, j) && rows[j] == e;
  }

  /** `hs[i]` shows up in `rows` before any row of `hs[j]` when `i < j`. */
  ghost predicate AppearsBefore(rows: seq<Export>, a: int, b: int) {
    forall k :: 0 <= k < |rows| && rows[k].historyId == b ==> exists m :: 0 <= m < k && rows[m].historyId == a
  }

  /** The result follows the order in which the histories first appear. */
  lemma {:induction false} HistoryOrderIsFirstAppearance(rows: seq<Export>)
    ensures forall i, j :: 0 <= i < j < |HistoryOrder(rows)| ==> AppearsBefore(rows, HistoryOrder(rows)[i], HistoryOrder(rows)[j])
    decreases |rows|
  {
    if rows != [] {
      var pre := rows[..|rows| - 1];
      var hs, hp := HistoryOrder(rows), HistoryOrder(pre);
      HistoryOrderIsFirstAppearance(pre);
      HistoryOrderMembers(pre);
      HistoryOrderMembers(rows);
      forall i, j | 0 <= i < j < |hs| ensures AppearsBefore(rows, hs[i], hs[j]) {
        forall k | 0 <= k < |rows| && rows[k].historyId == hs[j] ensures exists m :: 0 <= m < k && rows[m].historyId == hs[i] {
          assert hs[i] == hp[i] && hp[i] in hp;
          var m0 :| 0 <= m0 < |pre| && pre[m0].historyId == hs[i];
          if j < |hp| {
            if k < |pre| {
              assert pre[k].historyId == hp[j];
              assert AppearsBefore(pre, hp[i], hp[j]);
              var m :| 0 <= m < k && pre[m].historyId == hp[i];
              assert rows[m].historyId == hs[i];
            } else {
              var k0 :| 0 <= k0 < |pre| && pre[k0].historyId == hp[j];
              assert AppearsBefore(pre, hp[i], hp[j]);
              var m :| 0 <= m < k0 && pre[m].historyId == hp[i];
              assert rows[m].historyId == hs[i];
            }
          } else {
            assert hs[j] !in hp;
            if k < |pre| {
              assert false;
            }
            assert rows[m0].historyId == hs[i];
          }
        }
      }
    }
  }

  /** `list(cleaned_exports.values())`: the kept rows in key order. */
  method ValuesInOrder(order: seq<int>, cleaned: map<int, Export>) returns (r: seq<Export>)
    requires forall k :: 0 <= k < |order| ==> order[k] in cleaned
    ensures |r| == |order| && forall k :: 0 <= k < |order| ==> r[k] == cleaned[order[k]]
  {
    r := [];
    for k := 0 to |order|
      invariant |r| == k && forall m :: 0 <= m < k ==> r[m] == cleaned[order[m]]
    {
      r := r + [cleaned[order[k]]];
    }
  }

  /** The loop of `get_user_history_exports`: `cleaned` is the
      `cleaned_exports` dict and `order` its key order. */
  method LatestExports(rows: seq<Export>) returns (r: seq<Export>)
    ensures r == LatestPerHistory(rows)
  {
    var order: seq<int> := [];
    var cleaned: map<int, Export> := map[];
    for i := 0 to |rows|
      invariant order == HistoryOrder(rows[..i])
      invariant cleaned == Cleaned(rows[..i])
    {
      CleanedStep(rows, i);
      var e := rows[i];
      if e.historyId !in cleaned {
        cleaned := cleaned[e.historyId := e];
        order := order + [e.historyId];
      } else if cleaned[e.historyId].createTime < e.createTime {
        cleaned := cleaned[e.historyId := e];
      }
    }
    assert rows[..|rows|] == rows;
    OrderedKeys(rows);
    r := ValuesInOrder(order, cleaned);
  }

  /** The state filter as a predicate over exports. */
  function InState(state: string): Export -> bool {
    (e: Export) => e.state == state
  }

  /** The state filter loop of `get_exports`. */
  method KeepState(xs: seq<Export>, state: string) returns (r: seq<Export>)
    ensures r == Filter(xs, InState(state))
  {
    r := [];
    for k := 0 to |xs|
      invariant r == Filter(xs[..k], InState(state))
    {
      FilterStep(xs, k, InState(state));
      if xs[k].state == state {
        r := r + [xs[k]];
      }
    }
    assert xs[..|xs|] == xs;
  }

  /** `get_exports`: the latest export per history, then, unless the state
      filter is empty, only those whose state equals it. */
  method GetExports(rows: seq<Export>, state: string) returns (r: seq<Export>)
    ensures state == "" ==> r == LatestPerHistory(rows)
    ensures state != "" ==> r == Filter(LatestPerHistory(rows), InState(state))
  {
    r := LatestExports(rows);
    if state != "" {
      r := KeepState(r, state);
    }
  }

  /** Filtering keeps rows of distinct histories distinct. */
  lemma {:induction false} FilterKeepsDistinct(xs: seq<Export>, p: Export -> bool)
    requires forall i, j :: 0 <= i < j < |xs| ==> xs[i].historyId != xs[j].historyId
    ensures forall i, j :: 0 <= i < j < |Filter(xs, p)| ==> Filter(xs, p)[i].historyId != Filter(xs, p)[j].historyId
    decreases |xs|
  {
    if xs != [] {
      FilterKeepsDistinct(xs[1..], p);
      var rest := Filter(xs[1..], p);
      forall i | 0 <= i < |rest| ensures rest[i].historyId != xs[0].historyId {
        var m :| 0 <= m < |xs[1..]| && xs[1..][m] == rest[i];
        assert xs[m + 1] == rest[i];
      }
    }
  }

  /** With a state filter every result has that state, and there is still
      at most one export per history. */
  lemma GetExportsFiltered(rows: seq<Export>, state: string)
    requires state != ""
    ensures forall i :: 0 <= i < |Filter(LatestPerHistory(rows), InState(state))| ==>
      Filter(LatestPerHistory(rows), InState(state))[i].state == state
    ensures forall i, j :: 0 <= i < j < |Filter(LatestPerHistory(rows), InState(state))| ==>
      Filter(LatestPerHistory(rows), InState(state))[i].historyId != Filter(LatestPerHistory(rows), InState(state))[j].historyId
  {
    LatestPerHistorySpec(rows);
    FilterKeepsDistinct(LatestPerHistory(rows), InState(state));
  }

  /** `get_all_exports(state)`: every export, restricted to one state unless
      the filter is empty. */
  function AllExports(rows: seq<Export>, state: string): (r: seq<Export>)
    ensures state == "" ==> r == rows
    ensures forall i :: 0 <= i < |r| ==> r[i] in rows && (state != "" ==> r[i].state == state)
  {
    if state == "" then rows else Filter(rows, InState(state))
  }
}
