/** bin/nels-galaxy-api.py: the decision logic of the HTTP handlers. The
    handlers read and write the tracking database (class `Db.DB`) and
    answer with a status code and a body; routing, token checks and JSON
    transport are not modelled. */
module Api {
  import opened Wrappers
  import opened Text
  import opened Json
  import opened Seqs
  import Db
  import Utils

  /** What a handler sends back. */
  datatype Response<T> =
    | Sent(data: T)
    | NoContent
    | BadRequest(message: string)
    | Forbidden
    | NotFound
    | ServerError
    | Redirect(location: string)

  // -----------------------------------------------------------------------
  // Terms of service

  /** The body `Tos.get` answers with. */
  datatype TosBody = TosBody(status: string, gracePeriod: Option<string>)

  /** `timedelta.days` of `tos_date - now`: whole days, rounded down. */
  function GraceDays(t: Db.Tos, now: int): int {
    (t.tosDate - now) / Db.Day
  }

  /** A `grace` row whose date has passed. */
  predicate Expires(t: Db.Tos, now: int) {
    t.status == "grace" && GraceDays(t, now) < 0
  }

  /** The row as `Tos.get` leaves it: expired grace rows become `expired`. */
  function Checked(t: Db.Tos, now: int): (u: Db.Tos)
    ensures u.id == t.id && u.userId == t.userId && u.tosDate == t.tosDate
    ensures u.status == if Expires(t, now) then "expired" else t.status
  {
    if Expires(t, now) then t.(status := "expired") else t
  }

  /** What `Tos.get` reports for a row. */
  function TosReport(t: Db.Tos, now: int): TosBody {
    if t.status == "grace" && GraceDays(t, now) >= 0 then
      TosBody("grace", Some(NatToString(GraceDays(t, now) + 1) + " days"))
    else
      TosBody(Checked(t, now).status, None)
  }

  /** A grace period runs out exactly when its date has passed; the report
      then says `expired`, before that `grace` with the days left. */
  lemma TosExpiresExactly(t: Db.Tos, now: int)
    requires t.status == "grace"
    ensures TosReport(t, now).status == "expired" <==> now > t.tosDate
    ensures TosReport(t, now).status == "grace" <==> now <= t.tosDate
    ensures TosReport(t, now).gracePeriod.Some? <==> now <= t.tosDate
  {
    if now > t.tosDate {
      assert t.tosDate - now < 0;
      assert (t.tosDate - now) / Db.Day < 0;
    } else {
      assert (t.tosDate - now) / Db.Day >= 0;
    }
  }

  /** The number of days reported counts the current, partial day: it is
      `n + 1` exactly when between `n` and `n + 1` whole days are left. */
  lemma TosDaysLeft(t: Db.Tos, now: int, n: nat)
    requires t.status == "grace"
    requires now + n * Db.Day <= t.tosDate < now + (n + 1) * Db.Day
    ensures TosReport(t, now) == TosBody("grace", Some(NatToString(n + 1) + " days"))
  {
    assert GraceDays(t, now) == n;
  }

  /** A freshly initialised row, read later by the handler's own clock
      reading but within a day, reports fourteen days: the row is dated
      from the first reading, the days left from the second, and any time
      between them takes the count below fourteen whole days. Only when
      both readings fall on the same instant are fifteen days reported. */
  lemma FreshTosReport(id: nat, userId: int, created: int, now: int)
    ensures created < now <= created + Db.Day ==>
      TosReport(Db.Tos(id, userId, "grace", created + 14 * Db.Day), now) == TosBody("grace", Some("14 days"))
    ensures now == created ==>
      TosReport(Db.Tos(id, userId, "grace", created + 14 * Db.Day), now) == TosBody("grace", Some("15 days"))
  {
    var t := Db.Tos(id, userId, "grace", created + 14 * Db.Day);
    assert DigitChar(1) == '1' && DigitChar(4) == '4' && DigitChar(5) == '5';
    if created < now <= created + Db.Day {
      TosDaysLeft(t, now, 13);
      assert NatToString(14) == NatToString(1) + [DigitChar(4)] == "14";
      assert NatToString(14) + " days" == "14 days";
    }
    if now == created {
      TosDaysLeft(t, now, 14);
      assert NatToString(15) == NatToString(1) + [DigitChar(5)] == "15";
      assert NatToString(15) + " days" == "15 days";
    }
  }

  /** Rows that are not in `grace` are reported and kept as they are. */
  lemma TosOtherStatus(t: Db.Tos, now: int)
    requires t.status != "grace"
    ensures TosReport(t, now) == TosBody(t.status, None) && Checked(t, now) == t
  {
  }

  /** The table `get_user_tos` leaves behind for a user session. */
  function TosTableAfterGet(rows: seq<Db.Tos>, nextId: nat, userId: int, now: int): seq<Db.Tos> {
    if Db.FirstTos(rows, userId).Some? then rows else rows + [Db.TosRowFor(rows, nextId, userId, now)]
  }

  /** `Tos.get`: a server error for an unknown session key (the lookup
      raises), 403 without a user; otherwise the report, and an expired
      grace row is persisted as `expired`. The handler reads the clock
      twice: `created` when a missing row is initialised, `now` when the
      days left are computed. */
  method TosGet(db: Db.DB, sessionKey: string, created: int, now: int) returns (resp: Response<TosBody>)
    requires db.Valid()
    modifies db`tos, db`nextTosId
    ensures db.Valid()
    ensures sessionKey !in db.sessions ==> resp == ServerError && db.tos == old(db.tos)
    ensures sessionKey in db.sessions && !Db.UserSession(db.sessions, sessionKey) ==>
      resp == Forbidden && db.tos == old(db.tos)
    ensures Db.UserSession(db.sessions, sessionKey) ==>
      var uid := db.sessions[sessionKey].userId.value;
      var t := Db.TosRowFor(old(db.tos), old(db.nextTosId), uid, created);
      var table := TosTableAfterGet(old(db.tos), old(db.nextTosId), uid, created);
      resp == Sent(TosReport(t, now)) &&
      db.tos == if Expires(t, now) then Db.ReplaceTos(table, Checked(t, now)) else table
  {
    var userTos := db.GetUserTos(sessionKey, created);
    if userTos.Err? {
      return ServerError;
    }
    if userTos.value.None? {
      return Forbidden;
    }
    var t := userTos.value.value;
    var gracePeriod: Option<string> := None;
    if t.status == "grace" {
      var days := (t.tosDate - now) / Db.Day;
      if days >= 0 {
        gracePeriod := Some(NatToString(days + 1) + " days");
      } else {
        t := t.(status := "expired");
        db.UpdateTos(t);
      }
    }
    resp := Sent(TosBody(t.status, gracePeriod));
  }

  /** Whether a `Tos.patch` body accepts the terms. */
  predicate Accepts(body: map<string, Value>) {
    "status" in body && body["status"] == VStr("accepted")
  }

  /** `Tos.patch`: a server error for an unknown session key, 403 without
      a user; a body accepting the terms stores `accepted` dated `now` and
      answers 204; any other body answers 404 and changes no row (beyond
      the lazy initialisation, dated `created`). */
  method TosPatch(db: Db.DB, sessionKey: string, body: map<string, Value>, created: int, now: int)
    returns (resp: Response<()>)
    requires db.Valid()
    modifies db`tos, db`nextTosId
    ensures db.Valid()
    ensures sessionKey !in db.sessions ==> resp == ServerError && db.tos == old(db.tos)
    ensures sessionKey in db.sessions && !Db.UserSession(db.sessions, sessionKey) ==>
      resp == Forbidden && db.tos == old(db.tos)
    ensures Db.UserSession(db.sessions, sessionKey) ==>
      var uid := db.sessions[sessionKey].userId.value;
      var t := Db.TosRowFor(old(db.tos), old(db.nextTosId), uid, created);
      var table := TosTableAfterGet(old(db.tos), old(db.nextTosId), uid, created);
      (Accepts(body) ==> resp == NoContent && db.tos == Db.ReplaceTos(table, t.(status := "accepted", tosDate := now))) &&
      (!Accepts(body) ==> resp == NotFound && db.tos == table)
  {
    var userTos := db.GetUserTos(sessionKey, created);
    if userTos.Err? {
      return ServerError;
    }
    if userTos.value.None? {
      return Forbidden;
    }
    if "status" in body && body["status"] == VStr("accepted") {
      var t := userTos.value.value.(status := "accepted", tosDate := now);
      db.UpdateTos(t);
      return NoContent;
    }
    return NotFound;
  }

  // -----------------------------------------------------------------------
  // History exports as Galaxy records them

  /** States `HistoryExportsList` accepts as a filter. */
  const HistoryExportStates: seq<string> :=
    ["new", "upload", "waiting", "", "queued", "running", "ok", "error",
     "paused", "deleted", "deleted_new", "pre-queueing", "all"]

  /** States `ExportsList` accepts: Galaxy's job states and the tracker's. */
  const TrackerStates: seq<string> :=
    ["new", "upload", "waiting", "queued", "running", "ok", "error",
     "paused", "deleted", "deleted_new", "pre-queueing",
     "fetch-running", "fetch-ok", "fetch-error",
     "nels-transfer-queue", "nels-transfer-running", "nels-transfer-ok", "nels-transfer-error"]

  /** How the `state` query argument is taken: rejected, raising, or the
      state to filter on. */
  datatype StateChoice = Rejected(state: string) | Raises | Use(state: string)

  /** The state argument as the handler reads it: a value outside the
      whitelist is rejected, and an absent one makes `filter['state']`
      raise. */
  function StateArgAsWritten(filter: map<string, string>): (a: StateChoice)
    ensures a.Raises? <==> "state" !in filter
  {
    if "state" in filter && filter["state"] !in HistoryExportStates then Rejected(filter["state"])
    else if "state" !in filter then Raises
    else Use(filter["state"])
  }

  /** A request without a state filter fails with an error. */
  lemma StateArgAsWrittenRaises()
    ensures StateArgAsWritten(map[]) == Raises
  {
  }

  /** The state argument as the whitelist check means it: absent is the
      empty filter, as for `get_exports` itself. */
  function StateArg(filter: map<string, string>): (a: StateChoice)
    ensures !a.Raises?
    ensures a.Rejected? <==> "state" in filter && filter["state"] !in HistoryExportStates
    ensures a.Use? ==> a.state in HistoryExportStates
    ensures "state" !in filter ==> a == Use("")
  {
    if "state" in filter && filter["state"] !in HistoryExportStates then Rejected(filter["state"])
    else Use(if "state" in filter then filter["state"] else "")
  }

  /** A Galaxy export row as a Python dict, in the columns of the query
      that produced it. */
  function ExportJson(e: Db.Export): Value {
    match e
    case Export(_, _, _, _, _, _, _) =>
      VDict([Field("export_id", VInt(e.exportId)), Field("dataset_id", VInt(e.datasetId)),
             Field("history_id", VInt(e.historyId)), Field("name", VStr(e.name)),
             Field("create_time", VInt(e.createTime)), Field("state", VStr(e.state)),
             Field("job_id", VInt(e.jobId))])
    case Listed(_, _, _, _, _, _, _, _) =>
      VDict([Field("export_id", VInt(e.exportId)), Field("dataset_id", VInt(e.datasetId)),
             Field("history_id", VInt(e.historyId)), Field("history_name", VStr(e.historyName)),
             Field("user_id", VInt(e.userId)), Field("email", VStr(e.email)),
             Field("create_time", VInt(e.createTime)), Field("state", VStr(e.state))])
  }

  /** The id columns of the export rows contain `_id`. */
  lemma IdColumns()
    ensures HasInfix("export_id", "_id") && HasInfix("dataset_id", "_id")
    ensures HasInfix("history_id", "_id") && HasInfix("job_id", "_id") && HasInfix("user_id", "_id")
  {
    assert OccursAt("export_id", "_id", 6);
    assert OccursAt("dataset_id", "_id", 7);
    assert OccursAt("history_id", "_id", 7);
    assert OccursAt("job_id", "_id", 3);
    assert OccursAt("user_id", "_id", 4);
  }

  /** Columns without an underscore do not contain `_id`. */
  lemma PlainColumns()
    ensures !HasInfix("name", "_id") && !HasInfix("state", "_id") && !HasInfix("instance", "_id")
    ensures !HasInfix("destination", "_id") && !HasInfix("tmpfile", "_id") && !HasInfix("email", "_id")
  {
    NoInfixWithout("name", "_id", 0);
    NoInfixWithout("state", "_id", 0);
    NoInfixWithout("instance", "_id", 0);
    NoInfixWithout("destination", "_id", 0);
    NoInfixWithout("tmpfile", "_id", 0);
    NoInfixWithout("email", "_id", 0);
  }

  /** `x_time` does not contain `_id` when `x` has no underscore. */
  lemma TimeColumn(x: string)
    requires '_' !in x
    ensures !HasInfix(x + "_time", "_id")
  {
    InfixAfter(x, "_time", "_id");
    NoInfixWithout("_time", "_id", 2);
  }

  /** `history_name` does not contain `_id`. */
  lemma HistoryNameColumn()
    ensures !HasInfix("history_name", "_id")
  {
    assert "history_name" == "history" + "_name";
    InfixAfter("history", "_name", "_id");
    NoInfixWithout("_name", "_id", 1);
  }

  /** `encrypt_ids` on one int-valued column whose name contains `_id`. */
  lemma EncryptIntColumn(c: Utils.Cipher, key: string, x: int)
    requires HasInfix(key, "_id") && key != "nels_id"
    ensures Utils.EncryptField(c, Field(key, VInt(x))) == Field(key, VStr(Utils.EncryptValue(c, IntToString(x))))
  {
  }

  /** `encrypt_ids` leaves a column alone whose name lacks `_id`. */
  lemma KeepPlainColumn(c: Utils.Cipher, key: string, v: Value)
    requires !HasInfix(key, "_id") && key != "id"
    ensures Utils.EncryptField(c, Field(key, v)) == Field(key, v)
  {
  }

  /** `encrypt_ids` applied to an export row, column by column: seven
      columns for a per-user row, eight for a row of `get_all_exports`. */
  lemma ExportColumns(c: Utils.Cipher, e: Db.Export)
    ensures Utils.EncryptedIds(c, ExportJson(e)).Ok?
    ensures var f := Utils.EncryptedIds(c, ExportJson(e)).value.fields;
      |f| == |ExportJson(e).fields| == (if e.Export? then 7 else 8) &&
      forall k :: 0 <= k < |f| ==> f[k] == Utils.EncryptField(c, ExportJson(e).fields[k])
  {
  }

  /** The id columns of an export row are replaced by their encrypted
      decimal strings: export, dataset, history and job ids of a per-user
      row; export, dataset, history and user ids of a listed row. */
  lemma ExportIdColumnsEncrypted(c: Utils.Cipher, e: Db.Export)
    ensures Utils.EncryptedIds(c, ExportJson(e)).Ok?
    ensures var f := Utils.EncryptedIds(c, ExportJson(e)).value.fields;
      |f| >= 3 &&
      f[0] == Field("export_id", VStr(Utils.EncryptValue(c, IntToString(e.exportId)))) &&
      f[1] == Field("dataset_id", VStr(Utils.EncryptValue(c, IntToString(e.datasetId)))) &&
      f[2] == Field("history_id", VStr(Utils.EncryptValue(c, IntToString(e.historyId))))
    ensures var f := Utils.EncryptedIds(c, ExportJson(e)).value.fields;
      e.Export? ==> |f| == 7 && f[6] == Field("job_id", VStr(Utils.EncryptValue(c, IntToString(e.jobId))))
    ensures var f := Utils.EncryptedIds(c, ExportJson(e)).value.fields;
      e.Listed? ==> |f| == 8 && f[4] == Field("user_id", VStr(Utils.EncryptValue(c, IntToString(e.userId))))
  {
    if e.Export? {
      UserExportIds(c, e);
    } else {
      ListedExportIds(c, e);
    }
  }

  lemma UserExportIds(c: Utils.Cipher, e: Db.Export)
    requires e.Export?
    ensures Utils.EncryptedIds(c, ExportJson(e)).Ok?
    ensures var f := Utils.EncryptedIds(c, ExportJson(e)).value.fields;
      |f| == 7 &&
      f[0] == Field("export_id", VStr(Utils.EncryptValue(c, IntToString(e.exportId)))) &&
      f[1] == Field("dataset_id", VStr(Utils.EncryptValue(c, IntToString(e.datasetId)))) &&
      f[2] == Field("history_id", VStr(Utils.EncryptValue(c, IntToString(e.historyId)))) &&
      f[6] == Field("job_id", VStr(Utils.EncryptValue(c, IntToString(e.jobId))))
  {
    IdColumns();
    EncryptedIdColumn(c, e, 0, "export_id", e.exportId);
    EncryptedIdColumn(c, e, 1, "dataset_id", e.datasetId);
    EncryptedIdColumn(c, e, 2, "history_id", e.historyId);
    EncryptedIdColumn(c, e, 6, "job_id", e.jobId);
  }

  lemma ListedExportIds(c: Utils.Cipher, e: Db.Export)
    requires e.Listed?
    ensures Utils.EncryptedIds(c, ExportJson(e)).Ok?
    ensures var f := Utils.EncryptedIds(c, ExportJson(e)).value.fields;
      |f| == 8 &&
      f[0] == Field("export_id", VStr(Utils.EncryptValue(c, IntToString(e.exportId)))) &&
      f[1] == Field("dataset_id", VStr(Utils.EncryptValue(c, IntToString(e.datasetId)))) &&
      f[2] == Field("history_id", VStr(Utils.EncryptValue(c, IntToString(e.historyId)))) &&
      f[4] == Field("user_id", VStr(Utils.EncryptValue(c, IntToString(e.userId))))
  {
    IdColumns();
    EncryptedIdColumn(c, e, 0, "export_id", e.exportId);
    EncryptedIdColumn(c, e, 1, "dataset_id", e.datasetId);
    EncryptedIdColumn(c, e, 2, "history_id", e.historyId);
    EncryptedIdColumn(c, e, 4, "user_id", e.userId);
  }

  /** Column `k` of an export row, an int id column, after `encrypt_ids`. */
  lemma EncryptedIdColumn(c: Utils.Cipher, e: Db.Export, k: nat, key: string, x: int)
    requires k < |ExportJson(e).fields| && ExportJson(e).fields[k] == Field(key, VInt(x))
    requires HasInfix(key, "_id") && key != "nels_id"
    ensures Utils.EncryptedIds(c, ExportJson(e)).Ok?
    ensures var f := Utils.EncryptedIds(c, ExportJson(e)).value.fields;
      k < |f| && f[k] == Field(key, VStr(Utils.EncryptValue(c, IntToString(x))))
  {
    ExportColumns(c, e);
    EncryptIntColumn(c, key, x);
  }

  /** The other columns of an export row are left as they are: name,
      create_time and state of a per-user row; history_name, email,
      create_time and state of a listed row. */
  lemma ExportPlainColumnsKept(c: Utils.Cipher, e: Db.Export)
    ensures Utils.EncryptedIds(c, ExportJson(e)).Ok?
    ensures var f := Utils.EncryptedIds(c, ExportJson(e)).value.fields;
      e.Export? ==> |f| == 7 && f[3..6] == ExportJson(e).fields[3..6]
    ensures var f := Utils.EncryptedIds(c, ExportJson(e)).value.fields;
      e.Listed? ==> |f| == 8 && f[3] == ExportJson(e).fields[3] && f[5..8] == ExportJson(e).fields[5..8]
  {
    var fs := ExportJson(e).fields;
    ExportColumns(c, e);
    PlainColumns();
    assert "create_time" == "create" + "_time";
    TimeColumn("create");
    if e.Export? {
      KeepPlainColumn(c, "name", fs[3].val);
      KeepPlainColumn(c, "create_time", fs[4].val);
      KeepPlainColumn(c, "state", fs[5].val);
    } else {
      HistoryNameColumn();
      KeepPlainColumn(c, "history_name", fs[3].val);
      KeepPlainColumn(c, "email", fs[5].val);
      KeepPlainColumn(c, "create_time", fs[6].val);
      KeepPlainColumn(c, "state", fs[7].val);
    }
  }

  /** The obfuscated export and history ids of a response decrypt back to
      the decimal ids, as the handlers taking an export id expect. */
  lemma ExportIdRoundTrip(c: Utils.Cipher, e: Db.Export)
    requires Utils.Invertible(c)
    ensures Utils.EncryptedIds(c, ExportJson(e)).Ok?
    ensures var f := Utils.EncryptedIds(c, ExportJson(e)).value.fields;
      |f| >= 3 && f[0].val.VStr? && f[2].val.VStr? &&
      Utils.DecryptValue(c, f[0].val.s) == IntToString(e.exportId) &&
      Utils.DecryptValue(c, f[2].val.s) == IntToString(e.historyId)
  {
    ExportIdColumnsEncrypted(c, e);
    IntStrHasNoBang(VInt(e.exportId));
    Utils.DecryptEncrypt(c, IntToString(e.exportId));
    IntStrHasNoBang(VInt(e.historyId));
    Utils.DecryptEncrypt(c, IntToString(e.historyId));
  }

  /** `HistoryExportsList.get`, with an absent state taken as no filter:
      400 for a state outside the whitelist, otherwise the exports (all of
      them with `/all`, else the latest per history) with ids obfuscated. */
  method HistoryExportsList(c: Utils.Cipher, filter: map<string, string>, all: bool, rows: seq<Db.ListedExport>)
    returns (resp: Response<Value>)
    ensures StateArg(filter).Rejected? <==> resp.BadRequest?
    ensures StateArg(filter).Use? ==> resp.Sent?
    ensures StateArg(filter).Use? && all ==>
      Utils.EncryptedIds(c, VList(ExportsJson(Db.AllExports(rows, StateArg(filter).state)))) == Ok(resp.data)
    ensures StateArg(filter).Use? && !all && StateArg(filter).state == "" ==>
      Utils.EncryptedIds(c, VList(ExportsJson(Db.LatestPerHistory(rows)))) == Ok(resp.data)
    ensures StateArg(filter).Use? && !all && StateArg(filter).state != "" ==>
      Utils.EncryptedIds(c, VList(ExportsJson(Filter(Db.LatestPerHistory(rows), Db.InState(StateArg(filter).state))))) == Ok(resp.data)
  {
    var arg := StateArg(filter);
    if arg.Rejected? {
      return BadRequest("Invalid value for state " + arg.state);
    }
    var exports: seq<Db.Export>;
    if all {
      exports := Db.AllExports(rows, arg.state);
    } else {
      exports := Db.GetExports(rows, arg.state);
    }
    var encrypted := Utils.ListEncryptIds(c, VList(ExportsJson(exports)));
    ExportsJsonAccepted(c, exports);
    resp := Sent(encrypted.value);
  }

  function ExportsJson(es: seq<Db.Export>): (r: seq<Value>)
    ensures |r| == |es| && forall i :: 0 <= i < |r| ==> r[i] == ExportJson(es[i])
  {
    seq(|es|, i requires 0 <= i < |es| => ExportJson(es[i]))
  }

  /** A list of export rows never makes `encrypt_ids` raise. */
  lemma ExportsJsonAccepted(c: Utils.Cipher, es: seq<Db.Export>)
    ensures Utils.EncryptedIds(c, VList(ExportsJson(es))).Ok?
  {
    Utils.EncryptedIdsShape(c, VList(ExportsJson(es)));
  }

  /** Row `i` of an encrypted list of exports is row `i` encrypted on its
      own, so the column lemmas above describe every row of a response. */
  lemma ExportsListItem(c: Utils.Cipher, es: seq<Db.Export>, i: nat)
    requires i < |es|
    ensures Utils.EncryptedIds(c, VList(ExportsJson(es))).Ok?
    ensures var l := Utils.EncryptedIds(c, VList(ExportsJson(es))).value;
      l.VList? && |l.items| == |es| && Utils.EncryptedIds(c, ExportJson(es[i])) == Ok(l.items[i])
  {
    var v := VList(ExportsJson(es));
    Utils.EncryptedIdsShape(c, v);
    Utils.EncryptedItemsShape(c, v, 0);
    Utils.EncryptedItemsAt(c, v, 0, i);
  }

  /** `HistoryExport.get`: 404 when the lookup finds nothing, otherwise
      the first row with its ids obfuscated. */
  function HistoryExportGet(c: Utils.Cipher, found: seq<Db.Export>): (resp: Response<Value>)
    ensures found == [] <==> resp == NotFound
    ensures found != [] ==> resp.Sent? && Utils.EncryptedIds(c, ExportJson(found[0])) == Ok(resp.data)
  {
    if |found| == 0 then NotFound else Sent(Utils.EncryptedIds(c, ExportJson(found[0])).value)
  }

  /** Where `HistoryDownload.get` finds the file it streams. `found` holds
      the rows of `get_export`, `datasets` answers `get_by_id('dataset', ..)`
      with the dataset's id as the row. Indexing the export rows happens
      outside the `try` (an empty lookup is a server error); inside it,
      subscripting what `get_dataset` returns and the path lookup turn
      their errors into a 400. */
  function DownloadFile(fs: Utils.FileSystem, base: string, found: seq<Db.Export>,
                        datasets: int -> Db.Fetched<int>): (resp: Response<string>)
    ensures found == [] <==> resp.ServerError?
    ensures resp.Sent? <==>
      (found != [] && Db.GetDataset(datasets(found[0].datasetId)).Row? &&
       Utils.ConstructFilePath(fs, IntToString(Db.GetDataset(datasets(found[0].datasetId)).row), base).Ok?)
    ensures resp.Sent? ==>
      resp.data == Utils.ConstructFilePath(fs, IntToString(Db.GetDataset(datasets(found[0].datasetId)).row), base).value
    ensures !resp.Sent? ==> resp.ServerError? || resp.BadRequest?
  {
    if found == [] then ServerError
    else
      match Db.GetDataset(datasets(found[0].datasetId))
      case NoRow => BadRequest("'NoneType' object is not subscriptable")
      case Rows(_) => BadRequest("list indices must be integers or slices, not str")
      case Row(id) =>
        match Utils.ConstructFilePath(fs, IntToString(id), base)
        case Ok(path) => Sent(path)
        case Err(e) => BadRequest(e)
  }

  /** A dataset lookup that comes back as a non-empty list is served from
      its first row, just as a single row is; an empty list is a 400. */
  lemma DownloadUnwrapsList(fs: Utils.FileSystem, base: string, found: seq<Db.Export>,
                            datasets: int -> Db.Fetched<int>, id: int, more: seq<int>)
    requires found != []
    ensures datasets(found[0].datasetId) in {Db.Row(id), Db.Rows([id] + more)} ==>
      var path := Utils.ConstructFilePath(fs, IntToString(id), base);
      DownloadFile(fs, base, found, datasets) == if path.Ok? then Sent(path.value) else BadRequest(path.error)
    ensures datasets(found[0].datasetId) == Db.Rows([]) ==> DownloadFile(fs, base, found, datasets).BadRequest?
  {
    var r := datasets(found[0].datasetId);
    if r == Db.Rows([id] + more) {
      assert Db.GetDataset(r) == Db.Row(id);
    }
  }

  // -----------------------------------------------------------------------
  // Export trackers

  /** The tracker `_register_export` creates. */
  function NewTracking(instance: string, user: Option<string>, historyId: Option<string>,
                       nelsId: Option<string>, destination: Option<string>): Db.TrackingValues
  {
    Db.TrackingValues(Some(instance), user, historyId, Some("pre-queueing"), nelsId, destination)
  }

  /** `Export.post`: registers a `pre-queueing` tracker and redirects the
      browser back to the instance. The insert fails, and the handler
      answers 400, when `nelsId` is not an integer the column can hold. */
  method ExportPost(db: Db.DB, instance: string, user: Option<string>, historyId: Option<string>,
                    nelsId: Option<string>, location: Option<string>, now: int) returns (resp: Response<()>)
    requires db.Valid()
    modifies db`trackings, db`nextTrackingId
    ensures db.Valid()
    ensures resp == (if Db.NelsIdCast(nelsId).Some? then Redirect("https://" + instance + "/") else BadRequest(""))
    ensures resp.Redirect? ==> db.trackings == old(db.trackings) + [Db.Tracking(old(db.nextTrackingId), Some(instance), user, historyId,
      None, Some("pre-queueing"), Some(now), None, Db.NelsIdCast(nelsId).value, location, None)]
    ensures resp.BadRequest? ==> db.trackings == old(db.trackings)
  {
    var ok := db.AddExportTracking(NewTracking(instance, user, historyId, nelsId, location), now);
    if !ok {
      return BadRequest("");
    }
    resp := Redirect("https://" + instance + "/");
  }

  /** `ExportUsegalaxy.patch`: the tracker with the (decrypted) id takes the
      given fields and an update time; 204. */
  method ExportPatch(db: Db.DB, trackingId: nat, patch: Db.TrackingPatch, now: int) returns (resp: Response<()>)
    requires db.Valid()
    modifies db`trackings
    ensures db.Valid()
    ensures resp == NoContent
    ensures |db.trackings| == |old(db.trackings)|
    ensures forall i :: 0 <= i < |db.trackings| ==>
      db.trackings[i] == if old(db.trackings)[i].id == trackingId then Db.Patched(old(db.trackings)[i], patch, now) else old(db.trackings)[i]
  {
    db.UpdateExportTracking(trackingId, patch, now);
    resp := NoContent;
  }

  /** The filter `ExportsList.get` queries trackers with. */
  function TrackingFilterFor(state: Option<string>, user: Option<string>, instance: Option<string>): (f: Db.TrackingFilter)
    ensures f.state == state && f.instance == instance
    ensures f.userEmail.Some? <==> user.Some? && user.value != "all"
    ensures f.userEmail.Some? ==> f.userEmail == user
  {
    Db.TrackingFilter(state,
                      if instance.Some? then instance else None,
                      if user.Some? && user.value != "all" then user else None)
  }

  /** A tracker row as a Python dict. */
  function TrackingJson(t: Db.Tracking): Value {
    VDict([Field("id", VInt(t.id)), Field("instance", OptStr(t.instance)),
           Field("user_email", OptStr(t.userEmail)), Field("history_id", OptStr(t.historyId)),
           Field("export_id", OptStr(t.exportId)), Field("state", OptStr(t.state)),
           Field("create_time", OptInt(t.createTime)), Field("update_time", OptInt(t.updateTime)),
           Field("nels_id", OptInt(t.nelsId)), Field("destination", OptStr(t.destination)),
           Field("tmpfile", OptStr(t.tmpfile))])
  }

  function OptStr(s: Option<string>): Value {
    if s.Some? then VStr(s.value) else VNull
  }

  function OptInt(i: Option<int>): Value {
    if i.Some? then VInt(i.value) else VNull
  }

  /** `encrypt_ids` applied to a tracker row, column by column. */
  lemma TrackingColumns(c: Utils.Cipher, t: Db.Tracking)
    ensures Utils.EncryptedIds(c, TrackingJson(t)).Ok?
    ensures var f := Utils.EncryptedIds(c, TrackingJson(t)).value.fields;
      |f| == 11 && forall k :: 0 <= k < 11 ==> f[k] == Utils.EncryptField(c, TrackingJson(t).fields[k])
  {
  }

  /** Every tracker column but `id` is left alone: the other `_id` columns
      hold strings or null, and `nels_id` is skipped by name. */
  lemma TrackingColumnKept(c: Utils.Cipher, t: Db.Tracking, k: nat)
    requires 1 <= k < 11
    ensures Utils.EncryptField(c, TrackingJson(t).fields[k]) == TrackingJson(t).fields[k]
  {
    var fs := TrackingJson(t).fields;
    if k in {2, 3, 4} {
      assert !IsPyInt(fs[k].val);
    } else if k == 8 {
      assert fs[k].key == "nels_id";
    } else if k == 6 {
      assert "create_time" == "create" + "_time";
      TimeColumn("create");
    } else if k == 7 {
      assert "update_time" == "update" + "_time";
      TimeColumn("update");
    } else {
      PlainColumns();
    }
  }

  /** In a tracker only the `id` is obfuscated. */
  lemma TrackingJsonEncrypted(c: Utils.Cipher, t: Db.Tracking)
    ensures Utils.EncryptedIds(c, TrackingJson(t)).Ok?
    ensures var f := Utils.EncryptedIds(c, TrackingJson(t)).value.fields;
      |f| == 11 && f[0] == Field("id", VStr(Utils.EncryptValue(c, IntToString(t.id)))) &&
      f[1..] == TrackingJson(t).fields[1..]
  {
    TrackingColumns(c, t);
    forall k | 1 <= k < 11 ensures Utils.EncryptField(c, TrackingJson(t).fields[k]) == TrackingJson(t).fields[k] {
      TrackingColumnKept(c, t, k);
    }
  }

  function TrackingsJson(ts: seq<Db.Tracking>): (r: seq<Value>)
    ensures |r| == |ts| && forall i :: 0 <= i < |r| ==> r[i] == TrackingJson(ts[i])
  {
    seq(|ts|, i requires 0 <= i < |ts| => TrackingJson(ts[i]))
  }

  /** `ExportsList.get`: 400 for a state outside the tracker whitelist,
      otherwise the trackers matching the filter, ids obfuscated. */
  method ExportsList(db: Db.DB, c: Utils.Cipher, state: Option<string>, user: Option<string>, instance: Option<string>)
    returns (resp: Response<Value>)
    ensures state.Some? && state.value !in TrackerStates <==> resp.BadRequest?
    ensures !resp.BadRequest? ==>
      resp.Sent? && Utils.EncryptedIds(c, VList(TrackingsJson(db.ExportTrackings(TrackingFilterFor(state, user, instance))))) == Ok(resp.data)
  {
    if state.Some? && state.value !in TrackerStates {
      return BadRequest("Invalid value for state " + state.value);
    }
    var filter := Db.TrackingFilter(state, None, None);
    if instance.Some? {
      filter := filter.(instance := instance);
    }
    if user.Some? && user.value != "all" {
      filter := filter.(userEmail := user);
    }
    var rows := TrackingsJson(db.ExportTrackings(filter));
    Utils.EncryptedIdsShape(c, VList(rows));
    var encrypted := Utils.EncryptIds(c, VList(rows));
    resp := Sent(encrypted.value);
  }
}
