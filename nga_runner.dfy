/** bin/nga_runner.py: the worker that moves a Galaxy history export
    through its states. A queue message `{tracker_id, state}` names a
    tracker; by state the worker triggers the export on the Galaxy instance
    (`pre-queueing`), fetches the archive (`ok`) or pushes it to NeLS
    Storage (`fetch-ok`), writing each new state to the master API and
    queueing the next step.

    Every remote call (the instance and master APIs, bioblend, the NeLS
    credentials endpoint, launching curl, scp and rm) is an oracle: the
    `World` a message meets says what each call answers or whether it
    raises. Writes to the master API, queue messages, commands and the ack
    are recorded, in order, in the runner's effect log. */
module NgaRunner {
  import opened Wrappers
  import opened Text
  import Json

  /** A remote call that returns a value or raises. */
  datatype Reply<T> = Returned(value: T) | Raised

  /** One entry of `instances` in the configuration file. */
  datatype InstanceConfig = InstanceConfig(key: string, active: Option<Json.Value>, name: string, url: string,
                                           apiKey: string, ngaUrl: string, ngaKey: string)

  /** A registered instance; `api` is the base URL of its API client. */
  datatype Instance = Instance(name: string, url: string, apiKey: string, ngaUrl: string, ngaKey: string, api: string)

  datatype Config = Config(masterUrl: string, nelsStorageUrl: string, tmpDir: Option<string>,
                           instances: seq<InstanceConfig>)

  /** `'active'` is present and truthy. */
  predicate Active(c: InstanceConfig) {
    c.active.Some? && Json.Truthy(c.active.value)
  }

  function Register(c: InstanceConfig): Instance {
    Instance(c.name, c.url, c.apiKey, c.ngaUrl, c.ngaKey, RStrip(c.ngaUrl, '/'))
  }

  /** The `instances` registry `init` builds: each active entry under its key,
      then under its name; later entries overwrite earlier ones. */
  function Registry(entries: seq<InstanceConfig>): map<string, Instance> {
    if entries == [] then map[]
    else
      var m := Registry(entries[..|entries| - 1]);
      var c := entries[|entries| - 1];
      if Active(c) then m[c.key := Register(c)][c.name := Register(c)] else m
  }

  /** Exactly the keys and names of active entries are registered, and each
      under one of them. */
  lemma {:induction false} RegistryDomain(entries: seq<InstanceConfig>)
    ensures forall k :: k in Registry(entries) <==>
      exists i :: 0 <= i < |entries| && Active(entries[i]) && (entries[i].key == k || entries[i].name == k)
    ensures forall k :: k in Registry(entries) ==>
      exists i :: 0 <= i < |entries| && Active(entries[i]) && (entries[i].key == k || entries[i].name == k) &&
                  Registry(entries)[k] == Register(entries[i])
  {
    if entries != [] {
      var n := |entries| - 1;
      var init, c := entries[..n], entries[n];
      RegistryDomain(init);
      forall k | k in Registry(entries)
        ensures exists i :: 0 <= i < |entries| && Active(entries[i]) && (entries[i].key == k || entries[i].name == k) &&
                            Registry(entries)[k] == Register(entries[i])
      {
        if Active(c) && (k == c.key || k == c.name) {
          assert Registry(entries)[k] == Register(entries[n]);
        } else {
          assert k in Registry(init) && Registry(entries)[k] == Registry(init)[k];
          var i :| 0 <= i < |init| && Active(init[i]) && (init[i].key == k || init[i].name == k) &&
                   Registry(init)[k] == Register(init[i]);
          assert entries[i] == init[i];
        }
      }
      forall k | exists i :: 0 <= i < |entries| && Active(entries[i]) && (entries[i].key == k || entries[i].name == k)
        ensures k in Registry(entries)
      {
        var i :| 0 <= i < |entries| && Active(entries[i]) && (entries[i].key == k || entries[i].name == k);
        if i < n {
          assert init[i] == entries[i];
        }
      }
    }
  }

  /** An active entry that no later active entry shadows is found under both
      its key and its name. */
  lemma {:induction false} RegistryFinds(entries: seq<InstanceConfig>, i: nat)
    requires i < |entries| && Active(entries[i])
    requires forall j :: i < j < |entries| && Active(entries[j]) ==>
      entries[j].key != entries[i].key && entries[j].name != entries[i].key &&
      entries[j].key != entries[i].name && entries[j].name != entries[i].name
    ensures entries[i].key in Registry(entries) && entries[i].name in Registry(entries)
    ensures Registry(entries)[entries[i].name] == Register(entries[i])
    ensures entries[i].name == entries[i].key || Registry(entries)[entries[i].key] == Register(entries[i])
  {
    if i < |entries| - 1 {
      var init := entries[..|entries| - 1];
      assert forall j :: 0 <= j < |init| ==> init[j] == entries[j];
      RegistryFinds(init, i);
    }
  }

  /** The state changes `update_export` sends for a tracker. */
  datatype Update = Update(exportId: Option<string>, tmpfile: Option<string>, log: Option<string>, state: string)

  /** A shell command `run_cmd` launches. */
  datatype Shell =
    | Curl(key: string, outfile: string, url: string)
    | Scp(keyFile: string, source: string, target: string)
    | Rm(path: string)

  /** The command line of a shell command. */
  function CommandLine(c: Shell): string {
    match c
    case Curl(key, outfile, url) => "curl -H 'Authorization: bearer " + key + "' -Lo " + outfile + " " + url
    case Scp(keyFile, source, target) =>
      "scp -o StrictHostKeyChecking=no -o BatchMode=yes -i " + keyFile + " " + source + " \"" + target + "\""
    case Rm(path) => "rm " + path
  }

  /** What the runner does to the outside world. */
  datatype Effect =
    | UpdateExport(trackerId: int, update: Update)
    | Published(trackerId: int, state: string)
    | Command(cmd: Shell)
    | Acked

  function SetState(id: int, state: string): Effect {
    UpdateExport(id, Update(None, None, None, state))
  }

  /** `submit_mq_job`: one queue message, or none without a queue. */
  function Publish(queue: bool, id: int, state: string): seq<Effect> {
    if queue then [Published(id, state)] else []
  }

  /** A tracker as the master API returns it (`create_time` in its string form). */
  datatype Tracker = Tracker(id: int, state: string, instance: string, historyId: string, exportId: string,
                             destination: string, createTime: string, nelsId: int, tmpfile: string)

  datatype ExportRecord = ExportRecord(name: string, state: string)

  datatype Credentials = Credentials(keyFile: string, username: string, hostname: string)

  /** What the remote calls answer while one message is handled. */
  datatype World = World(
    info: Reply<real>,                // `free_gb` the instance reports
    galaxy: Option<string>,           // why `GalaxyInstance(...)` failed, if it did
    exported: Reply<string>,          // `export_history(...)`; "" for None or an empty id
    exportOfHistory: Option<string>,  // `export_id` of the export found by history id, None for no answer
    record: Option<ExportRecord>,     // the export found by export id, None for no answer
    tempName: string,                 // the directory name `mkdtemp` picks
    fetchLaunches: bool,              // the curl command could be launched
    credentials: Reply<Credentials>,  // `get_ssh_credential(...)`
    scpLaunches: bool,                // the scp command could be launched
    rmLaunches: bool)                 // the rm command could be launched

  /** Effects of a handler, and whether an exception escaped it. */
  datatype Step = Step(effects: seq<Effect>, raised: bool)

  /** The free space, in GB, below which no export is triggered. */
  const MinFreeGb: real := 30.0

  /** The same branch as intended: the tracker is marked `bioblend-error`
      with the error as its log, and the handler returns. */
  function BioblendError(id: int, message: string): (r: Step)
    ensures !r.raised && r.effects == [UpdateExport(id, Update(None, None, Some(message), "bioblend-error"))]
  {
    Step([UpdateExport(id, Update(None, None, Some(message), "bioblend-error"))], false)
  }

  /** The handler reaches the `except` branch of `GalaxyInstance(...)`:
      enough space (or no answer about it), and either an unknown instance
      (whose KeyError is raised again there) or a failed connection. */
  predicate BioblendBranch(instances: map<string, Instance>, t: Tracker, w: World) {
    !(t.instance in instances && w.info.Returned? && w.info.value < MinFreeGb) &&
    (t.instance !in instances || w.galaxy.Some?)
  }

  /** The text of the exception caught there: `str` of the KeyError, or
      the connection failure. */
  function BioblendMessage(instances: map<string, Instance>, t: Tracker, w: World): string {
    if t.instance !in instances then "'" + t.instance + "'"
    else if w.galaxy.Some? then w.galaxy.value
    else ""
  }

  /** `run_history_export`, with the bioblend branch as intended (see
      `TriggerAsWritten`). An unknown instance makes both lookups raise a
      KeyError: the first is swallowed, the second reaches the bioblend
      branch. The poll loop ends after one round: when no export id came
      back, `time.sleep(sleep_time)` raises a NameError. */
  function Trigger(instances: map<string, Instance>, queue: bool, t: Tracker, w: World): (r: Step)
    ensures Acked !in r.effects
  {
    var known := t.instance in instances;
    if known && w.info.Returned? && w.info.value < MinFreeGb then Step([SetState(t.id, "disk-space-error")], false)
    else if !known then BioblendError(t.id, "'" + t.instance + "'")
    else if w.galaxy.Some? then BioblendError(t.id, w.galaxy.value)
    else match w.exported
      case Raised => Step([], false)
      case Returned(exportId) =>
        if exportId == "" then
          Step(if w.exportOfHistory.Some? then [UpdateExport(t.id, Update(w.exportOfHistory, None, None, "new"))] else [], true)
        else if w.record.None? then Step([], true)
        else
          var state := w.record.value.state;
          Step([UpdateExport(t.id, Update(Some(exportId), None, None, state))] +
               (if state == "ok" || state == "error" then Publish(queue, t.id, state) else []), false)
  }

  /** Some write sets the tracker's state to `state`. */
  predicate Wrote(effects: seq<Effect>, state: string) {
    exists e :: e in effects && e.UpdateExport? && e.update.state == state
  }

  /** Too little free space stops the handler with `disk-space-error`; a
      failing info call does not stop it, nor does enough space. */
  lemma DiskSpaceGuard(instances: map<string, Instance>, queue: bool, t: Tracker, w: World)
    ensures var r := Trigger(instances, queue, t, w);
      t.instance in instances && w.info.Returned? && w.info.value < MinFreeGb <==>
        r == Step([SetState(t.id, "disk-space-error")], false)
  {
    var r := Trigger(instances, queue, t, w);
    if !(t.instance in instances && w.info.Returned? && w.info.value < MinFreeGb) {
      assert r.effects == [] || r.effects[0] != SetState(t.id, "disk-space-error");
    }
  }

  /** A failed trigger writes nothing. A returned export id is written with
      the export's state, and the next step is queued exactly when that state
      is `ok` or `error` and a queue is configured. */
  lemma TriggerSpec(instances: map<string, Instance>, queue: bool, t: Tracker, w: World)
    requires t.instance in instances && !(w.info.Returned? && w.info.value < MinFreeGb) && w.galaxy.None?
    ensures var r := Trigger(instances, queue, t, w);
      (w.exported.Raised? ==> r == Step([], false)) &&
      (w.exported.Returned? && w.exported.value != "" && w.record.Some? ==>
         r.effects[0] == UpdateExport(t.id, Update(Some(w.exported.value), None, None, w.record.value.state)) &&
         ((exists s :: Published(t.id, s) in r.effects) <==>
            queue && w.record.value.state in ["ok", "error"])) &&
      forall e :: e in r.effects && e.Published? ==> e.state == "ok" || e.state == "error"
  {
  }

  /** `run_history_export` as written: in the bioblend branch,
      `e['err_msg']` subscripts an exception object, which raises a
      TypeError before `update_export` is called; elsewhere it is `Trigger`. */
  function TriggerAsWritten(instances: map<string, Instance>, queue: bool, t: Tracker, w: World): (r: Step)
    ensures BioblendBranch(instances, t, w) ==> r.raised && r.effects == []
    ensures !BioblendBranch(instances, t, w) ==> r == Trigger(instances, queue, t, w)
  {
    if BioblendBranch(instances, t, w) then Step([], true) else Trigger(instances, queue, t, w)
  }

  /** `do_work` as written: it differs from `Work` only where a
      `pre-queueing` message runs `run_history_export`. */
  function WorkAsWritten(instances: map<string, Instance>, tmpDir: string, queue: bool,
                         body: Option<Payload>, stored: Option<Tracker>, w: World): seq<Effect> {
    if body.Some? && body.value.trackerId.Some? && body.value.state.Some? && stored.Some? &&
       body.value.state.value == "pre-queueing"
    then TriggerAsWritten(instances, queue, stored.value.(state := "pre-queueing"), w).effects + [Acked]
    else Work(instances, tmpDir, queue, body, stored, w)
  }

  /** Both ways into the bioblend branch, an unknown instance and a failed
      connection: as written the tracker is never touched, the TypeError is
      swallowed by `do_work` and the message is only acked, so the tracker
      stays in `pre-queueing`; as intended it is marked `bioblend-error`
      with the error as its log. */
  lemma BioblendFailureRecorded(instances: map<string, Instance>, tmpDir: string, queue: bool,
                                p: Payload, stored: Tracker, w: World)
    requires p.trackerId.Some? && p.state == Some("pre-queueing")
    requires BioblendBranch(instances, stored.(state := "pre-queueing"), w)
    ensures var t := stored.(state := "pre-queueing");
      TriggerAsWritten(instances, queue, t, w) == Step([], true) &&
      Trigger(instances, queue, t, w) ==
        Step([UpdateExport(t.id, Update(None, None, Some(BioblendMessage(instances, t, w)), "bioblend-error"))], false)
    ensures WorkAsWritten(instances, tmpDir, queue, Some(p), Some(stored), w) == [Acked]
    ensures !Wrote(WorkAsWritten(instances, tmpDir, queue, Some(p), Some(stored), w), "bioblend-error")
    ensures Work(instances, tmpDir, queue, Some(p), Some(stored), w) ==
      [UpdateExport(stored.id, Update(None, None, Some(BioblendMessage(instances, stored, w)), "bioblend-error")), Acked]
    ensures Wrote(Work(instances, tmpDir, queue, Some(p), Some(stored), w), "bioblend-error")
  {
    var t := stored.(state := "pre-queueing");
    var e := UpdateExport(t.id, Update(None, None, Some(BioblendMessage(instances, t, w)), "bioblend-error"));
    assert Work(instances, tmpDir, queue, Some(p), Some(stored), w) == [e, Acked];
    assert e in [e, Acked];
  }

  /** `mkdtemp(dir=d)`: the new directory inside `d`. */
  function TempPath(dir: string, name: string): string {
    if dir != [] && dir[|dir| - 1] == '/' then dir + name else dir + "/" + name
  }

  /** The archive a fetch writes: `<new temp dir>/<export_id>.tgz`. */
  function Outfile(tmpDir: string, w: World, t: Tracker): string {
    TempPath(tmpDir, w.tempName) + "/" + t.exportId + ".tgz"
  }

  /** The download of an export archive from the NGA API, authenticated by
      the instance's NGA key. */
  function FetchCommand(inst: Instance, outfile: string, exportId: string): Shell {
    Curl(inst.ngaKey, outfile, inst.ngaUrl + "/history/download/" + exportId + "/")
  }


  /** `run_fetch_export`. The exit status of curl is not looked at. */
  function Fetch(instances: map<string, Instance>, tmpDir: string, queue: bool, t: Tracker, w: World): (r: seq<Effect>)
    ensures Acked !in r
  {
    var outfile := Outfile(tmpDir, w, t);
    var running := UpdateExport(t.id, Update(None, Some(outfile), None, "fetch-running"));
    var failed := UpdateExport(t.id, Update(None, Some(outfile), None, "fetch-error"));
    if t.instance !in instances then [running, failed]
    else
      var cmd := Command(FetchCommand(instances[t.instance], outfile, t.exportId));
      if !w.fetchLaunches then [running, cmd, failed]
      else [running, cmd, UpdateExport(t.id, Update(None, Some(outfile), None, "fetch-ok"))] +
           Publish(queue, t.id, "fetch-ok")
  }

  /** Every write of a fetch records the same archive path. The states are
      `fetch-running` then `fetch-ok`, with the next step queued, or
      `fetch-running` then `fetch-error`, with nothing queued. */
  lemma FetchSpec(instances: map<string, Instance>, tmpDir: string, queue: bool, t: Tracker, w: World)
    ensures var r := Fetch(instances, tmpDir, queue, t, w);
      var ok := t.instance in instances && w.fetchLaunches;
      (forall e :: e in r && e.UpdateExport? ==>
         e.trackerId == t.id && e.update.tmpfile == Some(Outfile(tmpDir, w, t))) &&
      r[0] == UpdateExport(t.id, Update(None, Some(Outfile(tmpDir, w, t)), None, "fetch-running")) &&
      (Wrote(r, "fetch-ok") <==> ok) && (Wrote(r, "fetch-error") <==> !ok) &&
      ((exists e :: e in r && e.Published?) <==> ok && queue) &&
      (ok && queue ==> r[|r| - 1] == Published(t.id, "fetch-ok"))
  {
    var r := Fetch(instances, tmpDir, queue, t, w);
    var outfile := Outfile(tmpDir, w, t);
    var running := UpdateExport(t.id, Update(None, Some(outfile), None, "fetch-running"));
    var failed := UpdateExport(t.id, Update(None, Some(outfile), None, "fetch-error"));
    var done := UpdateExport(t.id, Update(None, Some(outfile), None, "fetch-ok"));
    if t.instance !in instances {
      assert r == [running, failed];
      assert r[1] in r;
    } else {
      var cmd := Command(FetchCommand(instances[t.instance], outfile, t.exportId));
      if !w.fetchLaunches {
        assert r == [running, cmd, failed];
        assert r[2] in r;
        forall e | e in r ensures e == running || e == cmd || e == failed { }
      } else {
        assert r == [running, cmd, done] + Publish(queue, t.id, "fetch-ok");
        assert r[2] in r;
        forall e | e in r ensures e == running || e == cmd || e == done || e == Published(t.id, "fetch-ok") { }
        if queue {
          assert r[3] in r;
        }
      }
    }
  }

  /** Python's `str(create_time)` turned into a file name part: `-` and `:`
      dropped, the space made `_`, and every `.digits` fragment removed. */
  function Timestamp(createTime: string): string {
    StripFractions(ReplaceChar(ReplaceChar(ReplaceChar(createTime, '-', ""), ':', ""), ' ', "_"))
  }

  /** `dest_file`: `<destination>/<name with _ for spaces>-<timestamp>.tgz`. */
  function DestFile(destination: string, name: string, createTime: string): string {
    destination + "/" + ReplaceChar(name, ' ', "_") + "-" + Timestamp(createTime) + ".tgz"
  }

  /** The name part has no space and the timestamp none of `-`, `:`, space or
      a `.digits` fragment, whatever the inputs. */
  lemma DestFileParts(name: string, createTime: string)
    ensures ' ' !in ReplaceChar(name, ' ', "_") && |ReplaceChar(name, ' ', "_")| == |name|
    ensures var ts := Timestamp(createTime);
      '-' !in ts && ':' !in ts && ' ' !in ts && NoFraction(ts)
  {
    ReplaceCharChars(name, ' ', "_");
    var s1 := ReplaceChar(createTime, '-', "");
    var s2 := ReplaceChar(s1, ':', "");
    var s3 := ReplaceChar(s2, ' ', "_");
    ReplaceCharChars(createTime, '-', "");
    ReplaceCharChars(s1, ':', "");
    ReplaceCharChars(s2, ' ', "_");
    StripFractionsChars(s3);
  }

  /** The string form of a datetime, `YYYY-MM-DD hh:mm:ss` with an optional
      `.ffffff`, becomes `YYYYMMDD_hhmmss`. */
  lemma TimestampOfDatetime(y: string, mo: string, d: string, h: string, mi: string, sec: string, frac: string)
    requires AllDigits(y) && AllDigits(mo) && AllDigits(d) && AllDigits(h) && AllDigits(mi) && AllDigits(sec)
    requires AllDigits(frac)
    ensures var date, time := y + "-" + mo + "-" + d, h + ":" + mi + ":" + sec;
      var f := if frac == [] then "" else "." + frac;
      Timestamp(date + " " + time + f) == (y + mo + d) + "_" + (h + mi + sec)
  {
    var f := if frac == [] then "" else "." + frac;
    DropSeparators(y, mo, d, '-');
    DropSeparators(h, mi, sec, ':');
    TimestampOfParts(y + "-" + mo + "-" + d, h + ":" + mi + ":" + sec, y + mo + d, h + mi + sec, f);
    if frac != [] {
      StripFractionsFraction(frac);
    }
  }

  /** Two separators between three runs of digits are dropped. */
  lemma DropSeparators(a: string, b: string, c: string, sep: char)
    requires AllDigits(a) && AllDigits(b) && AllDigits(c) && !IsDigit(sep)
    ensures ReplaceChar(a + [sep] + b + [sep] + c, sep, "") == a + b + c
    ensures AllDigits(a + b + c)
  {
    DigitsLack(a, sep); DigitsLack(b, sep); DigitsLack(c, sep);
    ReplaceCharTwice(a, b, c, sep, "");
    assert a + "" + b + "" + c == a + b + c;
  }

  /** `Timestamp` on a date, a space, a time and a tail: the date loses its
      dashes, the time its colons, the space becomes `_`, and the tail is
      stripped. */
  lemma TimestampOfParts(date: string, time: string, dd: string, tt: string, f: string)
    requires ReplaceChar(date, '-', "") == dd && ReplaceChar(time, ':', "") == tt
    requires AllDigits(dd) && AllDigits(tt) && (forall x :: x in time ==> x == ':' || IsDigit(x))
    requires forall x :: x in f ==> x == '.' || IsDigit(x)
    ensures Timestamp(date + " " + time + f) == dd + "_" + tt + StripFractions(f)
  {
    assert '-' !in " " && ':' !in " " && '-' !in time && '-' !in f && ':' !in f && ' ' !in f;
    assert ':' !in dd && ' ' !in dd && ' ' !in tt by { DigitsLack(dd, ':'); DigitsLack(dd, ' '); DigitsLack(tt, ' '); }
    var s1 := dd + " " + time + f;
    assert ReplaceChar(date + " " + time + f, '-', "") == s1 by {
      ReplacePieces(date, " ", time, f, '-', "");
    }
    var s2 := dd + " " + tt + f;
    assert ReplaceChar(s1, ':', "") == s2 by {
      ReplacePieces(dd, " ", time, f, ':', "");
    }
    assert ReplaceChar(s2, ' ', "_") == dd + "_" + tt + f by {
      ReplacePieces(dd, " ", tt, f, ' ', "_");
      ReplaceCharOnce([], [], ' ', "_");
      assert [] + [' '] + [] == " " && [] + "_" + [] == "_";
    }
    DigitsKept(dd, tt, f);
  }

  /** Stripping leaves the `_`-joined digits alone. */
  lemma DigitsKept(dd: string, tt: string, f: string)
    requires AllDigits(dd) && AllDigits(tt)
    ensures StripFractions(dd + "_" + tt + f) == dd + "_" + tt + StripFractions(f)
  {
    var kept := dd + "_" + tt;
    assert NoFraction(kept) && kept[|kept| - 1] != '.' by {
      DigitsLack(dd, '.'); DigitsLack(tt, '.');
      assert kept[|kept| - 1] in kept;
    }
    StripFractionsClean(kept, f);
  }

  /** A replacement applied to a string made of four pieces. */
  lemma ReplacePieces(a: string, b: string, x: string, f: string, c: char, r: string)
    ensures ReplaceChar(a + b + x + f, c, r) ==
            ReplaceChar(a, c, r) + ReplaceChar(b, c, r) + ReplaceChar(x, c, r) + ReplaceChar(f, c, r)
  {
    ReplaceCharConcat(a + b + x, f, c, r);
    ReplaceCharConcat(a + b, x, c, r);
    ReplaceCharConcat(a, b, c, r);
  }

  /** The copy of the archive to the NeLS host, with the key file and user
      NeLS handed out. */
  function ScpCommand(cred: Credentials, tmpfile: string, dest: string): Shell {
    Scp(cred.keyFile, tmpfile, cred.username + "@" + cred.hostname + ":" + dest)
  }

  /** `run_push_export`. A missing export record fails on its `name`; exit
      statuses of scp and rm are not looked at. */
  function Push(t: Tracker, w: World): (r: seq<Effect>)
    ensures Acked !in r
  {
    var running := SetState(t.id, "nels-transfer-running");
    var failed := SetState(t.id, "nels-transfer-error");
    if w.record.None? || w.credentials.Raised? then [running, failed]
    else
      var dest := DestFile(t.destination, w.record.value.name, t.createTime);
      var scp := Command(ScpCommand(w.credentials.value, t.tmpfile, dest));
      if !w.scpLaunches then [running, scp, failed]
      else
        var done := [running, scp, SetState(t.id, "nels-transfer-ok"), Command(Rm(t.tmpfile))];
        if w.rmLaunches then done else done + [failed]
  }

  /** A push first marks the transfer running and queues nothing. The archive
      is removed exactly when scp could be launched, right after the transfer
      is marked done. */
  lemma PushOrder(t: Tracker, w: World)
    ensures var r := Push(t, w);
      var copied := w.record.Some? && w.credentials.Returned? && w.scpLaunches;
      r[0] == SetState(t.id, "nels-transfer-running") &&
      (Command(Rm(t.tmpfile)) in r <==> copied) &&
      (copied ==> r[2] == SetState(t.id, "nels-transfer-ok") && r[3] == Command(Rm(t.tmpfile))) &&
      (forall e :: e in r ==> !e.Published?)
  {
    var r := Push(t, w);
    var running, failed := SetState(t.id, "nels-transfer-running"), SetState(t.id, "nels-transfer-error");
    var rm := Command(Rm(t.tmpfile));
    if w.record.None? || w.credentials.Raised? {
      assert r == [running, failed];
    } else {
      var scp := Command(ScpCommand(w.credentials.value, t.tmpfile, DestFile(t.destination, w.record.value.name, t.createTime)));
      var done := SetState(t.id, "nels-transfer-ok");
      if !w.scpLaunches {
        assert r == [running, scp, failed];
      } else if w.rmLaunches {
        assert r == [running, scp, done, rm];
      } else {
        assert r == [running, scp, done, rm, failed];
      }
    }
  }

  /** The transfer is marked done exactly when scp could be launched; any
      exception marks it failed, even after it was marked done. */
  lemma PushOutcome(t: Tracker, w: World)
    ensures var r := Push(t, w);
      var copied := w.record.Some? && w.credentials.Returned? && w.scpLaunches;
      (Wrote(r, "nels-transfer-ok") <==> copied) &&
      (Wrote(r, "nels-transfer-error") <==> !(copied && w.rmLaunches))
  {
    var r := Push(t, w);
    var running, failed := SetState(t.id, "nels-transfer-running"), SetState(t.id, "nels-transfer-error");
    var rm := Command(Rm(t.tmpfile));
    if w.record.None? || w.credentials.Raised? {
      assert r == [running, failed];
    } else {
      var scp := Command(ScpCommand(w.credentials.value, t.tmpfile, DestFile(t.destination, w.record.value.name, t.createTime)));
      var done := SetState(t.id, "nels-transfer-ok");
      if !w.scpLaunches {
        assert r == [running, scp, failed];
      } else if w.rmLaunches {
        assert r == [running, scp, done, rm];
      } else {
        assert r == [running, scp, done, rm, failed];
      }
    }
  }


  /** The scp command copies the archive to the destination file on the NeLS
      host. */
  lemma PushDestination(t: Tracker, w: World)
    requires w.record.Some? && w.credentials.Returned?
    ensures Command(ScpCommand(w.credentials.value, t.tmpfile, DestFile(t.destination, w.record.value.name, t.createTime)))
            in Push(t, w)
  {
  }

  /** A queue message. `None` fields are missing keys. */
  datatype Payload = Payload(trackerId: Option<int>, state: Option<string>)

  /** The `try` block of `do_work`: dispatch on the state. */
  function Dispatch(instances: map<string, Instance>, tmpDir: string, queue: bool, t: Tracker, w: World): seq<Effect> {
    if t.state == "pre-queueing" then Trigger(instances, queue, t, w).effects
    else if t.state == "ok" then Fetch(instances, tmpDir, queue, t, w)
    else if t.state == "fetch-ok" then Push(t, w)
    else []
  }

  /** `do_work` for one message: `body` is None when it is not JSON and
      `stored` is what the master API returns for its tracker. The state in
      the message wins over the stored one. A handler's exception is only
      logged. */
  function Work(instances: map<string, Instance>, tmpDir: string, queue: bool,
                body: Option<Payload>, stored: Option<Tracker>, w: World): seq<Effect> {
    match body
    case None => [Acked]
    case Some(p) =>
      if p.trackerId.None? || p.state.None? || stored.None? then []
      else Dispatch(instances, tmpDir, queue, stored.value.(state := p.state.value), w) + [Acked]
  }

  /** An unparseable body is only acked. A message without `tracker_id` or
      `state` (or whose tracker cannot be read) raises before the ack. Every
      other message is acked exactly once, last, whatever its handler did. */
  lemma AckPolicy(instances: map<string, Instance>, tmpDir: string, queue: bool,
                  body: Option<Payload>, stored: Option<Tracker>, w: World)
    ensures body.None? ==> Work(instances, tmpDir, queue, body, stored, w) == [Acked]
    ensures body.Some? ==>
              (Acked in Work(instances, tmpDir, queue, body, stored, w) <==>
                 body.value.trackerId.Some? && body.value.state.Some? && stored.Some?)
    ensures body.Some? && body.value.trackerId.Some? && body.value.state.Some? && stored.Some? ==>
      var r := Work(instances, tmpDir, queue, body, stored, w);
      r != [] && r[|r| - 1] == Acked && forall i :: 0 <= i < |r| - 1 ==> r[i] != Acked
  {
  }

  /** The handler is chosen by the state in the message: `pre-queueing`
      triggers, `ok` fetches, `fetch-ok` pushes, anything else does nothing
      but the ack. */
  lemma DispatchByState(instances: map<string, Instance>, tmpDir: string, queue: bool,
                        p: Payload, stored: Tracker, w: World)
    requires p.trackerId.Some? && p.state.Some?
    ensures var t := stored.(state := p.state.value);
      var r := Work(instances, tmpDir, queue, Some(p), Some(stored), w);
      (p.state.value == "pre-queueing" ==> r == Trigger(instances, queue, t, w).effects + [Acked]) &&
      (p.state.value == "ok" ==> r == Fetch(instances, tmpDir, queue, t, w) + [Acked]) &&
      (p.state.value == "fetch-ok" ==> r == Push(t, w) + [Acked]) &&
      (p.state.value !in ["pre-queueing", "ok", "fetch-ok"] ==> r == [Acked])
  {
  }

  /** The module-level state of the worker. */
  class Runner {
    var masterUrl: string
    var nelsStorageUrl: string
    var tmpDir: string
    var instances: map<string, Instance>
    var queueConfigured: bool
    var log: seq<Effect>

    /** The module's globals before `init`: no queue, `/tmp/` as temp dir. */
    constructor()
      ensures masterUrl == "" && nelsStorageUrl == "" && tmpDir == "/tmp/" && instances == map[]
      ensures !queueConfigured && log == []
    {
      masterUrl, nelsStorageUrl, tmpDir := "", "", "/tmp/";
      instances, queueConfigured, log := map[], false, [];
    }

    /** `init`: URLs without trailing slashes, the temp dir if configured,
        and the registry of active instances. */
    method Init(config: Config)
      modifies this
      ensures masterUrl == RStrip(config.masterUrl, '/') && nelsStorageUrl == RStrip(config.nelsStorageUrl, '/')
      ensures tmpDir == (if config.tmpDir.Some? then config.tmpDir.value else old(tmpDir))
      ensures instances == Registry(config.instances)
      ensures queueConfigured == old(queueConfigured) && log == old(log)
    {
      masterUrl := RStrip(config.masterUrl, '/');
      nelsStorageUrl := RStrip(config.nelsStorageUrl, '/');
      if config.tmpDir.Some? {
        tmpDir := config.tmpDir.value;
      }
      var registry := map[];
      var entries := config.instances;
      for i := 0 to |entries|
        invariant registry == Registry(entries[..i])
      {
        assert entries[..i + 1][..i] == entries[..i];
        var c := entries[i];
        if Active(c) {
          var inst := Register(c);
          registry := registry[c.key := inst];
          registry := registry[c.name := inst];
        }
      }
      assert entries[..|entries|] == entries;
      instances := registry;
    }

    /** `main` connecting the queue before consuming. */
    method ConnectQueue()
      modifies this`queueConfigured
      ensures queueConfigured
    {
      queueConfigured := true;
    }

    /** `submit_mq_job`. */
    method SubmitJob(id: int, state: string)
      modifies this`log
      ensures log == old(log) + Publish(queueConfigured, id, state)
    {
      if !queueConfigured {
        return;
      }
      log := log + [Published(id, state)];
    }

    method SetTracker(id: int, update: Update)
      modifies this`log
      ensures log == old(log) + [UpdateExport(id, update)]
    {
      log := log + [UpdateExport(id, update)];
    }

    /** `run_history_export` with the bioblend branch as intended (`Trigger`,
        not `TriggerAsWritten`); `raised` tells whether an exception escapes. */
    method RunHistoryExport(t: Tracker, w: World) returns (raised: bool)
      modifies this`log
      ensures log == old(log) + Trigger(instances, queueConfigured, t, w).effects
      ensures raised == Trigger(instances, queueConfigured, t, w).raised
    {
      var known := t.instance in instances;
      if known && w.info.Returned? && w.info.value < MinFreeGb {
        SetTracker(t.id, Update(None, None, None, "disk-space-error"));
        return false;
      }
      if !known || w.galaxy.Some? {
        var message := if !known then "'" + t.instance + "'" else w.galaxy.value;
        SetTracker(t.id, Update(None, None, Some(message), "bioblend-error"));
        return false;
      }
      if w.exported.Raised? {
        return false;
      }
      var exportId := w.exported.value;
      if exportId == "" {
        if w.exportOfHistory.Some? {
          SetTracker(t.id, Update(w.exportOfHistory, None, None, "new"));
        }
        return true;
      }
      if w.record.None? {
        return true;
      }
      var state := w.record.value.state;
      SetTracker(t.id, Update(Some(exportId), None, None, state));
      if state == "ok" || state == "error" {
        SubmitJob(t.id, state);
      }
      return false;
    }

    /** `run_fetch_export`. */
    method RunFetchExport(t: Tracker, w: World)
      modifies this`log
      ensures log == old(log) + Fetch(instances, tmpDir, queueConfigured, t, w)
    {
      var outfile := TempPath(tmpDir, w.tempName) + "/" + t.exportId + ".tgz";
      SetTracker(t.id, Update(None, Some(outfile), None, "fetch-running"));
      if t.instance !in instances {
        SetTracker(t.id, Update(None, Some(outfile), None, "fetch-error"));
        return;
      }
      log := log + [Command(FetchCommand(instances[t.instance], outfile, t.exportId))];
      if !w.fetchLaunches {
        SetTracker(t.id, Update(None, Some(outfile), None, "fetch-error"));
        return;
      }
      SetTracker(t.id, Update(None, Some(outfile), None, "fetch-ok"));
      SubmitJob(t.id, "fetch-ok");
    }

    /** `run_push_export`. */
    method RunPushExport(t: Tracker, w: World)
      modifies this`log
      ensures log == old(log) + Push(t, w)
    {
      var running := SetState(t.id, "nels-transfer-running");
      var failed := SetState(t.id, "nels-transfer-error");
      log := log + [running];
      if w.record.None? || w.credentials.Raised? {
        log := log + [failed];
        return;
      }
      var dest := DestFile(t.destination, w.record.value.name, t.createTime);
      log := log + [Command(ScpCommand(w.credentials.value, t.tmpfile, dest))];
      if !w.scpLaunches {
        log := log + [failed];
        return;
      }
      log := log + [SetState(t.id, "nels-transfer-ok")];
      log := log + [Command(Rm(t.tmpfile))];
      if !w.rmLaunches {
        log := log + [failed];
      }
    }

    /** `do_work` for one message, up to the ack, with the bioblend branch
        as intended (`Work`, not `WorkAsWritten`). */
    method DoWork(body: Option<Payload>, stored: Option<Tracker>, w: World)
      modifies this`log
      ensures log == old(log) + Work(instances, tmpDir, queueConfigured, body, stored, w)
    {
      if body.None? {
        log := log + [Acked];
        return;
      }
      var p := body.value;
      if p.trackerId.None? || p.state.None? || stored.None? {
        return;
      }
      var t := stored.value;
      if p.state.value != t.state {
        t := t.(state := p.state.value);
      }
      assert t == stored.value.(state := p.state.value);
      if t.state == "pre-queueing" {
        var _ := RunHistoryExport(t, w);
      } else if t.state == "ok" {
        RunFetchExport(t, w);
      } else if t.state == "fetch-ok" {
        RunPushExport(t, w);
      }
      log := log + [Acked];
    }
  }
}
