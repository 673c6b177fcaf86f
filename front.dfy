/** nels_galaxy_api/front.py: the aggregation front end. It walks the
    registry of Galaxy instances, asks each one's API client for users,
    histories and exports, and returns either the rows or a per-instance
    (or per-user) summary. The API clients are modelled by the data they
    answer with. */
module Front {
  import opened Wrappers
  import opened Text
  import opened Seqs
  import Json
  import Utils

  /** A row of an instance's `/users` answer. */
  datatype User = User(id: int, email: string, active: Json.Value, deleted: Json.Value)
  datatype UserRow = UserRow(id: int, email: string, active: bool, deleted: bool, instance: string)

  /** A row of `/user/<email>/histories`. */
  datatype History = History(id: string, updateTime: Option<string>, name: string, hidCounter: int)
  datatype HistoryRow = HistoryRow(id: string, name: string, instance: string, changed: Option<string>, user: string)

  /** A row of `/user/<email>/exports`. */
  datatype Export = Export(exportId: string, datasetId: string, historyId: string, name: string,
                           createTime: Option<string>, state: string, jobId: string)
  /** The id columns are `None` where the front end deleted them. */
  datatype ExportRow = ExportRow(exportId: Option<string>, jobId: Option<string>, historyId: Option<string>,
                                 datasetId: string, name: string, state: string,
                                 instance: string, user: string, created: Option<string>)

  /** A row of the master's history imports of a user. */
  datatype Import = Import(importId: string, jobId: string, historyId: string, createTime: Option<string>)
  datatype ImportRow = ImportRow(importId: Option<string>, jobId: Option<string>, historyId: Option<string>,
                                 user: string, created: Option<string>)

  /** An instance as its API client answers for it. */
  datatype Instance = Instance(
    name: string,
    users: seq<User>,
    histories: string -> seq<History>,
    exports: string -> seq<Export>,
    imports: string -> seq<Import>)

  /** An entry of `config['instances']`: the key and the instance. */
  datatype Entry = Entry(id: string, inst: Instance)

  /** A summary entry: instance name and user where the listing has them,
      and the number of rows counted. */
  datatype Brief = Brief(name: Option<string>, user: Option<string>, count: nat)

  /** What a listing returns: the summary or the rows. */
  datatype Listing<T> = Summary(brief: seq<Brief>) | Rows(rows: seq<T>)

  /** An instance is visited when its key is its own name and, when a
      non-empty instance name is asked for, its key is that name. */
  predicate Visits(instanceName: Option<string>, e: Entry) {
    (instanceName.None? || instanceName.value == "" || e.id == instanceName.value) && e.inst.name == e.id
  }

  /** The `user_email` filter: no filter, or the same email. */
  predicate Wanted(email: Option<string>, u: User) {
    email.None? || u.email == email.value
  }

  function UserKey(u: User): string {
    Lower(u.email)
  }

  function Sum(bs: seq<Brief>): nat
    decreases |bs|
  {
    if bs == [] then 0 else Sum(bs[..|bs| - 1]) + bs[|bs| - 1].count
  }

  lemma {:induction false} SumConcat(a: seq<Brief>, b: seq<Brief>)
    ensures Sum(a + b) == Sum(a) + Sum(b)
    decreases |b|
  {
    if b == [] {
      assert a + b == a;
    } else {
      assert (a + b)[..|a + b| - 1] == a + b[..|b| - 1];
      SumConcat(a, b[..|b| - 1]);
    }
  }

  // -----------------------------------------------------------------------
  // Walking the registry and the users of an instance

  /** The rows of every visited instance, in registry order. */
  function PerInstance<R>(reg: seq<Entry>, instanceName: Option<string>, rowsOf: Instance -> seq<R>): seq<R>
    decreases |reg|
  {
    if reg == [] then []
    else
      PerInstance(reg[..|reg| - 1], instanceName, rowsOf) +
      (if Visits(instanceName, reg[|reg| - 1]) then rowsOf(reg[|reg| - 1].inst) else [])
  }

  function PerInstanceBrief(reg: seq<Entry>, instanceName: Option<string>, briefOf: Instance -> seq<Brief>): seq<Brief>
    decreases |reg|
  {
    if reg == [] then []
    else
      PerInstanceBrief(reg[..|reg| - 1], instanceName, briefOf) +
      (if Visits(instanceName, reg[|reg| - 1]) then briefOf(reg[|reg| - 1].inst) else [])
  }

  /** The rows of every wanted user, in the given user order. */
  function PerUser<R>(us: seq<User>, email: Option<string>, rowsOf: User -> seq<R>): seq<R>
    decreases |us|
  {
    if us == [] then []
    else
      PerUser(us[..|us| - 1], email, rowsOf) +
      (if Wanted(email, us[|us| - 1]) then rowsOf(us[|us| - 1]) else [])
  }

  /** One summary entry per wanted user, leaving out users without rows
      when `skipEmpty` holds. */
  function PerUserBrief<R>(us: seq<User>, email: Option<string>, rowsOf: User -> seq<R>,
                           skipEmpty: bool, name: Option<string>): seq<Brief>
    decreases |us|
  {
    if us == [] then []
    else
      var u := us[|us| - 1];
      PerUserBrief(us[..|us| - 1], email, rowsOf, skipEmpty, name) +
      (if Wanted(email, u) && !(skipEmpty && |rowsOf(u)| == 0) then [Brief(name, Some(u.email), |rowsOf(u)|)] else [])
  }

  /** One more entry of the registry, as the loops take it. */
  lemma PerInstanceStep<R>(reg: seq<Entry>, k: nat, instanceName: Option<string>,
                           rowsOf: Instance -> seq<R>, briefOf: Instance -> seq<Brief>)
    requires k < |reg|
    ensures PerInstance(reg[..k + 1], instanceName, rowsOf) ==
      PerInstance(reg[..k], instanceName, rowsOf) + (if Visits(instanceName, reg[k]) then rowsOf(reg[k].inst) else [])
    ensures PerInstanceBrief(reg[..k + 1], instanceName, briefOf) ==
      PerInstanceBrief(reg[..k], instanceName, briefOf) + (if Visits(instanceName, reg[k]) then briefOf(reg[k].inst) else [])
  {
    assert reg[..k + 1][..k] == reg[..k];
  }

  /** One more user, as the loops take it. */
  lemma PerUserStep<R>(us: seq<User>, j: nat, email: Option<string>, rowsOf: User -> seq<R>,
                       skipEmpty: bool, name: Option<string>)
    requires j < |us|
    ensures PerUser(us[..j + 1], email, rowsOf) ==
      PerUser(us[..j], email, rowsOf) + (if Wanted(email, us[j]) then rowsOf(us[j]) else [])
    ensures PerUserBrief(us[..j + 1], email, rowsOf, skipEmpty, name) ==
      PerUserBrief(us[..j], email, rowsOf, skipEmpty, name) +
      (if Wanted(email, us[j]) && !(skipEmpty && |rowsOf(us[j])| == 0) then [Brief(name, Some(us[j].email), |rowsOf(us[j])|)] else [])
  {
    assert us[..j + 1][..j] == us[..j];
  }

  /** The per-user summary counts add up to the number of rows, and with
      `skipEmpty` no entry counts zero. */
  lemma {:induction false} PerUserCounts<R>(us: seq<User>, email: Option<string>, rowsOf: User -> seq<R>,
                                             skipEmpty: bool, name: Option<string>)
    ensures Sum(PerUserBrief(us, email, rowsOf, skipEmpty, name)) == |PerUser(us, email, rowsOf)|
    ensures skipEmpty ==> forall i :: 0 <= i < |PerUserBrief(us, email, rowsOf, skipEmpty, name)| ==>
      PerUserBrief(us, email, rowsOf, skipEmpty, name)[i].count > 0
    decreases |us|
  {
    if us != [] {
      var u := us[|us| - 1];
      var pre := us[..|us| - 1];
      PerUserCounts(pre, email, rowsOf, skipEmpty, name);
      var b := if Wanted(email, u) && !(skipEmpty && |rowsOf(u)| == 0) then [Brief(name, Some(u.email), |rowsOf(u)|)] else [];
      SumConcat(PerUserBrief(pre, email, rowsOf, skipEmpty, name), b);
      assert Sum(b) == |if Wanted(email, u) then rowsOf(u) else []| by {
        if b != [] {
          assert b[..0] == [];
        }
      }
    }
  }

  /** Every row comes from a wanted user. */
  lemma {:induction false} PerUserFrom<R>(us: seq<User>, email: Option<string>, rowsOf: User -> seq<R>, i: nat)
    requires i < |PerUser(us, email, rowsOf)|
    ensures exists k :: 0 <= k < |us| && Wanted(email, us[k]) && PerUser(us, email, rowsOf)[i] in rowsOf(us[k])
    decreases |us|
  {
    var pre := us[..|us| - 1];
    var rest := PerUser(pre, email, rowsOf);
    if i < |rest| {
      PerUserFrom(pre, email, rowsOf, i);
      var k :| 0 <= k < |pre| && Wanted(email, pre[k]) && rest[i] in rowsOf(pre[k]);
      assert us[k] == pre[k];
    } else {
      assert PerUser(us, email, rowsOf)[i] == rowsOf(us[|us| - 1])[i - |rest|];
    }
  }

  /** The per-instance summary counts add up to the number of rows when
      they do so for each instance. */
  lemma {:induction false} PerInstanceCounts<R>(reg: seq<Entry>, instanceName: Option<string>,
                                                rowsOf: Instance -> seq<R>, briefOf: Instance -> seq<Brief>)
    requires forall k :: 0 <= k < |reg| ==> Sum(briefOf(reg[k].inst)) == |rowsOf(reg[k].inst)|
    ensures Sum(PerInstanceBrief(reg, instanceName, briefOf)) == |PerInstance(reg, instanceName, rowsOf)|
    decreases |reg|
  {
    if reg != [] {
      var pre := reg[..|reg| - 1];
      var e := reg[|reg| - 1];
      PerInstanceCounts(pre, instanceName, rowsOf, briefOf);
      SumConcat(PerInstanceBrief(pre, instanceName, briefOf), if Visits(instanceName, e) then briefOf(e.inst) else []);
    }
  }

  /** Every row comes from a visited instance. */
  lemma {:induction false} PerInstanceFrom<R>(reg: seq<Entry>, instanceName: Option<string>, rowsOf: Instance -> seq<R>, i: nat)
    requires i < |PerInstance(reg, instanceName, rowsOf)|
    ensures exists k :: 0 <= k < |reg| && Visits(instanceName, reg[k]) && PerInstance(reg, instanceName, rowsOf)[i] in rowsOf(reg[k].inst)
    decreases |reg|
  {
    var pre := reg[..|reg| - 1];
    var rest := PerInstance(pre, instanceName, rowsOf);
    if i < |rest| {
      PerInstanceFrom(pre, instanceName, rowsOf, i);
      var k :| 0 <= k < |pre| && Visits(instanceName, pre[k]) && rest[i] in rowsOf(pre[k].inst);
      assert reg[k] == pre[k];
    } else {
      assert PerInstance(reg, instanceName, rowsOf)[i] == rowsOf(reg[|reg| - 1].inst)[i - |rest|];
    }
  }

  // -----------------------------------------------------------------------
  // get_users

  function UserRowOf(u: User, instance: string): UserRow {
    UserRow(u.id, u.email, Json.Truthy(u.active), Json.Truthy(u.deleted), instance)
  }

  function RowEmailKey(r: UserRow): string {
    Lower(r.email)
  }

  function TagUsers(us: seq<User>, instance: string): (r: seq<UserRow>)
    ensures |r| == |us|
    ensures forall i :: 0 <= i < |r| ==> r[i] == UserRowOf(us[i], instance)
  {
    seq(|us|, i requires 0 <= i < |us| => UserRowOf(us[i], instance))
  }

  /** One instance's users: tagged with the instance, `active`/`deleted`
      made boolean, sorted by lower-cased email. */
  function InstanceUsers(): Instance -> seq<UserRow> {
    (inst: Instance) => SortBy(TagUsers(inst.users, inst.name), RowEmailKey)
  }

  function InstanceUserCount(): Instance -> seq<Brief> {
    (inst: Instance) => [Brief(Some(inst.name), None, |inst.users|)]
  }

  /** The inner loop of `get_users`: each user tagged with the instance,
      `active` and `deleted` made boolean. */
  method TagUserRows(us: seq<User>, instance: string) returns (rows: seq<UserRow>)
    ensures rows == TagUsers(us, instance)
  {
    rows := [];
    for j := 0 to |us|
      invariant rows == TagUsers(us[..j], instance)
    {
      rows := rows + [UserRowOf(us[j], instance)];
    }
    assert us[..|us|] == us;
  }

  /** `get_users`. */
  method GetUsers(reg: seq<Entry>, instanceName: Option<string>, summary: bool) returns (r: Listing<UserRow>)
    ensures r == if summary then Summary(PerInstanceBrief(reg, instanceName, InstanceUserCount()))
                 else Rows(PerInstance(reg, instanceName, InstanceUsers()))
  {
    var users: seq<UserRow> := [];
    var brief: seq<Brief> := [];
    for k := 0 to |reg|
      invariant users == PerInstance(reg[..k], instanceName, InstanceUsers())
      invariant brief == PerInstanceBrief(reg[..k], instanceName, InstanceUserCount())
    {
      PerInstanceStep(reg, k, instanceName, InstanceUsers(), InstanceUserCount());
      if Visits(instanceName, reg[k]) {
        var instance := reg[k].inst;
        var tmpUsers := instance.users;
        brief := brief + [Brief(Some(instance.name), None, |tmpUsers|)];
        var instanceUsers := TagUserRows(tmpUsers, instance.name);
        users := users + SortBy(instanceUsers, RowEmailKey);
      }
    }
    assert reg[..|reg|] == reg;
    r := if summary then Summary(brief) else Rows(users);
  }

  /** Each instance's users come sorted by lower-cased email and are
      exactly its users, tagged; the summary counts them. */
  lemma GetUsersSpec(reg: seq<Entry>, instanceName: Option<string>, inst: Instance)
    ensures SortedBy(InstanceUsers()(inst), RowEmailKey)
    ensures multiset(InstanceUsers()(inst)) == multiset(TagUsers(inst.users, inst.name))
    ensures forall i :: 0 <= i < |InstanceUsers()(inst)| ==> InstanceUsers()(inst)[i].instance == inst.name
    ensures Sum(PerInstanceBrief(reg, instanceName, InstanceUserCount())) == |PerInstance(reg, instanceName, InstanceUsers())|
  {
    var r := InstanceUsers()(inst);
    forall i | 0 <= i < |r| ensures r[i].instance == inst.name {
      assert r[i] in multiset(TagUsers(inst.users, inst.name));
    }
    forall k | 0 <= k < |reg| ensures Sum(InstanceUserCount()(reg[k].inst)) == |InstanceUsers()(reg[k].inst)| {
      assert [Brief(Some(reg[k].inst.name), None, |reg[k].inst.users|)][..0] == [];
    }
    PerInstanceCounts(reg, instanceName, InstanceUsers(), InstanceUserCount());
  }

  /** Only visited instances contribute users. */
  lemma GetUsersVisited(reg: seq<Entry>, instanceName: Option<string>, i: nat)
    requires i < |PerInstance(reg, instanceName, InstanceUsers())|
    ensures exists k :: (0 <= k < |reg| && Visits(instanceName, reg[k]) &&
      PerInstance(reg, instanceName, InstanceUsers())[i].instance == reg[k].id)
  {
    PerInstanceFrom(reg, instanceName, InstanceUsers(), i);
    var k :| 0 <= k < |reg| && Visits(instanceName, reg[k]) &&
      PerInstance(reg, instanceName, InstanceUsers())[i] in InstanceUsers()(reg[k].inst);
    GetUsersSpec(reg, instanceName, reg[k].inst);
  }

  // -----------------------------------------------------------------------
  // get_histories

  function HistoryRowOf(h: History, instance: string, email: string): HistoryRow {
    HistoryRow(h.id, h.name, instance, Utils.ReadableDate(h.updateTime), email)
  }

  function HistoriesFor(inst: Instance, u: User): (r: seq<HistoryRow>)
    ensures |r| == |inst.histories(u.email)|
    ensures forall i :: 0 <= i < |r| ==> r[i] == HistoryRowOf(inst.histories(u.email)[i], inst.name, u.email)
  {
    seq(|inst.histories(u.email)|, i requires 0 <= i < |inst.histories(u.email)| =>
      HistoryRowOf(inst.histories(u.email)[i], inst.name, u.email))
  }

  function UserHistories(inst: Instance): User -> seq<HistoryRow> {
    (u: User) => HistoriesFor(inst, u)
  }

  /** The inner loop of `get_histories`: one user's histories, rewritten. */
  method UserHistoryRows(inst: Instance, user: User) returns (rows: seq<HistoryRow>)
    ensures rows == HistoriesFor(inst, user)
  {
    var tmp := inst.histories(user.email);
    rows := [];
    for m := 0 to |tmp|
      invariant rows == HistoriesFor(inst, user)[..m]
    {
      rows := rows + [HistoryRowOf(tmp[m], inst.name, user.email)];
    }
  }

  function InstanceHistories(email: Option<string>): Instance -> seq<HistoryRow> {
    (inst: Instance) => PerUser(SortBy(inst.users, UserKey), email, UserHistories(inst))
  }

  function InstanceHistoryBrief(email: Option<string>): Instance -> seq<Brief> {
    (inst: Instance) => PerUserBrief(SortBy(inst.users, UserKey), email, UserHistories(inst), false, Some(inst.name))
  }

  /** The user loop of `get_histories` for one instance. */
  method HistoriesOfInstance(inst: Instance, email: Option<string>) returns (rows: seq<HistoryRow>, brief: seq<Brief>)
    ensures rows == InstanceHistories(email)(inst)
    ensures brief == InstanceHistoryBrief(email)(inst)
  {
    var users := SortBy(inst.users, UserKey);
    rows, brief := [], [];
    for j := 0 to |users|
      invariant rows == PerUser(users[..j], email, UserHistories(inst))
      invariant brief == PerUserBrief(users[..j], email, UserHistories(inst), false, Some(inst.name))
    {
      PerUserStep(users, j, email, UserHistories(inst), false, Some(inst.name));
      var user := users[j];
      if Wanted(email, user) {
        var tmp := UserHistoryRows(inst, user);
        brief := brief + [Brief(Some(inst.name), Some(user.email), |tmp|)];
        rows := rows + tmp;
      }
    }
    assert users[..|users|] == users;
  }

  /** `get_histories`. */
  method GetHistories(reg: seq<Entry>, instanceName: Option<string>, email: Option<string>, summary: bool)
    returns (r: Listing<HistoryRow>)
    ensures r == if summary then Summary(PerInstanceBrief(reg, instanceName, InstanceHistoryBrief(email)))
                 else Rows(PerInstance(reg, instanceName, InstanceHistories(email)))
  {
    var histories: seq<HistoryRow> := [];
    var brief: seq<Brief> := [];
    for k := 0 to |reg|
      invariant histories == PerInstance(reg[..k], instanceName, InstanceHistories(email))
      invariant brief == PerInstanceBrief(reg[..k], instanceName, InstanceHistoryBrief(email))
    {
      PerInstanceStep(reg, k, instanceName, InstanceHistories(email), InstanceHistoryBrief(email));
      if Visits(instanceName, reg[k]) {
        var rows, b := HistoriesOfInstance(reg[k].inst, email);
        histories := histories + rows;
        brief := brief + b;
      }
    }
    assert reg[..|reg|] == reg;
    r := if summary then Summary(brief) else Rows(histories);
  }

  /** A history row of one instance carries the instance, the user and
      the readable date. */
  lemma InstanceHistoryRow(inst: Instance, email: Option<string>, n: nat)
    requires n < |InstanceHistories(email)(inst)|
    ensures var row := InstanceHistories(email)(inst)[n];
      row.instance == inst.name && (email.Some? ==> row.user == email.value) &&
      (row.changed.Some? ==> 'T' !in row.changed.value && Text.NoFraction(row.changed.value))
  {
    var users := SortBy(inst.users, UserKey);
    var row := PerUser(users, email, UserHistories(inst))[n];
    PerUserFrom(users, email, UserHistories(inst), n);
    var m :| 0 <= m < |users| && Wanted(email, users[m]) && row in UserHistories(inst)(users[m]);
    var hs := HistoriesFor(inst, users[m]);
    var q :| 0 <= q < |hs| && hs[q] == row;
    assert row == HistoryRowOf(inst.histories(users[m].email)[q], inst.name, users[m].email);
  }

  /** A history row carries the readable date and the user, and the
      `user_email` filter holds for every row. */
  lemma GetHistoriesSpec(reg: seq<Entry>, instanceName: Option<string>, email: Option<string>, i: nat)
    requires i < |PerInstance(reg, instanceName, InstanceHistories(email))|
    ensures email.Some? ==> PerInstance(reg, instanceName, InstanceHistories(email))[i].user == email.value
    ensures exists k :: (0 <= k < |reg| && Visits(instanceName, reg[k]) &&
      PerInstance(reg, instanceName, InstanceHistories(email))[i].instance == reg[k].id)
    ensures var c := PerInstance(reg, instanceName, InstanceHistories(email))[i].changed;
      c.Some? ==> 'T' !in c.value && Text.NoFraction(c.value)
  {
    var row := PerInstance(reg, instanceName, InstanceHistories(email))[i];
    PerInstanceFrom(reg, instanceName, InstanceHistories(email), i);
    var k :| 0 <= k < |reg| && Visits(instanceName, reg[k]) && row in InstanceHistories(email)(reg[k].inst);
    var rows := InstanceHistories(email)(reg[k].inst);
    var n :| 0 <= n < |rows| && rows[n] == row;
    InstanceHistoryRow(reg[k].inst, email, n);
  }

  /** The summary counts add up to the number of history rows. */
  lemma GetHistoriesCounts(reg: seq<Entry>, instanceName: Option<string>, email: Option<string>)
    ensures Sum(PerInstanceBrief(reg, instanceName, InstanceHistoryBrief(email))) ==
      |PerInstance(reg, instanceName, InstanceHistories(email))|
  {
    forall k | 0 <= k < |reg| ensures Sum(InstanceHistoryBrief(email)(reg[k].inst)) == |InstanceHistories(email)(reg[k].inst)| {
      var inst := reg[k].inst;
      PerUserCounts(SortBy(inst.users, UserKey), email, UserHistories(inst), false, Some(inst.name));
    }
    PerInstanceCounts(reg, instanceName, InstanceHistories(email), InstanceHistoryBrief(email));
  }

  // -----------------------------------------------------------------------
  // get_exports

  /** Unless `full`, the export, job and history ids are deleted;
      `create_time` becomes the readable `created`. */
  function ExportRowOf(e: Export, instance: string, email: string, full: bool): ExportRow {
    ExportRow(if full then Some(e.exportId) else None,
              if full then Some(e.jobId) else None,
              if full then Some(e.historyId) else None,
              e.datasetId, e.name, e.state, instance, email, Utils.ReadableDate(e.createTime))
  }

  function ExportsFor(inst: Instance, u: User, full: bool): (r: seq<ExportRow>)
    ensures |r| == |inst.exports(u.email)|
    ensures forall i :: 0 <= i < |r| ==> r[i] == ExportRowOf(inst.exports(u.email)[i], inst.name, u.email, full)
  {
    seq(|inst.exports(u.email)|, i requires 0 <= i < |inst.exports(u.email)| =>
      ExportRowOf(inst.exports(u.email)[i], inst.name, u.email, full))
  }

  function UserExports(inst: Instance, full: bool): User -> seq<ExportRow> {
    (u: User) => ExportsFor(inst, u, full)
  }

  /** The inner loop of `get_exports`: one user's exports, rewritten. */
  method UserExportRows(inst: Instance, user: User, full: bool) returns (rows: seq<ExportRow>)
    ensures rows == ExportsFor(inst, user, full)
  {
    var tmp := inst.exports(user.email);
    rows := [];
    for m := 0 to |tmp|
      invariant rows == ExportsFor(inst, user, full)[..m]
    {
      rows := rows + [ExportRowOf(tmp[m], inst.name, user.email, full)];
    }
  }

  function InstanceExports(email: Option<string>, full: bool): Instance -> seq<ExportRow> {
    (inst: Instance) => PerUser(SortBy(inst.users, UserKey), email, UserExports(inst, full))
  }

  function InstanceExportBrief(email: Option<string>, full: bool): Instance -> seq<Brief> {
    (inst: Instance) => PerUserBrief(SortBy(inst.users, UserKey), email, UserExports(inst, full), true, Some(inst.name))
  }

  /** The body of the user loop of `get_exports`: nothing for an unwanted
      user or one without exports, otherwise the rows and a summary entry. */
  method ExportsOfUser(inst: Instance, user: User, email: Option<string>, full: bool)
    returns (rows: seq<ExportRow>, brief: seq<Brief>)
    ensures rows == if Wanted(email, user) then UserExports(inst, full)(user) else []
    ensures brief == if Wanted(email, user) && |UserExports(inst, full)(user)| != 0
                     then [Brief(Some(inst.name), Some(user.email), |UserExports(inst, full)(user)|)] else []
  {
    rows, brief := [], [];
    if Wanted(email, user) {
      var nrExports := |inst.exports(user.email)|;
      if nrExports != 0 {
        brief := [Brief(Some(inst.name), Some(user.email), nrExports)];
      }
      rows := UserExportRows(inst, user, full);
    }
  }

  /** The user loop of `get_exports` for one instance. */
  method ExportsOfInstance(inst: Instance, email: Option<string>, full: bool) returns (rows: seq<ExportRow>, brief: seq<Brief>)
    ensures rows == InstanceExports(email, full)(inst)
    ensures brief == InstanceExportBrief(email, full)(inst)
  {
    var users := SortBy(inst.users, UserKey);
    rows, brief := [], [];
    for j := 0 to |users|
      invariant rows == PerUser(users[..j], email, UserExports(inst, full))
      invariant brief == PerUserBrief(users[..j], email, UserExports(inst, full), true, Some(inst.name))
    {
      PerUserStep(users, j, email, UserExports(inst, full), true, Some(inst.name));
      var r, b := ExportsOfUser(inst, users[j], email, full);
      rows := rows + r;
      brief := brief + b;
    }
    assert users[..|users|] == users;
  }

  /** `get_exports`. */
  method GetExports(reg: seq<Entry>, instanceName: Option<string>, email: Option<string>, summary: bool, full: bool)
    returns (r: Listing<ExportRow>)
    ensures r == if summary then Summary(PerInstanceBrief(reg, instanceName, InstanceExportBrief(email, full)))
                 else Rows(PerInstance(reg, instanceName, InstanceExports(email, full)))
  {
    var exports: seq<ExportRow> := [];
    var brief: seq<Brief> := [];
    for k := 0 to |reg|
      invariant exports == PerInstance(reg[..k], instanceName, InstanceExports(email, full))
      invariant brief == PerInstanceBrief(reg[..k], instanceName, InstanceExportBrief(email, full))
    {
      PerInstanceStep(reg, k, instanceName, InstanceExports(email, full), InstanceExportBrief(email, full));
      if Visits(instanceName, reg[k]) {
        var rows, b := ExportsOfInstance(reg[k].inst, email, full);
        exports := exports + rows;
        brief := brief + b;
      }
    }
    assert reg[..|reg|] == reg;
    r := if summary then Summary(brief) else Rows(exports);
  }

  /** Summary entries of one instance never count zero exports, and they
      add up to the number of its rows. */
  lemma ExportBriefCounts(inst: Instance, email: Option<string>, full: bool)
    ensures forall i :: 0 <= i < |InstanceExportBrief(email, full)(inst)| ==> InstanceExportBrief(email, full)(inst)[i].count > 0
    ensures Sum(InstanceExportBrief(email, full)(inst)) == |InstanceExports(email, full)(inst)|
  {
    PerUserCounts(SortBy(inst.users, UserKey), email, UserExports(inst, full), true, Some(inst.name));
  }

  /** An export row of one instance carries the instance and the user,
      and its id columns exactly when `full` is asked for. */
  lemma InstanceExportRow(inst: Instance, email: Option<string>, full: bool, n: nat)
    requires n < |InstanceExports(email, full)(inst)|
    ensures var row := InstanceExports(email, full)(inst)[n];
      row.instance == inst.name && (email.Some? ==> row.user == email.value) &&
      (row.exportId.Some? <==> full) && (row.jobId.Some? <==> full) && (row.historyId.Some? <==> full)
  {
    var users := SortBy(inst.users, UserKey);
    var row := PerUser(users, email, UserExports(inst, full))[n];
    PerUserFrom(users, email, UserExports(inst, full), n);
    var m :| 0 <= m < |users| && Wanted(email, users[m]) && row in UserExports(inst, full)(users[m]);
    var es := ExportsFor(inst, users[m], full);
    var q :| 0 <= q < |es| && es[q] == row;
    assert row == ExportRowOf(inst.exports(users[m].email)[q], inst.name, users[m].email, full);
  }

  /** Without `full` no row carries an id column; with it every row does. */
  lemma ExportRowIds(reg: seq<Entry>, instanceName: Option<string>, email: Option<string>, full: bool, i: nat)
    requires i < |PerInstance(reg, instanceName, InstanceExports(email, full))|
    ensures var row := PerInstance(reg, instanceName, InstanceExports(email, full))[i];
      (row.exportId.Some? <==> full) && (row.jobId.Some? <==> full) && (row.historyId.Some? <==> full)
    ensures email.Some? ==> PerInstance(reg, instanceName, InstanceExports(email, full))[i].user == email.value
  {
    var row := PerInstance(reg, instanceName, InstanceExports(email, full))[i];
    PerInstanceFrom(reg, instanceName, InstanceExports(email, full), i);
    var k :| 0 <= k < |reg| && Visits(instanceName, reg[k]) && row in InstanceExports(email, full)(reg[k].inst);
    var rows := InstanceExports(email, full)(reg[k].inst);
    var n :| 0 <= n < |rows| && rows[n] == row;
    InstanceExportRow(reg[k].inst, email, full, n);
  }

  // -----------------------------------------------------------------------
  // get_imports (on the master instance only)

  function ImportRowOf(im: Import, email: string, full: bool): ImportRow {
    ImportRow(if full then Some(im.importId) else None,
              if full then Some(im.jobId) else None,
              if full then Some(im.historyId) else None,
              email, Utils.ReadableDate(im.createTime))
  }

  function ImportsFor(master: Instance, u: User, full: bool): (r: seq<ImportRow>)
    ensures |r| == |master.imports(u.email)|
    ensures forall i :: 0 <= i < |r| ==> r[i] == ImportRowOf(master.imports(u.email)[i], u.email, full)
  {
    seq(|master.imports(u.email)|, i requires 0 <= i < |master.imports(u.email)| =>
      ImportRowOf(master.imports(u.email)[i], u.email, full))
  }

  function UserImports(master: Instance, full: bool): User -> seq<ImportRow> {
    (u: User) => ImportsFor(master, u, full)
  }

  /** The inner loop of `get_imports`: one user's imports, rewritten. */
  method UserImportRows(master: Instance, user: User, full: bool) returns (rows: seq<ImportRow>)
    ensures rows == ImportsFor(master, user, full)
  {
    var tmp := master.imports(user.email);
    rows := [];
    for m := 0 to |tmp|
      invariant rows == ImportsFor(master, user, full)[..m]
    {
      rows := rows + [ImportRowOf(tmp[m], user.email, full)];
    }
  }

  /** The body of the user loop of `get_imports`: nothing for an unwanted
      user or one without imports, otherwise the rows and a summary entry. */
  method ImportsOfUser(master: Instance, user: User, email: Option<string>, full: bool)
    returns (rows: seq<ImportRow>, brief: seq<Brief>)
    ensures rows == if Wanted(email, user) then UserImports(master, full)(user) else []
    ensures brief == if Wanted(email, user) && |UserImports(master, full)(user)| != 0
                     then [Brief(None, Some(user.email), |UserImports(master, full)(user)|)] else []
  {
    rows, brief := [], [];
    if Wanted(email, user) {
      var nrImports := |master.imports(user.email)|;
      if nrImports != 0 {
        brief := [Brief(None, Some(user.email), nrImports)];
      }
      rows := UserImportRows(master, user, full);
    }
  }

  /** `get_imports`. */
  method GetImports(master: Instance, email: Option<string>, summary: bool, full: bool) returns (r: Listing<ImportRow>)
    ensures r == if summary then Summary(PerUserBrief(SortBy(master.users, UserKey), email, UserImports(master, full), true, None))
                 else Rows(PerUser(SortBy(master.users, UserKey), email, UserImports(master, full)))
  {
    var users := SortBy(master.users, UserKey);
    var imports: seq<ImportRow> := [];
    var brief: seq<Brief> := [];
    for j := 0 to |users|
      invariant imports == PerUser(users[..j], email, UserImports(master, full))
      invariant brief == PerUserBrief(users[..j], email, UserImports(master, full), true, None)
    {
      PerUserStep(users, j, email, UserImports(master, full), true, None);
      var rows, b := ImportsOfUser(master, users[j], email, full);
      imports := imports + rows;
      brief := brief + b;
    }
    assert users[..|users|] == users;
    r := if summary then Summary(brief) else Rows(imports);
  }

  /** Import summaries never count zero and add up to the rows; without
      `full` no row carries an id column. */
  lemma GetImportsSpec(master: Instance, email: Option<string>, full: bool)
    ensures forall i :: 0 <= i < |PerUserBrief(SortBy(master.users, UserKey), email, UserImports(master, full), true, None)| ==>
      PerUserBrief(SortBy(master.users, UserKey), email, UserImports(master, full), true, None)[i].count > 0
    ensures Sum(PerUserBrief(SortBy(master.users, UserKey), email, UserImports(master, full), true, None)) ==
      |PerUser(SortBy(master.users, UserKey), email, UserImports(master, full))|
    ensures forall i :: 0 <= i < |PerUser(SortBy(master.users, UserKey), email, UserImports(master, full))| ==>
      var row := PerUser(SortBy(master.users, UserKey), email, UserImports(master, full))[i];
      (row.importId.Some? <==> full) && (email.Some? ==> row.user == email.value)
  {
    var users := SortBy(master.users, UserKey);
    PerUserCounts(users, email, UserImports(master, full), true, None);
    forall i | 0 <= i < |PerUser(users, email, UserImports(master, full))|
      ensures var row := PerUser(users, email, UserImports(master, full))[i];
        (row.importId.Some? <==> full) && (email.Some? ==> row.user == email.value)
    {
      var row := PerUser(users, email, UserImports(master, full))[i];
      PerUserFrom(users, email, UserImports(master, full), i);
      var m :| 0 <= m < |users| && Wanted(email, users[m]) && row in UserImports(master, full)(users[m]);
      var q :| 0 <= q < |UserImports(master, full)(users[m])| && UserImports(master, full)(users[m])[q] == row;
      assert row == ImportRowOf(master.imports(users[m].email)[q], users[m].email, full);
    }
  }

  // -----------------------------------------------------------------------
  // get_export_requests / get_import_requests

  /** A request with its `create_time` already turned into seconds since
      the epoch. */
  datatype Request = Request(createSeconds: int, body: Json.Value)

  /** Python truthiness of `time_delta`: absent or zero is falsy. */
  predicate HasWindow(timeDelta: Option<int>) {
    timeDelta.Some? && timeDelta.value != 0
  }

  function InWindow(timeDelta: Option<int>): Request -> bool {
    (q: Request) => !HasWindow(timeDelta) || timeDelta.value <= q.createSeconds
  }

  /** `get_export_requests` and `get_import_requests` (the two share their
      code): the requests created at or after `time_delta`, in order. */
  method RequestsSince(requests: seq<Request>, timeDelta: Option<int>) returns (r: seq<Request>)
    ensures r == Filter(requests, InWindow(timeDelta))
  {
    r := [];
    for k := 0 to |requests|
      invariant r == Filter(requests[..k], InWindow(timeDelta))
    {
      FilterStep(requests, k, InWindow(timeDelta));
      var createTime := requests[k].createSeconds;
      if HasWindow(timeDelta) {
        if timeDelta.value <= createTime {
          r := r + [requests[k]];
        }
      } else {
        r := r + [requests[k]];
      }
    }
    assert requests[..|requests|] == requests;
  }

  /** A request is kept exactly when there is no window or it was created
      inside it; without a window nothing is dropped. */
  lemma RequestsSinceSpec(requests: seq<Request>, timeDelta: Option<int>)
    ensures forall i :: 0 <= i < |requests| && (!HasWindow(timeDelta) || timeDelta.value <= requests[i].createSeconds) ==>
      requests[i] in Filter(requests, InWindow(timeDelta))
    ensures forall i :: 0 <= i < |Filter(requests, InWindow(timeDelta))| ==>
      !HasWindow(timeDelta) || timeDelta.value <= Filter(requests, InWindow(timeDelta))[i].createSeconds
    ensures !HasWindow(timeDelta) ==> Filter(requests, InWindow(timeDelta)) == requests
  {
    if !HasWindow(timeDelta) {
      FilterAll(requests, InWindow(timeDelta));
    }
  }
}
