# nels-galaxy-api, modelled in Dafny

nels-galaxy-api moves Galaxy histories between Galaxy servers and the NeLS
Storage. It has four parts:

- A REST API server (`bin/nels-galaxy-api.py`). It reads a Galaxy instance's
  database (`nels_galaxy_api/db.py`). It hands out obfuscated ids
  (`nels_galaxy_api/utils.py`) and keeps a table of export trackers that
  follow each transfer.
- A worker (`bin/nga_runner.py`). It takes tracker ids off a message queue
  and runs each tracker through three steps:
  1. it asks Galaxy to export the history;
  2. it downloads the archive with curl;
  3. it copies the archive to the user's NeLS area with scp.
- A generic queue runner (`bin/mq_runner.py`). It runs the shell commands a
  message carries, between guarded `pre`, `success`, `post` and `error`
  hooks.
- A PHP page (`history_transfer_kk/static/history_transfer_callback.php`).
  The NeLS file picker sends the browser back to this page, and the page
  turns the browser's choice into a transfer request.

The model has one module per source file:

| file | module | source |
|---|---|---|
| `string_utils.dfy` | `StringUtils` | `kbr/string_utils.py` |
| `states.dfy` | `States` | `nels_galaxy_api/states.py` |
| `utils.dfy` | `Utils` | `nels_galaxy_api/utils.py` |
| `db.dfy` | `Db` | `nels_galaxy_api/db.py` |
| `front.dfy` | `Front` | `nels_galaxy_api/front.py` |
| `api.dfy` | `Api` | `bin/nels-galaxy-api.py` (the request handlers) |
| `mq_runner.dfy` | `MqRunner` | `bin/mq_runner.py` |
| `callback.dfy` | `TransferCallback` | the PHP page |
| `nga_runner.dfy` | `NgaRunner` | `bin/nga_runner.py` |

Four helper modules are shared:

- `wrappers.dfy`: `Option` and `Result`.
- `text.dfy`: Python's `str.replace`, `rstrip`, `split` and `re.sub(r'\.\d+', '')`, PHP's `explode`, decimal formatting and string order.
- `json.dfy`: Python values and insertion-ordered dicts.
- `seqs.dfy`: filtering and Python's stable `sorted`.

Code that updates state in place is modelled imperatively:

- `Db.DB` is a class over its in-memory tables.
- `States.StateStore` is a class over the `states` dict.
- `NgaRunner.Runner` is a class over the worker's globals. It keeps an ordered log of what the worker does to the outside world.
- Source loops are methods with loop invariants, each proved equal to a specification function.

Everything else is functions and lemmas.

The model takes outside calls as parameters:

- Bioblend, the master API, curl, scp and rm appear in a `World` record. Each entry either returns a value or raises.
- The Blowfish cipher is a parameter. The round trip assumes it is invertible.
- The clock is an integer. A handler that reads it twice takes two readings.
- Exit codes are a function from command to integer.
- The webhook's reply is a parameter.

## Model

| member | source | states |
|---|---|---|
| StringUtils.CommaSep | kbr/string_utils.py:7-8 | An empty list joins to `""`; a single element joins to itself. |
| StringUtils.CommaSepLength | kbr/string_utils.py:7-8 | The join is as long as all elements plus one `", "` between each pair of neighbours. |
| StringUtils.CommaSepAppend | kbr/string_utils.py:7-8 | Appending an element appends `", "` and that element, so the elements appear in order. |
| StringUtils.CommaSepConcat | kbr/string_utils.py:7-8 | Joining two non-empty lists gives the two joins with one separator between them. |
| States.StateStore.constructor | nels_galaxy_api/states.py:4 | The store starts empty. |
| States.StateStore.Set | nels_galaxy_api/states.py:7-11 | The data is stored under the caller's random key, that key is returned, and no other entry changes. |
| States.StateStore.Get | nels_galaxy_api/states.py:14-24 | An unknown key gives `None` and changes nothing. A known key gives its data. With `purge` exactly that entry is removed; without it nothing changes. |
| States.StateStore.SetGetPurge | nels_galaxy_api/states.py:7-24 | After a store, a purging read returns the data once and a second read finds nothing. |
| Utils.Pad | nels_galaxy_api/utils.py:23-28 | The cipher input is one to eight `!` followed by the value, and its length in characters is a multiple of 8. |
| Utils.LStrip | nels_galaxy_api/utils.py:20 | `lstrip`: the result is a suffix, it does not start with the character, and only that character was removed. |
| Utils.DecryptEncrypt | nels_galaxy_api/utils.py:17-28 | With an invertible cipher, decrypting an encrypted value that does not start with `!` gives the value back. |
| Utils.DecryptEncryptLosesLeadingBangs | nels_galaxy_api/utils.py:17-28 | A value's own leading `!` do not survive the round trip: `"!7"` comes back as `"7"`. |
| Utils.DirectoryHashId | nels_galaxy_api/utils.py:30-41 | Ids of up to three digits live under `["000"]`. Every directory name has three characters, and the number of directories follows from the padded length. |
| Utils.DirectoryHashIdSpells | nels_galaxy_api/utils.py:36-41 | The directories followed by the id's last three digits spell the zero-padded id. |
| Utils.ConcatChunks3 | nels_galaxy_api/utils.py:41 | The chunks of three concatenate back to the string that was cut. |
| Utils.PathJoin | nels_galaxy_api/utils.py:64-67 | A relative part joined onto a directory ends the resulting path. |
| Utils.ConstructFilePathSpec | nels_galaxy_api/utils.py:43-83 | A path found ends in `dataset_<id>.dat`. The lookup raises exactly when the hashed path, the flat path and the directory search all fail. |
| Utils.ConstructFilePathOrder | nels_galaxy_api/utils.py:63-76 | An existing hashed path wins; otherwise an existing flat path wins over the search. |
| Utils.EncryptField | nels_galaxy_api/utils.py:100-105 | Encrypting a dict entry keeps its key. |
| Utils.EncryptedItemsShape | nels_galaxy_api/utils.py:113-117 | A list is accepted exactly when all its elements are, and its length is kept. |
| Utils.EncryptedIdsShape | nels_galaxy_api/utils.py:92-110 | `encrypt_ids` raises exactly on values that are neither dicts nor lists of accepted values, and it keeps list lengths. |
| Utils.EncryptedIdsEmpty | nels_galaxy_api/utils.py:96-97 | An empty dict or list is returned unchanged. |
| Utils.EncryptedDictFields | nels_galaxy_api/utils.py:99-105 | Keys and their order are kept. `nels_id`, keys without `_id`, and non-int values under other keys are untouched; `id` is always encrypted. |
| Utils.EncryptedIntIdDecrypts | nels_galaxy_api/utils.py:104-105 | An encrypted int id is a string that decrypts to the id's decimal form. |
| Utils.EncryptDictIds | nels_galaxy_api/utils.py:99-105 | The key loop, which updates entries in place, computes the specified encrypted dict. |
| Utils.EncryptIds | nels_galaxy_api/utils.py:92-110 | The recursive `encrypt_ids` method returns the specified result, including the error for other values. |
| Utils.ListEncryptIds | nels_galaxy_api/utils.py:113-117 | The loop over a list returns the specified result and stops at the first element that raises. |
| Utils.ReadableDate | nels_galaxy_api/utils.py:119-127 | `None` maps to `None`. Otherwise the result holds no `T` and no `.digits` fragment, and it is no longer than the input. |
| Utils.ReadableDateOfIso | nels_galaxy_api/utils.py:124-125 | `<date>T<time>.<digits>` becomes `<date> <time>`. |
| Text.ReplaceChar | nels_galaxy_api/utils.py:124 | `str.replace` with a one-character pattern leaves a string without that character unchanged. |
| Text.ReplaceCharChars | bin/nga_runner.py:221 | After the replacement the character is gone, only characters of the input or the replacement remain, and a one-character replacement keeps the length. |
| Text.StripFractions | nels_galaxy_api/utils.py:125 | `re.sub(r'\.\d+', '', s)` leaves no `.` followed by a digit. |
| Text.StripFractionsChars | nels_galaxy_api/utils.py:125 | Stripping only removes characters. |
| Text.StripFractionsFixesClean | bin/nga_runner.py:223 | A string without a `.digits` fragment is unchanged. |
| Text.StripFractionsIdempotent | bin/nga_runner.py:223 | Stripping twice is the same as stripping once. |
| Text.Before | history_transfer_kk/static/history_transfer_callback.php:10-11 | `explode(p, s)[0]`: the result is a prefix of `s`, it is cut exactly where `p` first occurs, and no earlier position starts `p`. |
| Text.BeforeFound | history_transfer_kk/static/history_transfer_callback.php:10-11 | The part kept holds no `p`, and it differs from `s` exactly when `s` contains `p`. |
| Text.AfterLast | history_transfer_kk/static/history_transfer_callback.php:29-30 | `end(explode(c, s))` is no longer than `s`. |
| Text.AfterLastNoSep | history_transfer_kk/static/history_transfer_callback.php:29-30 | The last piece holds no separator. |
| Text.AfterLastSuffix | history_transfer_kk/static/history_transfer_callback.php:29-30 | The last piece is a suffix of `s`: either all of `s` or preceded by the separator. |
| Text.RStrip | bin/nga_runner.py:59 | `rstrip`: the result is a prefix, it does not end with the character, and only that character was removed. |
| Text.Lower | history_transfer_kk/static/history_transfer_callback.php:66 | `strtolower` keeps the length and lower-cases each character. |
| Text.NatToString | bin/nels-galaxy-api.py:422 | The decimal form of a number is a non-empty run of digits. |
| Text.DigitsValueNatToString | nels_galaxy_api/db.py:103 | Reading the digits of a number's decimal form gives the number back. |
| Text.LexLeTotal | nels_galaxy_api/front.py:34 | String order, used as the sort key, is total. |
| Text.LexLeTransitive | nels_galaxy_api/front.py:34 | String order is transitive. |
| Json.IntStrHasNoBang | nels_galaxy_api/utils.py:104-105 | The string form of an int never starts with `!`, so encrypted ids round-trip. |
| Seqs.Filter | nels_galaxy_api/db.py:202-209 | A filter keeps exactly the elements satisfying the predicate, as a sub-multiset of the input. |
| Seqs.FilterConcat | nels_galaxy_api/db.py:202-209 | Filtering works block by block, so it keeps the input order. |
| Seqs.FilterAll | nels_galaxy_api/front.py:176-180 | A filter that keeps everything is the identity. |
| Seqs.InsertByPerm | nels_galaxy_api/front.py:34 | Insertion adds exactly one element. |
| Seqs.InsertBySorted | nels_galaxy_api/front.py:34 | Insertion keeps a sorted list sorted. |
| Seqs.SortBy | nels_galaxy_api/front.py:34 | `sorted(xs, key=...)` is sorted by the key and is a permutation of its input. |
| Seqs.InsertByStable | nels_galaxy_api/front.py:34 | Inserting into a sorted list puts the new element after every element with the same key and keeps the others in order. |
| Seqs.SortByStable | nels_galaxy_api/front.py:34 | `sorted` is stable: the elements that share a key come out in their input order. |
| Db.Patched | nels_galaxy_api/db.py:115-117 | The fields given overwrite the old ones and `update_time` becomes `now`. No other column changes. |
| Db.FirstTos | nels_galaxy_api/db.py:40-46 | The first row of a user is one of that user's rows. There is none exactly when the user has no row. |
| Db.TosRowFor | nels_galaxy_api/db.py:34-48 | The row returned belongs to the user. A user without a row gets a `grace` row dated fourteen days ahead. |
| Db.ReplaceTos | nels_galaxy_api/db.py:73-74 | The table keeps its length, and exactly the rows with the given id are replaced. |
| Db.GetDataset | nels_galaxy_api/db.py:144-151 | The result is a single row, from which the download reads the dataset id, exactly when the lookup gave a row or a non-empty list; a list is unwrapped to its first row. A list is never returned non-empty: an empty list or no row is passed on unchanged. |
| Db.DB.constructor | nels_galaxy_api/db.py:9-10 | A connection with the given tables and sessions and no rows. |
| Db.DB.TableExist | nels_galaxy_api/db.py:17-23 | True exactly when the table exists. |
| Db.DB.CreateTosTable | nels_galaxy_api/db.py:76-87 | Afterwards the table exists, and calling again changes nothing. |
| Db.DB.CreateExportTrackingTable | nels_galaxy_api/db.py:90-108 | Afterwards the table exists, and calling again changes nothing. |
| Db.DB.InitUserTos | nels_galaxy_api/db.py:29-32 | Appends a `grace` row for the user dated fourteen days from now, with a fresh id. |
| Db.DB.GetUserTos | nels_galaxy_api/db.py:34-48 | Raises exactly for an unknown session key, whose empty session list is indexed. `None` and no change for a session that is invalid or has no user. Otherwise it returns the user's first row; a user without one first gets a fresh `grace` row dated from the given clock reading. |
| Db.DB.UpdateTos | nels_galaxy_api/db.py:73-74 | The row with the same id is replaced, and no other row changes. |
| Db.DB.AddExportTracking | nels_galaxy_api/db.py:94-113 | The insert fails, leaving the table alone, exactly when `nels_id` cannot be cast to the `INT` column. Otherwise it appends one tracker with a fresh id, `create_time` set to now and the cast `nels_id`. |
| Db.IntCast | nels_galaxy_api/db.py:103 | A text accepted by the `INT` column is an optional sign and digits, and its value is within 32 bits. |
| Db.IntCastRoundTrip | nels_galaxy_api/db.py:103 | An integer written in decimal casts back to itself exactly when it is within 32 bits, and is rejected otherwise. |
| Db.NelsIdCast | nels_galaxy_api/db.py:103 | An absent `nels_id` stays absent (NULL). A given one fails exactly when the cast rejects it, and otherwise becomes the cast value. |
| Db.DB.UpdateExportTracking | nels_galaxy_api/db.py:115-117 | Only the tracker with the given id changes, and it is patched. |
| Db.DB.ExportTrackings | nels_galaxy_api/db.py:120-121 | Returns exactly the trackers matching every given column. |
| Db.HistoryOrderMembers | nels_galaxy_api/db.py:129-141 | The dict's keys are exactly the histories of the rows, each once. |
| Db.CleanedKeys | nels_galaxy_api/db.py:133-139 | The dict has a key exactly for each history in the key order. |
| Db.CleanedSpec | nels_galaxy_api/db.py:133-139 | The row kept for a history is one of its rows, and none of its rows is newer. |
| Db.CleanedStep | nels_galaxy_api/db.py:134-139 | One more row either inserts a new key at the end or replaces the kept row when strictly newer. |
| Db.KeptRow | nels_galaxy_api/db.py:133-139 | The kept row of a history belongs to that history and is its newest. |
| Db.CleanedFirstNewest | nels_galaxy_api/db.py:136-139 | Since only a strictly newer row replaces the kept one, the kept row is the first of the newest rows of its history. |
| Db.LatestPerHistory | nels_galaxy_api/db.py:129-141 | One row per history, in key order. |
| Db.LatestPerHistorySpec | nels_galaxy_api/db.py:129-141 | At most one export per history and every history represented. Each kept export is an input row, none newer exists, and no earlier row of its history is as new. |
| Db.HistoryOrderIsFirstAppearance | nels_galaxy_api/db.py:133-141 | Results follow the order in which histories first appear in the input. |
| Db.ValuesInOrder | nels_galaxy_api/db.py:141 | `list(d.values())` gives the values in key order. |
| Db.LatestExports | nels_galaxy_api/db.py:129-141 | The dict-building loop computes the latest export per history. |
| Db.KeepState | nels_galaxy_api/db.py:202-209 | The state loop keeps exactly the exports in that state, in order. |
| Db.GetExports | nels_galaxy_api/db.py:190-211 | With an empty state, the latest export per history. Otherwise those of them in that state. |
| Db.FilterKeepsDistinct | nels_galaxy_api/db.py:202-209 | Filtering cannot make two rows share a history. |
| Db.GetExportsFiltered | nels_galaxy_api/db.py:190-211 | With a state filter every result has that state, and histories stay distinct. |
| Db.AllExports | nels_galaxy_api/db.py:214-226 | All exports with an empty state, otherwise only input rows in that state. |
| Front.SumConcat | nels_galaxy_api/front.py:24 | Summary counts add over concatenation. |
| Front.PerInstanceStep | nels_galaxy_api/front.py:13-18 | One more registry entry adds that instance's rows when it is visited. |
| Front.PerUserStep | nels_galaxy_api/front.py:138-147 | One more user adds that user's rows when wanted. |
| Front.PerUserCounts | nels_galaxy_api/front.py:138-147 | Per-user summary counts add up to the rows. When empty users are skipped, no entry counts zero. |
| Front.PerUserFrom | nels_galaxy_api/front.py:138-143 | Every row comes from a wanted user. |
| Front.PerInstanceCounts | nels_galaxy_api/front.py:13-24 | Per-instance summary counts add up to the rows. |
| Front.PerInstanceFrom | nels_galaxy_api/front.py:13-18 | Every row comes from a visited instance. |
| Front.TagUsers | nels_galaxy_api/front.py:26-32 | One tagged row per user, in order. |
| Front.TagUserRows | nels_galaxy_api/front.py:26-32 | The inner loop of `get_users` computes the tagged rows. |
| Front.GetUsers | nels_galaxy_api/front.py:8-39 | The per-instance counts with `summary`, otherwise the users of every visited instance. |
| Front.GetUsersSpec | nels_galaxy_api/front.py:26-37 | An instance's users are sorted by lower-cased email and are a permutation of its tagged users. The summary counts them. |
| Front.GetUsersVisited | nels_galaxy_api/front.py:13-18 | Only visited instances contribute users. |
| Front.HistoriesFor | nels_galaxy_api/front.py:66-74 | One rewritten row per history of the user, in order. |
| Front.UserHistoryRows | nels_galaxy_api/front.py:66-74 | The inner loop of `get_histories` computes those rows. |
| Front.HistoriesOfInstance | nels_galaxy_api/front.py:57-74 | The user loop computes the instance's rows and summary. |
| Front.GetHistories | nels_galaxy_api/front.py:42-80 | The summary or the history rows of every visited instance. |
| Front.InstanceHistoryRow | nels_galaxy_api/front.py:66-74 | A row carries the instance, the user and the readable change date. |
| Front.GetHistoriesSpec | nels_galaxy_api/front.py:42-80 | The `user_email` filter holds for every row. Rows come from visited instances and carry readable dates. |
| Front.GetHistoriesCounts | nels_galaxy_api/front.py:65 | The summary counts add up to the number of history rows. |
| Front.ExportsFor | nels_galaxy_api/front.py:110-119 | One rewritten row per export of the user, in order. |
| Front.UserExportRows | nels_galaxy_api/front.py:110-119 | The inner loop of `get_exports` computes those rows. |
| Front.ExportsOfUser | nels_galaxy_api/front.py:100-119 | No rows for an unwanted user. No summary entry for a user without exports. |
| Front.ExportsOfInstance | nels_galaxy_api/front.py:98-119 | The user loop computes the instance's rows and summary. |
| Front.GetExports | nels_galaxy_api/front.py:83-126 | The summary or the export rows of every visited instance. |
| Front.ExportBriefCounts | nels_galaxy_api/front.py:104-109 | No summary entry counts zero, and the counts add up to the rows. |
| Front.InstanceExportRow | nels_galaxy_api/front.py:110-119 | A row carries the instance and the user. It has id columns exactly with `full`. |
| Front.ExportRowIds | nels_galaxy_api/front.py:110-119 | Without `full` no row has an id column, with it every row has one, and the email filter holds. |
| Front.ImportsFor | nels_galaxy_api/front.py:148-157 | One rewritten row per import of the user, in order. |
| Front.UserImportRows | nels_galaxy_api/front.py:148-157 | The inner loop of `get_imports` computes those rows. |
| Front.ImportsOfUser | nels_galaxy_api/front.py:138-157 | No rows for an unwanted user. No summary entry for a user without imports. |
| Front.GetImports | nels_galaxy_api/front.py:129-165 | The summary or the import rows of the sorted users. |
| Front.GetImportsSpec | nels_galaxy_api/front.py:142-157 | Summaries never count zero and add up to the rows. Without `full` no row has an id column. |
| Front.RequestsSince | nels_galaxy_api/front.py:168-182 | The request loop keeps exactly the requests in the time window, in order. |
| Front.RequestsSinceSpec | nels_galaxy_api/front.py:176-180 | A request is kept exactly when there is no window or it falls in it; with no window nothing is dropped. |
| Api.Checked | bin/nels-galaxy-api.py:419-425 | A `grace` row past its date becomes `expired`; every other row is unchanged. |
| Api.TosExpiresExactly | bin/nels-galaxy-api.py:419-427 | A grace row is reported `expired` exactly when its date has passed. Otherwise it is reported `grace` with a grace period. |
| Api.TosDaysLeft | bin/nels-galaxy-api.py:420-422 | With between `n` and `n + 1` whole days left, the report says `n + 1 days`. |
| Api.FreshTosReport | bin/nels-galaxy-api.py:419-422 | A fresh row, dated fourteen days after its creation, reports `14 days` when the handler's later clock reading is within a day of the creation. Only a reading at the same instant reports `15 days`. |
| Api.TosOtherStatus | bin/nels-galaxy-api.py:419-427 | Non-grace rows are reported as stored and not changed. |
| Api.TosGet | bin/nels-galaxy-api.py:412-428 | A server error for an unknown session key, and 403 for a session without a user. Otherwise the report at the handler's clock reading, and an expired grace row is stored as `expired`. A missing row is first created, dated from the earlier clock reading. |
| Api.TosPatch | bin/nels-galaxy-api.py:430-443 | A server error for an unknown session key, and 403 for a session without a user. Accepting stores `accepted` dated at the handler's clock reading and answers 204. Any other body answers 404 and changes no row. |
| Api.StateArgAsWritten | bin/nels-galaxy-api.py:284-292 | The handler as written raises exactly when no `state` argument is given. |
| Api.StateArgAsWrittenRaises | bin/nels-galaxy-api.py:289-292 | A request without a state filter fails. |
| Api.StateArg | bin/nels-galaxy-api.py:284-292 | Corrected: never raises. It rejects exactly a given state outside the whitelist, and absence means no filter. |
| Api.EncryptIntColumn | bin/nels-galaxy-api.py:35-40 | An int column whose name contains `_id` is replaced by its encrypted decimal string. |
| Api.KeepPlainColumn | bin/nels-galaxy-api.py:35-40 | A column without `_id` is left alone. |
| Api.ExportColumns | bin/nels-galaxy-api.py:294 | `encrypt_ids` on an export row is column-wise. A per-user row has seven columns and a `get_all_exports` row eight. |
| Api.ExportIdColumnsEncrypted | bin/nels-galaxy-api.py:294 | The export, dataset and history ids of every row are encrypted, and so is the job id of a per-user row and the user id of a `get_all_exports` row. |
| Api.ExportPlainColumnsKept | bin/nels-galaxy-api.py:294 | The other columns are unchanged: `name`, `create_time` and `state` of a per-user row; `history_name`, `email`, `create_time` and `state` of a `get_all_exports` row. |
| Api.ExportIdRoundTrip | bin/nels-galaxy-api.py:294 | The encrypted export and history ids decrypt to the decimal ids. |
| Api.HistoryExportsList | bin/nels-galaxy-api.py:277-295 | Corrected (absent state, see Findings). The rows are `get_all_exports` rows. 400 exactly for a state outside the whitelist. Otherwise `/all` gives all exports and no `/all` gives the latest per history, filtered by state, with ids encrypted. |
| Api.ExportsJson | bin/nels-galaxy-api.py:294 | One dict per export row, in order. |
| Api.ExportsJsonAccepted | bin/nels-galaxy-api.py:294 | A list of export rows never makes `encrypt_ids` raise. |
| Api.ExportsListItem | bin/nels-galaxy-api.py:294 | Row `i` of an encrypted list of exports is row `i` encrypted on its own, so the column lemmas hold for every row of a response. |
| Api.HistoryExportGet | bin/nels-galaxy-api.py:264-269 | 404 exactly when nothing is found. Otherwise the first row with its ids encrypted. |
| Api.DownloadFile | bin/nels-galaxy-api.py:311-342 | A server error exactly when the export is not found. Otherwise the file exactly when `get_dataset` gave a single row and the path lookup found its file, and a 400 in every other case. |
| Api.DownloadUnwrapsList | bin/nels-galaxy-api.py:315-316 | A dataset lookup giving a non-empty list is served from its first row, like a single row; an empty list is a 400. |
| Api.ExportPost | bin/nels-galaxy-api.py:450-478 | 400 with the table unchanged exactly when `nelsId` is given and is not a 32-bit integer. Otherwise it appends a `pre-queueing` tracker with the given fields and the cast `nels_id`, and redirects to the instance. |
| Api.ExportPatch | bin/nels-galaxy-api.py:502-511 | Patches exactly the tracker with the given id and answers 204. |
| Api.TrackingFilterFor | bin/nels-galaxy-api.py:539-543 | The filter has the state and the instance, and the user unless it is `all`. |
| Api.TrackingColumns | bin/nels-galaxy-api.py:545 | `encrypt_ids` on a tracker row is column-wise. |
| Api.TrackingColumnKept | bin/nels-galaxy-api.py:545 | Every tracker column but `id` is left alone. `nels_id` is an integer and is skipped by name. |
| Api.TrackingJsonEncrypted | bin/nels-galaxy-api.py:545 | In a tracker only `id` is encrypted. |
| Api.TrackingsJson | bin/nels-galaxy-api.py:545 | One dict per tracker, in order. |
| Api.ExportsList | bin/nels-galaxy-api.py:519-546 | 400 exactly for a state outside the tracker whitelist. Otherwise the matching trackers with ids encrypted. |
| MqRunner.FirstDisallowed | bin/mq_runner.py:32-34 | `None` exactly when every name is allowed. Otherwise a disallowed name used by the code. |
| MqRunner.FirstDisallowedAt | bin/mq_runner.py:32-34 | The name reported is the one at the first failing index. |
| MqRunner.EvaluationSpec | bin/mq_runner.py:27-36 | An expression completes exactly when it compiles, uses only allowed names and does not raise. A compiled one with a disallowed name raises `NameError`. |
| MqRunner.Evaluate | bin/mq_runner.py:27-36 | The name loop with its early raise computes the specified outcome. |
| MqRunner.RunCommandsSpec | bin/mq_runner.py:80-83 | Commands run in order. The first non-zero exit is the last command run and the only cause of a raise. |
| MqRunner.RunCommandsAllZero | bin/mq_runner.py:80-83 | When every exit is zero, all commands run and nothing raises. |
| MqRunner.RunCommandsStep | bin/mq_runner.py:80-83 | One loop step: a non-zero exit raises after that command; a zero exit continues. |
| MqRunner.RunAll | bin/mq_runner.py:80-83 | The command loop computes the specified run. |
| MqRunner.RunHook | bin/mq_runner.py:72-74 | A present hook is evaluated; an absent one does nothing. |
| MqRunner.Callback | bin/mq_runner.py:57-99 | The handler produces the specified event log, including a raise when launching `post` fails. |
| MqRunner.AckPolicy | bin/mq_runner.py:57-99 | A non-JSON body is not acked. Any other body is acked once, last, unless its `error` hook raised. |
| MqRunner.TryBlockNoAck | bin/mq_runner.py:65-91 | The `try` block never acks. |
| MqRunner.ErrorHookSpec | bin/mq_runner.py:93-96 | The `try` block raises exactly when `cmds` is missing, `pre` raises, a command fails, `success` raises or launching `post` raises. The `error` hook runs exactly then, when present. |
| MqRunner.TryBlockNoError | bin/mq_runner.py:65-91 | The `try` block never evaluates `error`. |
| MqRunner.CommandOrder | bin/mq_runner.py:72-83 | `pre` comes first. The commands run are the wrapped list's leading commands, up to the first failure. |
| MqRunner.MainStage | bin/mq_runner.py:72-83 | The part before `success` raises exactly when `pre` raises or a command fails. It neither evaluates `success` nor runs `post`. |
| MqRunner.SuccessHook | bin/mq_runner.py:85-87 | `success` is evaluated exactly when `pre` and every command succeed and it is present. It comes before `post`. |
| MqRunner.PostRuns | bin/mq_runner.py:90-91 | `post` is launched exactly when `pre`, every command and `success` succeed and it is present. |
| TransferCallback.ValidateAsWritten | history_transfer_kk/static/history_transfer_callback.php:3-5 | As written, a request is accepted exactly under the three checks. The error message never names the action received. |
| TransferCallback.Validate | history_transfer_kk/static/history_transfer_callback.php:3-5 | Corrected: accepts exactly a known action with `selectedFiles`, and the action found is the one asked for. Each failure gives its own message, and a wrong action is named in it. |
| TransferCallback.WrongActionMessage | history_transfer_kk/static/history_transfer_callback.php:4 | As written, two different wrong actions get the same message; the corrected check tells them apart. |
| TransferCallback.ValidateAgrees | history_transfer_kk/static/history_transfer_callback.php:3-5 | The correction accepts and rejects the same requests and changes only that message. |
| TransferCallback.HttpScheme | history_transfer_kk/static/history_transfer_callback.php:63-73 | For an `HTTP/...` protocol the origin is `http` or `https`, then `://`, the host and the request URI. |
| TransferCallback.HttpProtocolName | history_transfer_kk/static/history_transfer_callback.php:66-67 | The lower-cased `HTTP/x` is cut to `http`. |
| TransferCallback.ProtocolWithoutSlash | history_transfer_kk/static/history_transfer_callback.php:67 | Without a `/` the protocol is empty, plus `s` under SSL. |
| TransferCallback.DefaultPortElided | history_transfer_kk/static/history_transfer_callback.php:68-71 | Without host headers the host is the server name, plus `:port` unless the port is the default for the scheme. |
| TransferCallback.HostPreference | history_transfer_kk/static/history_transfer_callback.php:70-71 | The forwarded host wins when asked for and set. Otherwise `HTTP_HOST` wins. |
| TransferCallback.GalaxyRootSpec | history_transfer_kk/static/history_transfer_callback.php:10-11 | The root is a prefix of the URL without `/static/`. It is the whole URL when there is none, and otherwise it is followed by `/static/`. |
| TransferCallback.CookieHeader | history_transfer_kk/static/history_transfer_callback.php:13-14 | The cookie string is empty exactly when there are no cookies. |
| TransferCallback.CookieString | history_transfer_kk/static/history_transfer_callback.php:13-14 | The cookie loop builds the specified header. |
| TransferCallback.CookieHeaderCons | history_transfer_kk/static/history_transfer_callback.php:14 | Each cookie contributes `name=value;` in order. |
| TransferCallback.CookieRoundTrip | history_transfer_kk/static/history_transfer_callback.php:13-14 | Cookies whose names hold no `=` or `;` and whose values hold no `;` parse back from the header, in order. |
| TransferCallback.ImportFileSpec | history_transfer_kk/static/history_transfer_callback.php:25-31 | The file is the first comma-separated entry. Its name is the part after the last `/`, a suffix of it. |
| TransferCallback.TransferFieldsSpec | history_transfer_kk/static/history_transfer_callback.php:17-36 | The portal fields have distinct keys and carry the action, user and Galaxy root. For import they carry the file and its name; for export the history, its name and the directory. |
| TransferCallback.TransferFieldsDistinct | history_transfer_kk/static/history_transfer_callback.php:17-36 | No field key is repeated. |
| TransferCallback.RespondSpec | history_transfer_kk/static/history_transfer_callback.php:3-46 | Corrected (wrong-action message, see Findings). An invalid request gets its error page and no call. A valid one first fetches the webhook URL with the cookies. It posts to the portal only when the webhook replied, and redirects to the Galaxy root only when nothing failed. |
| TransferCallback.Handle | history_transfer_kk/static/history_transfer_callback.php:3-46 | Corrected (wrong-action message, see Findings). The page computes the specified response. |
| NgaRunner.RegistryDomain | bin/nga_runner.py:85-94 | Exactly the keys and names of active entries are registered, each to an instance configured under one of them. |
| NgaRunner.RegistryFinds | bin/nga_runner.py:85-94 | An active entry not shadowed later is found under its name and its key, with its API URL stripped of trailing `/`. |
| NgaRunner.BioblendError | bin/nga_runner.py:150-153 | Corrected: the tracker is marked `bioblend-error` with the message as its log. |
| NgaRunner.Trigger | bin/nga_runner.py:129-182 | Triggering an export never acks. Models the bioblend branch as intended; `TriggerAsWritten` is the code as written. |
| NgaRunner.TriggerAsWritten | bin/nga_runner.py:148-153 | As written, reaching the bioblend branch raises before anything is written. Elsewhere it behaves as `Trigger`. |
| NgaRunner.DiskSpaceGuard | bin/nga_runner.py:136-142 | Less than 30 GB free stops the trigger with `disk-space-error` and nothing else. A failed or sufficient info call does not stop it. |
| NgaRunner.TriggerSpec | bin/nga_runner.py:157-180 | A failed export writes nothing. A returned export id is written with its state, and the next step is queued exactly for `ok` or `error` with a queue. |
| NgaRunner.BioblendFailureRecorded | bin/nga_runner.py:148-153 | For an unknown instance or a failed connection, as written the tracker is untouched and `do_work` only acks. Corrected, exactly the `bioblend-error` update is written, then the ack. |
| NgaRunner.Fetch | bin/nga_runner.py:184-208 | A fetch never acks. |
| NgaRunner.FetchSpec | bin/nga_runner.py:184-208 | Every write records the archive path. `fetch-running` comes first, then `fetch-ok` with the next step queued or `fetch-error` with nothing queued. |
| NgaRunner.DestFileParts | bin/nga_runner.py:221-226 | The name part has no space. The timestamp has no `-`, `:`, space or `.digits`. |
| NgaRunner.TimestampOfDatetime | bin/nga_runner.py:221-223 | `YYYY-MM-DD hh:mm:ss[.ffffff]` becomes `YYYYMMDD_hhmmss`. |
| NgaRunner.DropSeparators | bin/nga_runner.py:221 | Dropping two separators between digit runs leaves the runs joined. |
| NgaRunner.TimestampOfParts | bin/nga_runner.py:221-223 | The date loses its dashes, the time its colons, the space becomes `_` and the tail is stripped. |
| NgaRunner.Push | bin/nga_runner.py:211-245 | A push never acks. |
| NgaRunner.PushOrder | bin/nga_runner.py:216-239 | `nels-transfer-running` comes first and nothing is queued. The archive is removed exactly when scp launched, right after `nels-transfer-ok`. |
| NgaRunner.PushOutcome | bin/nga_runner.py:233-244 | `nels-transfer-ok` is written exactly when scp launched. `nels-transfer-error` is written exactly when some step raised, even after `ok`. |
| NgaRunner.PushDestination | bin/nga_runner.py:226-235 | scp copies the archive to the destination file on the user's NeLS host. |
| NgaRunner.AckPolicy | bin/nga_runner.py:298-345 | An unparseable body is only acked. A message lacking `tracker_id` or `state`, or whose tracker is missing, raises before the ack. Every other message is acked once, last. |
| NgaRunner.DispatchByState | bin/nga_runner.py:312-333 | The message's state wins. `pre-queueing` triggers, `ok` fetches, `fetch-ok` pushes, and anything else only acks. |
| NgaRunner.Runner.constructor | bin/nga_runner.py:37-47 | No queue, no instances, `/tmp/` as the temporary directory. |
| NgaRunner.Runner.Init | bin/nga_runner.py:51-98 | URLs lose trailing `/`, the configured temporary directory wins, and the registry holds the active instances. |
| NgaRunner.Runner.ConnectQueue | bin/nga_runner.py:376-379 | Afterwards a queue is configured. |
| NgaRunner.Runner.SubmitJob | bin/nga_runner.py:101-110 | Publishes `{tracker_id, state}` with a queue, and nothing without. |
| NgaRunner.Runner.SetTracker | bin/nga_runner.py:141 | Logs one tracker update. |
| NgaRunner.Runner.RunHistoryExport | bin/nga_runner.py:129-182 | Logs exactly the effects of `Trigger`, whose bioblend branch is the corrected one, and reports whether it raised. |
| NgaRunner.Runner.RunFetchExport | bin/nga_runner.py:184-208 | Logs exactly the fetch's effects. |
| NgaRunner.Runner.RunPushExport | bin/nga_runner.py:211-245 | Logs exactly the push's effects. |
| NgaRunner.Runner.DoWork | bin/nga_runner.py:292-345 | Logs exactly `Work` for one message, with the corrected bioblend branch. |

## Left out

- Threads and AMQP. The queue is a flag plus published messages in the effect log, and the ack is the last event.
- The Blowfish cipher and hex coding. The cipher is a parameter; only its inverse property is assumed.
- Bioblend, curl, scp, rm and the master API. Their answers are oracle values, and master API writes are assumed to succeed.
- `time.sleep(sleep_time)` in `run_history_export`. `sleep_time` is never defined, so reaching the sleep raises `NameError`; the model records it as a raise.
- `mkdtemp`'s absolute-path handling. The new directory is the temp dir, `/` and a given name.
- `nels_url`, which `init` reads but never uses.
- JSON bodies that are not objects.
- A `cmds` entry that is `null`.
- PHP's loose numeric comparison of ports. Ports are compared as strings.
- SQL. Tables are in-memory sequences, and queries are filters over them.
- `datetime.now`, a parameter in whole seconds. The terms-of-service handlers read it twice, as `created` and `now`.
- Tornado routing, token checks and response plumbing beyond status and body.
- The float arithmetic of `get_info`. Free space is a real number.
- `ExportsListProxy`, `bin/nels-galaxy-light.py` and `nels_galaxy_api/api_requests.py`. They are not part of this model.
- The `eval` machinery. An expression is its compile result, its names and whether it raises.
- PHP curl and header I/O.
- The random uuid in `states.set`, a parameter.
- The e-mail regular expressions in `kbr/string_utils.py`.
- The exit statuses of curl, scp and rm, which the source ignores; the model ignores them too.
- Utils.Pad: pads the characters of the value, where `encrypt_value` pads its UTF-8 bytes. The two agree on ASCII values, which the decimal ids are; a value with other characters would get a different padding.
- Text.Lower: maps ASCII letters only. Python's `str.lower()` and PHP's `strtolower` under a non-C locale also fold other letters, so e-mail addresses with such letters may sort differently.
- NgaRunner.Runner.RunHistoryExport: runs the corrected bioblend branch. The TypeError of the code as written is modelled only by `NgaRunner.TriggerAsWritten`.
- NgaRunner.Runner.DoWork: runs the corrected bioblend branch. The code as written is modelled only by `NgaRunner.WorkAsWritten`.
- The streaming of the file in `HistoryDownload`. The model stops at the file's path.
- Api.ExportPost: the only failure modelled is the `INT` cast of `nels_id` (`Db.IntCast`). That cast ignores PostgreSQL's surrounding whitespace, and the underscores and non-decimal prefixes of PostgreSQL 16, so such texts are rejected here. Database errors of other kinds are not modelled.
- Api.HistoryExportsList: runs the corrected `Api.StateArg`. As written, a request without `state` raises `KeyError`, which Tornado answers with 500; that case is modelled only by `Api.StateArgAsWritten`.
- TransferCallback.Respond: runs the corrected `TransferCallback.Validate`. As written, the wrong-action page reads "…but got ''"; `TransferCallback.ValidateAgrees` shows that only that message differs.
- TransferCallback.RespondSpec: states the corrected page, as `TransferCallback.Respond` computes it. The as-written message is modelled only by `TransferCallback.ValidateAsWritten`.
- TransferCallback.Handle: computes the corrected page; the same gap as `TransferCallback.RespondSpec`.
- MqRunner.Callback: a main command whose launch raises is modelled as a non-zero exit status. Both raise right after that command, so the log is the same.

## Findings

| source | as written | input that shows it | evidently intended | confidence | as-written member | corrected member |
|---|---|---|---|---|---|---|
| history_transfer_kk/static/history_transfer_callback.php:4 | The wrong-action message interpolates `$action` before it is assigned, so it is always empty. | `?action=foo` and `?action=bar` give the same message. | The message names the action received. | not executed | TransferCallback.ValidateAsWritten | TransferCallback.Validate |
| bin/nga_runner.py:152 | `e['err_msg']` subscripts an exception and raises `TypeError`; `do_work` swallows it and acks, so the tracker stays `pre-queueing`. | A tracker for an unknown instance, or any failing `GalaxyInstance(...)` call. | The tracker is marked `bioblend-error`. | not executed | NgaRunner.TriggerAsWritten | NgaRunner.Trigger |
| bin/nels-galaxy-api.py:289-292 | `filter['state']` raises `KeyError` when no state is given. | `GET /history/exports/` without arguments. | An absent state means no filter. | not executed | Api.StateArgAsWritten | Api.StateArg |
