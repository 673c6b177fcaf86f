/** nels_galaxy_api/utils.py: obfuscation of database ids, Galaxy's dataset
    path layout, and the date clean-up used for display. */
module Utils {
  import opened Wrappers
  import opened Text
  import opened Json

  // ---------------------------------------------------------------------
  // Id obfuscation

  /** The Blowfish cipher in ECB mode together with the hex codec around it,
      seen as two maps on strings. Only the block structure matters here:
      the padded plaintext is a whole number of 8-byte blocks. */
  datatype Cipher = Cipher(encrypt: string -> string, decrypt: string -> string)

  /** Decryption undoes encryption on every whole number of blocks. */
  ghost predicate Invertible(c: Cipher) {
    forall s :: |s| % 8 == 0 ==> c.decrypt(c.encrypt(s)) == s
  }

  function Bangs(n: nat): (s: string)
    ensures |s| == n && forall i :: 0 <= i < n ==> s[i] == '!'
  {
    seq(n, _ => '!')
  }

  /** The plaintext handed to the cipher: between one and eight `!` in front
      of the value, so that the length is a positive multiple of 8. */
  function Pad(value: string): (p: string)
    ensures |p| % 8 == 0 && |value| < |p| <= |value| + 8
    ensures p[|p| - |value|..] == value
    ensures forall i :: 0 <= i < |p| - |value| ==> p[i] == '!'
  {
    Bangs(8 - |value| % 8) + value
  }

  /** Python's `s.lstrip(c)`. */
  function LStrip(s: string, c: char): (r: string)
    ensures |r| <= |s| && r == s[|s| - |r|..]
    ensures r == [] || r[0] != c
    ensures forall i :: 0 <= i < |s| - |r| ==> s[i] == c
  {
    if s != [] && s[0] == c then LStrip(s[1..], c) else s
  }

  /** `encrypt_value`: the value (already in its `str` form) is padded and
      encrypted. */
  function EncryptValue(c: Cipher, value: string): string
  {
    c.encrypt(Pad(value))
  }

  /** `decrypt_value`: decryption followed by removal of every leading `!`. */
  function DecryptValue(c: Cipher, value: string): string
  {
    LStrip(c.decrypt(value), '!')
  }

  lemma {:induction false} LStripBangs(n: nat, value: string)
    requires value == [] || value[0] != '!'
    ensures LStrip(Bangs(n) + value, '!') == value
    decreases n
  {
    if n > 0 {
      assert (Bangs(n) + value)[1..] == Bangs(n - 1) + value;
    } else {
      assert Bangs(0) + value == value;
    }
    if n > 0 {
      LStripBangs(n - 1, value);
    }
  }

  /** Round trip: a value that does not start with `!` comes back unchanged. */
  lemma DecryptEncrypt(c: Cipher, value: string)
    requires Invertible(c)
    requires value == [] || value[0] != '!'
    ensures DecryptValue(c, EncryptValue(c, value)) == value
  {
    var p := Pad(value);
    assert c.decrypt(c.encrypt(p)) == p;
    LStripBangs(8 - |value| % 8, value);
  }

  /** ... while leading `!` of the value itself are lost on the way back. */
  lemma DecryptEncryptLosesLeadingBangs(c: Cipher)
    requires Invertible(c)
    ensures DecryptValue(c, EncryptValue(c, "!7")) == "7"
  {
    var p := Pad("!7");
    assert c.decrypt(c.encrypt(p)) == p;
    assert p == Bangs(6) + "!" + "7";
    assert p == Bangs(7) + "7";
    LStripBangs(7, "7");
  }

  // ---------------------------------------------------------------------
  // Galaxy's directory layout for dataset files

  function Concat(parts: seq<string>): string
  {
    if parts == [] then "" else Concat(parts[..|parts| - 1]) + parts[|parts| - 1]
  }

  function Zeros(n: nat): (s: string)
    ensures |s| == n && forall i :: 0 <= i < n ==> s[i] == '0'
  {
    seq(n, _ => '0')
  }

  /** `[s[i*3:(i+1)*3] for i in range(len(s) // 3)]` for a length that is a
      multiple of three. */
  function Chunks3(s: string): (r: seq<string>)
    requires |s| % 3 == 0
    ensures |r| == |s| / 3
    ensures forall i :: 0 <= i < |r| ==> r[i] == s[3 * i..3 * i + 3]
  {
    seq(|s| / 3, i requires 0 <= i < |s| / 3 => s[3 * i..3 * i + 3])
  }

  lemma {:induction false} ConcatChunks3(s: string)
    requires |s| % 3 == 0
    ensures Concat(Chunks3(s)) == s
    decreases |s|
  {
    if s != [] {
      var s' := s[..|s| - 3];
      var r := Chunks3(s);
      ConcatChunks3(s');
      forall i | 0 <= i < |r| - 1 ensures r[i] == Chunks3(s')[i] {
        assert s'[3 * i..3 * i + 3] == s[3 * i..3 * i + 3];
      }
      assert r[..|r| - 1] == Chunks3(s');
      assert s == s' + s[|s| - 3..];
    }
  }

  /** `directory_hash_id`: the id's decimal string is zero-padded to a
      multiple of three (by a whole extra `000` when it already is one), its
      last three digits are dropped and the rest is cut into directories of
      three characters; ids of up to three digits live under `000`. */
  function DirectoryHashId(id: string): (r: seq<string>)
    ensures |id| < 4 ==> r == ["000"]
    ensures forall i :: 0 <= i < |r| ==> |r[i]| == 3
    ensures |id| >= 4 ==> |r| == (|id| + 3 - |id| % 3) / 3 - 1
  {
    if |id| < 4 then ["000"]
    else
      var padded := Zeros(3 - |id| % 3) + id;
      Chunks3(padded[..|padded| - 3])
  }

  /** The directories followed by the last three digits spell the padded id. */
  lemma DirectoryHashIdSpells(id: string)
    requires |id| >= 4
    ensures Concat(DirectoryHashId(id)) + id[|id| - 3..] == Zeros(3 - |id| % 3) + id
  {
    var padded := Zeros(3 - |id| % 3) + id;
    ConcatChunks3(padded[..|padded| - 3]);
    assert padded[..|padded| - 3] + id[|id| - 3..] == padded;
  }

  /** Python's `os.path.join(a, b)` for a relative `b`. */
  function PathJoin(a: string, b: string): (p: string)
    ensures |p| >= |b| && p[|p| - |b|..] == b
  {
    if a == [] || a[|a| - 1] == '/' then a + b else a + "/" + b
  }

  /** `os.path.join(*parts)`. */
  function JoinAll(parts: seq<string>): string
    requires parts != []
  {
    if |parts| == 1 then parts[0] else PathJoin(JoinAll(parts[..|parts| - 1]), parts[|parts| - 1])
  }

  function DatasetFile(id: string): string { "dataset_" + id + ".dat" }

  /** The current layout: `<base>/<dirs of the hashed id>/dataset_<id>.dat`. */
  function HashedPath(base: string, id: string): (p: string)
    ensures |p| >= |DatasetFile(id)| && p[|p| - |DatasetFile(id)|..] == DatasetFile(id)
  {
    PathJoin(PathJoin(base, JoinAll(DirectoryHashId(id))), DatasetFile(id))
  }

  /** The old flat layout: `<base>/dataset_<id>.dat`. */
  function FlatPath(base: string, id: string): (p: string)
    ensures |p| >= |DatasetFile(id)| && p[|p| - |DatasetFile(id)|..] == DatasetFile(id)
  {
    PathJoin(base, DatasetFile(id))
  }

  /** What `construct_file_path` asks of the file system: whether a path is a
      file, and the first file of a given name below a directory. */
  datatype FileSystem = FileSystem(isFile: string -> bool, findFirst: (string, string) -> Option<string>)

  /** The directory search only ever reports files with the name searched for. */
  ghost predicate SearchFindsName(fs: FileSystem) {
    forall name, dir :: fs.findFirst(name, dir).Some? ==>
      |fs.findFirst(name, dir).value| >= |name| &&
      fs.findFirst(name, dir).value[|fs.findFirst(name, dir).value| - |name|..] == name
  }

  /** `construct_file_path`: the hashed path, then the flat path, then a
      search below the base directory; a `RuntimeError` when all three fail. */
  function ConstructFilePath(fs: FileSystem, id: string, base: string): Result<string>
  {
    if fs.isFile(HashedPath(base, id)) then Ok(HashedPath(base, id))
    else if fs.isFile(FlatPath(base, id)) then Ok(FlatPath(base, id))
    else match fs.findFirst(DatasetFile(id), base)
      case Some(p) => Ok(p)
      case None => Err("Cannot find dataset: '" + DatasetFile(id) + "'")
  }

  /** The path found names the dataset file, and the lookup fails exactly
      when none of the three candidates exists. */
  lemma ConstructFilePathSpec(fs: FileSystem, id: string, base: string)
    ensures var r := ConstructFilePath(fs, id, base);
      r.Ok? && SearchFindsName(fs) ==>
      |r.value| >= |DatasetFile(id)| && r.value[|r.value| - |DatasetFile(id)|..] == DatasetFile(id)
    ensures ConstructFilePath(fs, id, base).Err? <==>
      !fs.isFile(HashedPath(base, id)) && !fs.isFile(FlatPath(base, id)) && fs.findFirst(DatasetFile(id), base).None?
  {
    if SearchFindsName(fs) && ConstructFilePath(fs, id, base).Ok? {
      ConstructFilePathNamesFile(fs, id, base);
    }
    ConstructFilePathFails(fs, id, base);
  }

  lemma ConstructFilePathNamesFile(fs: FileSystem, id: string, base: string)
    requires SearchFindsName(fs) && ConstructFilePath(fs, id, base).Ok?
    ensures var p := ConstructFilePath(fs, id, base).value;
      |p| >= |DatasetFile(id)| && p[|p| - |DatasetFile(id)|..] == DatasetFile(id)
  {
    var name := DatasetFile(id);
    if !fs.isFile(HashedPath(base, id)) && !fs.isFile(FlatPath(base, id)) {
      SearchEndsWithName(fs, name, base);
    }
  }

  lemma ConstructFilePathFails(fs: FileSystem, id: string, base: string)
    ensures ConstructFilePath(fs, id, base).Err? <==>
      !fs.isFile(HashedPath(base, id)) && !fs.isFile(FlatPath(base, id)) && fs.findFirst(DatasetFile(id), base).None?
  {
  }

  lemma SearchEndsWithName(fs: FileSystem, name: string, dir: string)
    requires SearchFindsName(fs) && fs.findFirst(name, dir).Some?
    ensures var p := fs.findFirst(name, dir).value; |p| >= |name| && p[|p| - |name|..] == name
  {
  }

  /** The lookup order: an earlier candidate that exists always wins. */
  lemma ConstructFilePathOrder(fs: FileSystem, id: string, base: string)
    ensures fs.isFile(HashedPath(base, id)) ==> ConstructFilePath(fs, id, base) == Ok(HashedPath(base, id))
    ensures !fs.isFile(HashedPath(base, id)) && fs.isFile(FlatPath(base, id)) ==>
      ConstructFilePath(fs, id, base) == Ok(FlatPath(base, id))
  {
  }

  // ---------------------------------------------------------------------
  // Obfuscation of the ids in API results

  /** The key rule of `encrypt_ids`: `nels_id` is never touched, `id` always
      is, and any other key containing `_id` only when its value is an int. */
  predicate EncryptsKey(key: string, v: Value) {
    key != "nels_id" && (key == "id" || (HasInfix(key, "_id") && IsPyInt(v)))
  }

  function EncryptField(c: Cipher, f: Field): (g: Field)
    ensures g.key == f.key
  {
    if EncryptsKey(f.key, f.val) then Field(f.key, VStr(EncryptValue(c, Str(f.val)))) else f
  }

  /** What `encrypt_ids` turns a value into: a dict gets its id fields
      encrypted, a list has each element treated in turn, and anything else
      raises. */
  function EncryptedIds(c: Cipher, v: Value): Result<Value>
    decreases v, 1, 0
  {
    match v
    case VList(items) =>
      (match EncryptedItems(c, v, 0)
       case Ok(xs) => Ok(VList(xs))
       case Err(e) => Err(e))
    case VDict(fields) =>
      Ok(VDict(seq(|fields|, k requires 0 <= k < |fields| => EncryptField(c, fields[k]))))
    case _ => Err("Cannot change ids in " + Str(v))
  }

  /** The elements of the list `v` from position `k` on. */
  function EncryptedItems(c: Cipher, v: Value, k: nat): Result<seq<Value>>
    requires v.VList? && k <= |v.items|
    decreases v, 0, |v.items| - k
  {
    if k == |v.items| then Ok([])
    else match EncryptedIds(c, v.items[k])
      case Err(e) => Err(e)
      case Ok(x) =>
        match EncryptedItems(c, v, k + 1)
        case Err(e) => Err(e)
        case Ok(xs) => Ok([x] + xs)
  }

  /** Values `encrypt_ids` accepts: dicts, and lists of accepted values. */
  predicate Accepted(v: Value)
    decreases v
  {
    match v
    case VDict(_) => true
    case VList(items) => forall k :: 0 <= k < |items| ==> Accepted(items[k])
    case _ => false
  }

  lemma {:induction false} EncryptedItemsShape(c: Cipher, v: Value, k: nat)
    requires v.VList? && k <= |v.items|
    ensures EncryptedItems(c, v, k).Ok? <==> forall j :: k <= j < |v.items| ==> Accepted(v.items[j])
    ensures EncryptedItems(c, v, k).Ok? ==> |EncryptedItems(c, v, k).value| == |v.items| - k
    decreases v, 0, |v.items| - k
  {
    if k < |v.items| {
      EncryptedIdsShape(c, v.items[k]);
      EncryptedItemsShape(c, v, k + 1);
    }
  }

  /** Element `j` of an accepted list is encrypted on its own. */
  lemma {:induction false} EncryptedItemsAt(c: Cipher, v: Value, k: nat, j: nat)
    requires v.VList? && k <= j < |v.items| && EncryptedItems(c, v, k).Ok?
    ensures EncryptedIds(c, v.items[j]).Ok? && |EncryptedItems(c, v, k).value| > j - k
    ensures EncryptedItems(c, v, k).value[j - k] == EncryptedIds(c, v.items[j]).value
    decreases j - k
  {
    if k < j {
      EncryptedItemsAt(c, v, k + 1, j);
    }
  }

  /** `encrypt_ids` raises exactly on values that are not dicts or lists of
      such, and keeps the length of every list. */
  lemma {:induction false} EncryptedIdsShape(c: Cipher, v: Value)
    ensures EncryptedIds(c, v).Ok? <==> Accepted(v)
    ensures EncryptedIds(c, v).Ok? && v.VList? ==>
      EncryptedIds(c, v).value.VList? && |EncryptedIds(c, v).value.items| == |v.items|
    decreases v, 1, 0
  {
    if v.VList? {
      EncryptedItemsShape(c, v, 0);
    }
  }

  /** Empty dicts and lists come back unchanged. */
  lemma EncryptedIdsEmpty(c: Cipher)
    ensures EncryptedIds(c, VDict([])) == Ok(VDict([]))
    ensures EncryptedIds(c, VList([])) == Ok(VList([]))
  {
    assert |EncryptedIds(c, VDict([])).value.fields| == 0;
  }

  /** The key rule: keys and their order are kept; `nels_id` and values
      under keys without `_id` are untouched; `id` is always encrypted. */
  lemma EncryptedDictFields(c: Cipher, fields: seq<Field>, k: nat)
    requires k < |fields|
    ensures EncryptedIds(c, VDict(fields)).Ok?
    ensures |EncryptedIds(c, VDict(fields)).value.fields| == |fields|
    ensures EncryptedIds(c, VDict(fields)).value.fields[k].key == fields[k].key
    ensures fields[k].key == "nels_id" || (!HasInfix(fields[k].key, "_id") && fields[k].key != "id") ==>
      EncryptedIds(c, VDict(fields)).value.fields[k] == fields[k]
    ensures fields[k].key == "id" ==>
      EncryptedIds(c, VDict(fields)).value.fields[k].val == VStr(EncryptValue(c, Str(fields[k].val)))
    ensures fields[k].key != "id" && !IsPyInt(fields[k].val) ==>
      EncryptedIds(c, VDict(fields)).value.fields[k] == fields[k]
  {
  }

  /** An int id that `encrypt_ids` obfuscated decrypts back to its decimal
      string. */
  lemma EncryptedIntIdDecrypts(c: Cipher, fields: seq<Field>, k: nat)
    requires Invertible(c)
    requires k < |fields| && IsPyInt(fields[k].val) && EncryptsKey(fields[k].key, fields[k].val)
    ensures EncryptedIds(c, VDict(fields)).value.fields[k].val.VStr?
    ensures DecryptValue(c, EncryptedIds(c, VDict(fields)).value.fields[k].val.s) == Str(fields[k].val)
  {
    IntStrHasNoBang(fields[k].val);
    DecryptEncrypt(c, Str(fields[k].val));
  }

  /** The loop of `encrypt_ids` over the keys of one dict, updating each
      entry in place. */
  method EncryptDictIds(c: Cipher, fields: seq<Field>) returns (r: seq<Field>)
    ensures VDict(r) == EncryptedIds(c, VDict(fields)).value
  {
    r := fields;
    var k := 0;
    while k < |r|
      invariant 0 <= k <= |r| == |fields|
      invariant forall j :: 0 <= j < k ==> r[j] == EncryptField(c, fields[j])
      invariant forall j :: k <= j < |r| ==> r[j] == fields[j]
    {
      var f := r[k];
      assert f == fields[k];
      if f.key == "nels_id" {
        k := k + 1;
        continue;
      }
      if f.key == "id" || (HasInfix(f.key, "_id") && IsPyInt(f.val)) {
        r := r[k := Field(f.key, VStr(EncryptValue(c, Str(f.val))))];
      }
      k := k + 1;
    }
    EncryptedDictPointwise(c, fields, r);
  }

  /** A dict whose fields are the original ones, each encrypted on its own,
      is what `encrypt_ids` gives. */
  lemma EncryptedDictPointwise(c: Cipher, fields: seq<Field>, r: seq<Field>)
    requires |r| == |fields| && forall j :: 0 <= j < |r| ==> r[j] == EncryptField(c, fields[j])
    ensures VDict(r) == EncryptedIds(c, VDict(fields)).value
  {
    var e := EncryptedIds(c, VDict(fields)).value.fields;
    assert |e| == |r| && forall j :: 0 <= j < |r| ==> r[j] == e[j];
  }

  /** `encrypt_ids`. */
  method EncryptIds(c: Cipher, entry: Value) returns (r: Result<Value>)
    ensures r == EncryptedIds(c, entry)
    decreases entry, 1
  {
    if entry.VList? {
      r := ListEncryptIds(c, entry);
      return;
    }
    if entry == VList([]) || entry == VDict([]) {
      EncryptedIdsEmpty(c);
      return Ok(entry);
    }
    if entry.VDict? {
      var fields := EncryptDictIds(c, entry.fields);
      r := Ok(VDict(fields));
    } else {
      r := Err("Cannot change ids in " + Str(entry));
    }
  }

  /** `list_encrypt_ids`: every element is treated in turn; the first
      element that raises ends the walk. */
  method ListEncryptIds(c: Cipher, entries: Value) returns (r: Result<Value>)
    requires entries.VList?
    ensures r == EncryptedIds(c, entries)
    decreases entries, 0
  {
    var done: seq<Value> := [];
    var k := 0;
    assert EncryptedItems(c, entries, 0).Ok? ==> [] + EncryptedItems(c, entries, 0).value == EncryptedItems(c, entries, 0).value;
    while k < |entries.items|
      invariant 0 <= k <= |entries.items|
      invariant EncryptedItems(c, entries, 0) ==
        if EncryptedItems(c, entries, k).Ok? then Ok(done + EncryptedItems(c, entries, k).value)
        else EncryptedItems(c, entries, k)
    {
      var x := EncryptIds(c, entries.items[k]);
      if x.Err? {
        return Err(x.error);
      }
      ghost var rest := EncryptedItems(c, entries, k + 1);
      assert rest.Ok? ==> EncryptedItems(c, entries, k) == Ok([x.value] + rest.value);
      assert rest.Ok? ==> done + ([x.value] + rest.value) == (done + [x.value]) + rest.value;
      done := done + [x.value];
      k := k + 1;
    }
    assert done + [] == done;
    r := Ok(VList(done));
  }

  // ---------------------------------------------------------------------
  // Dates for display

  /** `readable_date`: `None` stays `None`; otherwise `T` becomes a space and
      every `.digits` fragment is removed. */
  function ReadableDate(timestamp: Option<string>): (r: Option<string>)
    ensures r.None? <==> timestamp.None?
    ensures r.Some? ==> 'T' !in r.value && NoFraction(r.value)
    ensures r.Some? ==> |r.value| <= |timestamp.value|
  {
    match timestamp
    case None => None
    case Some(t) =>
      ReplaceCharChars(t, 'T', " ");
      StripFractionsChars(ReplaceChar(t, 'T', " "));
      Some(StripFractions(ReplaceChar(t, 'T', " ")))
  }

  /** The `T` of an ISO timestamp is the only one replaced. */
  lemma ReplaceIsoT(date: string, time: string, frac: string)
    requires 'T' !in date && 'T' !in time && AllDigits(frac)
    ensures ReplaceChar(date + "T" + time + "." + frac, 'T', " ") == date + " " + time + ("." + frac)
  {
    var tail := time + ("." + frac);
    assert 'T' !in tail by {
      forall k | 0 <= k < |tail| ensures tail[k] != 'T' {
        if k > |time| { assert tail[k] == frac[k - |time| - 1]; }
      }
    }
    assert date + "T" + time + "." + frac == date + ['T'] + tail;
    ReplaceCharOnce(date, tail, 'T', " ");
    assert date + " " + tail == date + " " + time + ("." + frac);
  }

  /** An ISO timestamp `<date>T<time>.<digits>` is shown as `<date> <time>`. */
  lemma ReadableDateOfIso(date: string, time: string, frac: string)
    requires 'T' !in date && 'T' !in time && '.' !in date && '.' !in time
    requires frac != [] && AllDigits(frac)
    ensures ReadableDate(Some(date + "T" + time + "." + frac)) == Some(date + " " + time)
  {
    ReplaceIsoT(date, time, frac);
    var kept := date + " " + time;
    assert NoFraction(kept) by { assert '.' !in kept; }
    assert kept[|kept| - 1] != '.' by { assert kept[|kept| - 1] in kept; }
    StripFractionsClean(kept, "." + frac);
    StripFractionsFraction(frac);
    assert kept + [] == kept;
  }
}
