/**
 * The option service: the `options` table, the in-memory cache with its
 * `cacheLoaded` flag, the snapshot file the cache is saved to, and the
 * value codecs.
 *
 * The snapshot file is a field holding the cache it was written from, or
 * nothing when no file exists. A missing `options` table (before the
 * migrations ran) is a table of `None`; a statement on it fails, which the
 * operations report by returning false. JSON text is produced and read by
 * an encoder and decoder given to the service.
 */
module OptionService {
  import opened Php

  /** `json_encode` and `json_decode`, whose workings are not part of this model. */
  datatype Json = Json(encode: Value -> string, decode: string -> Value)

  /** A row of the `options` table, a NULL column being `None`. */
  datatype OptionRow = OptionRow(
    value: Option<string>,
    valueType: Option<string>,
    group: Option<string>,
    caption: Option<string>,
    description: Option<string>,
    sortOrder: Option<int>,
    updatedAt: Option<int>)

  /**
   * A cache entry: the decoded value and the row's other columns; an entry
   * written by `set` carries only the value and the date.
   */
  datatype Entry = Entry(
    value: Value,
    valueType: Option<string>,
    group: Option<string>,
    caption: Option<string>,
    description: Option<string>,
    sortOrder: Option<int>,
    updatedAt: Option<int>)

  // ---------------------------------------------------------------- the codecs

  /** `encodeValue`: arrays as JSON, booleans as "1" or "0", everything else as PHP's string cast. */
  function EncodeValue(json: Json, v: Value): (s: string)
    ensures v.VBool? ==> s == (if v.b then "1" else "0")
    ensures v.VInt? ==> s == IntToString(v.i)
    ensures v.VStr? ==> s == v.s
    ensures v.VList? ==> s == json.encode(v)
    ensures v == VNull ==> s == ""
  {
    match v
    case VList(_) => json.encode(v)
    case VBool(b) => if b then "1" else "0"
    case _ => ToStr(v)
  }

  /** `decodeValue`: null stays null; otherwise the text is read according to the option's type. */
  function DecodeValue(json: Json, value: Option<string>, kind: string): (v: Value)
    ensures value.None? ==> v == VNull
    ensures value.Some? && kind == "boolean" ==> v == VBool(value.value in {"1", "true"})
    ensures value.Some? && kind == "integer" ==> v.VInt? && IsInt64(v.i)
    ensures value.Some? && kind == "json" ==> v == json.decode(value.value)
    ensures value.Some? && kind !in {"boolean", "integer", "json"} ==> v == VStr(value.value)
  {
    match value
    case None => VNull
    case Some(s) =>
      match kind
      case "boolean" => VBool(s == "1" || s == "true")
      case "integer" => VInt(StrToInt(s))
      case "json" => json.decode(s)
      case _ => VStr(s)
  }

  /** A null column decodes to null whatever the type. */
  lemma DecodeNull(json: Json, kind: string)
    ensures DecodeValue(json, None, kind) == VNull
  {
  }

  /** Booleans survive storage as "1" and "0". */
  lemma BooleanRoundTrip(json: Json, b: bool)
    ensures EncodeValue(json, VBool(b)) == (if b then "1" else "0")
    ensures DecodeValue(json, Some(EncodeValue(json, VBool(b))), "boolean") == VBool(b)
  {
  }

  /** Integers survive storage as their decimal text. */
  lemma IntegerRoundTrip(json: Json, n: int)
    requires IsInt64(n)
    ensures DecodeValue(json, Some(EncodeValue(json, VInt(n))), "integer") == VInt(n)
  {
    StrToIntRoundTrip(n);
  }

  /** Strings are stored as they are and come back unchanged under the string, text and image types. */
  lemma TextRoundTrip(json: Json, s: string, kind: string)
    requires kind == "string" || kind == "text" || kind == "image"
    ensures EncodeValue(json, VStr(s)) == s
    ensures DecodeValue(json, Some(EncodeValue(json, VStr(s))), kind) == VStr(s)
  {
  }

  /** The value of a type the decoder does not know comes back as the stored text. */
  lemma UnknownTypeIsText(json: Json, s: string, kind: string)
    requires kind !in {"boolean", "integer", "json"}
    ensures DecodeValue(json, Some(s), kind) == VStr(s)
  {
  }

  /** The boolean decoder also reads "true", but any other text, "yes" and "on" included, is false. */
  lemma BooleanText(json: Json)
    ensures DecodeValue(json, Some("true"), "boolean") == VBool(true)
    ensures DecodeValue(json, Some("yes"), "boolean") == VBool(false)
    ensures DecodeValue(json, Some("on"), "boolean") == VBool(false)
  {
  }

  // ---------------------------------------------------------------- the cache

  /** The entry `loadFromDatabase` builds from the row stored under `key`. */
  function EntryOf(json: Json, key: string, row: OptionRow): (e: Entry)
    ensures e.valueType == Some(row.valueType.GetOr("string"))
    ensures e.value == DecodeValue(json, row.value, row.valueType.GetOr("string"))
    ensures e.group == Some(row.group.GetOr("general")) && e.caption == Some(row.caption.GetOr(key))
  {
    var kind := row.valueType.GetOr("string");
    Entry(DecodeValue(json, row.value, kind), Some(kind), Some(row.group.GetOr("general")),
          Some(row.caption.GetOr(key)), Some(row.description.GetOr("")), Some(row.sortOrder.GetOr(0)), row.updatedAt)
  }

  /** The cache a load from the table builds: one entry per row. */
  function FromRows(json: Json, rows: map<string, OptionRow>): (cache: map<string, Entry>)
    ensures cache.Keys == rows.Keys
    ensures forall k :: k in cache ==> cache[k] == EntryOf(json, k, rows[k])
  {
    map k | k in rows :: EntryOf(json, k, rows[k])
  }

  /** The group an entry is listed under: its `group_name`, "general" when it has none. */
  function GroupOf(e: Entry): string
  {
    e.group.GetOr("general")
  }

  /** `get` over a cache: the entry's value, the default when the key has none. */
  function Lookup(cache: map<string, Entry>, key: string, default: Value): Value
  {
    if key in cache then cache[key].value else default
  }

  /** The entry `set` puts in the cache: the value and the date, and none of the row's other columns. */
  function Written(value: Value, now: int): (e: Entry)
    ensures e.value == value && e.group.None?
  {
    Entry(value, None, None, None, None, None, Some(now))
  }

  /** An option `set` rewrites leaves its group for "general" in the cache. */
  lemma SetMovesToGeneral(cache: map<string, Entry>, key: string, value: Value, now: int)
    requires key in cache && GroupOf(cache[key]) != "general"
    ensures GroupOf(cache[key := Written(value, now)][key]) == "general"
    ensures GroupOf(cache[key := Written(value, now)][key]) != GroupOf(cache[key])
  {
  }

  /**
   * The table and the options seen after `set` writes `value` under `key`,
   * from the table `db` and the options seen `view`: nothing changes when
   * the statement fails (no table, or an insertion of a key the table
   * holds); otherwise the row is updated or inserted and the entry replaced.
   */
  function SetOn(json: Json, db: Option<map<string, OptionRow>>, view: map<string, Entry>, key: string, value: Value, now: int)
    : (r: (Option<map<string, OptionRow>>, map<string, Entry>))
    ensures db.None? || (key !in view && key in db.value) ==> r == (db, view)
    ensures db.Some? && (key in view || key !in db.value) ==>
      && r.0.Some? && r.1 == view[key := Written(value, now)]
      && (key in r.0.value <==> key in db.value || key !in view)
      && (key in r.0.value ==> r.0.value[key].value == Some(EncodeValue(json, value)))
      && (forall k :: k != key ==> (k in r.0.value <==> k in db.value) && (k in db.value ==> r.0.value[k] == db.value[k]))
  {
    if db.None? || (key !in view && key in db.value) then (db, view)
    else
      var rows := db.value;
      var written := Some(EncodeValue(json, value));
      var after := if key in view then
                     (if key in rows then rows[key := rows[key].(value := written, updatedAt := Some(now))] else rows)
                   else rows[key := OptionRow(written, None, None, None, None, None, Some(now))];
      (Some(after), view[key := Written(value, now)])
  }

  class Service {
    /** The JSON encoder and decoder. */
    const json: Json
    /** The `options` table, `None` while it does not exist. */
    var db: Option<map<string, OptionRow>>
    /** `$cache`. */
    var cache: map<string, Entry>
    /** `$cacheLoaded`. */
    var loaded: bool
    /** The snapshot file, `None` while there is none. */
    var file: Option<map<string, Entry>>

    /** The cache is empty until it is loaded. */
    ghost predicate Valid()
      reads this`cache, this`loaded
    {
      !loaded ==> cache == map[]
    }

    constructor(codec: Json, table: Option<map<string, OptionRow>>, snapshot: Option<map<string, Entry>>)
      ensures json == codec && db == table && file == snapshot
      ensures cache == map[] && !loaded && Valid()
    {
      json := codec;
      db := table;
      file := snapshot;
      cache := map[];
      loaded := false;
    }

    /**
     * The options as the next access sees them: the cache once loaded, else
     * the snapshot file when there is one, else the table.
     */
    ghost function View(): map<string, Entry>
      reads this`cache, this`loaded, this`file, this`db
    {
      if loaded then cache
      else if file.Some? then file.value
      else if db.Some? then FromRows(json, db.value)
      else map[]
    }

    /** What `loadCache` does: the view becomes the cache, a load from the table writing the snapshot. */
    twostate predicate Reloaded()
      reads this
    {
      && Valid() && loaded && cache == old(View()) && db == old(db)
      && file == (if !old(loaded) && old(file).None? && db.Some? then Some(cache) else old(file))
    }

    /** `loadFromDatabase`: one entry per row and a new snapshot; an empty cache when the table is missing. */
    method LoadFromDatabase()
      modifies this`cache, this`loaded, this`file
      ensures loaded
      ensures db.Some? ==> cache == FromRows(json, db.value) && file == Some(cache)
      ensures db.None? ==> cache == map[] && file == old(file)
    {
      if db.None? {
        cache := map[];
        loaded := true;
        return;
      }
      var rows := db.value;
      cache := map[];
      var todo := rows.Keys;
      while todo != {}
        invariant todo <= rows.Keys
        invariant cache == map k | k in rows.Keys - todo :: EntryOf(json, k, rows[k])
        decreases todo
      {
        HasKey(todo);
        var k :| k in todo;
        cache := cache[k := EntryOf(json, k, rows[k])];
        todo := todo - {k};
      }
      loaded := true;
      file := Some(cache);
    }

    /** `loadCache`: nothing once loaded; else the snapshot when there is one, else the table. */
    method LoadCache()
      requires Valid()
      modifies this`cache, this`loaded, this`file
      ensures Reloaded()
    {
      if loaded {
        return;
      }
      if file.Some? {
        cache := file.value;
        loaded := true;
        return;
      }
      LoadFromDatabase();
    }

    /** `get`: the cached value, the default when the key has no entry. */
    method Get(key: string, default: Value) returns (v: Value)
      requires Valid()
      modifies this`cache, this`loaded, this`file
      ensures Reloaded()
      ensures v == Lookup(old(View()), key, default)
    {
      LoadCache();
      if key !in cache {
        return default;
      }
      v := cache[key].value;
    }

    /** `has`. */
    method Has(key: string) returns (b: bool)
      requires Valid()
      modifies this`cache, this`loaded, this`file
      ensures Reloaded()
      ensures b <==> key in old(View())
    {
      LoadCache();
      b := key in cache;
    }

    /**
     * `set`: the row is updated when the cache has the key and inserted
     * otherwise, then the cache entry is replaced and the snapshot written.
     * The statement fails on a missing table, and the insertion on a key the
     * table already holds.
     */
    method Set(key: string, value: Value, now: int) returns (ok: bool)
      requires Valid()
      modifies this`cache, this`loaded, this`file, this`db
      ensures Valid() && loaded
      ensures ok <==> old(db).Some? && (key in old(View()) || key !in old(db).value)
      ensures !ok ==> db == old(db) && cache == old(View())
      ensures ok ==> cache == old(View())[key := Written(value, now)] && file == Some(cache)
      ensures ok && key in old(View()) ==>
        db == Some(if key in old(db).value
                   then old(db).value[key := old(db).value[key].(value := Some(EncodeValue(json, value)), updatedAt := Some(now))]
                   else old(db).value)
      ensures ok && key !in old(View()) ==>
        db == Some(old(db).value[key := OptionRow(Some(EncodeValue(json, value)), None, None, None, None, None, Some(now))])
      ensures ok ==> Lookup(View(), key, VNull) == value
      ensures ok ==> forall k :: k != key ==> Lookup(View(), k, VNull) == Lookup(old(View()), k, VNull)
      ensures (db, View()) == SetOn(json, old(db), old(View()), key, value, now)
    {
      LoadCache();
      if db.None? {
        return false;
      }
      var rows := db.value;
      if key in cache {
        if key in rows {
          db := Some(rows[key := rows[key].(value := Some(EncodeValue(json, value)), updatedAt := Some(now))]);
        }
      } else {
        if key in rows {
          return false;
        }
        db := Some(rows[key := OptionRow(Some(EncodeValue(json, value)), None, None, None, None, None, Some(now))]);
      }
      cache := cache[key := Written(value, now)];
      file := Some(cache);
      ok := true;
    }

    /** `getByGroup`: the value of every cached option whose group is `group`. */
    method GetByGroup(group: string) returns (result: map<string, Value>)
      requires Valid()
      modifies this`cache, this`loaded, this`file
      ensures Reloaded()
      ensures result.Keys == set k | k in cache && GroupOf(cache[k]) == group
      ensures forall k :: k in result ==> result[k] == cache[k].value
    {
      LoadCache();
      result := map[];
      var todo := cache.Keys;
      label Loaded:
      while todo != {}
        invariant unchanged@Loaded(this)
        invariant todo <= cache.Keys
        invariant result.Keys == set k | k in cache.Keys - todo && GroupOf(cache[k]) == group
        invariant forall k :: k in result ==> result[k] == cache[k].value
        decreases todo
      {
        HasKey(todo);
        var k :| k in todo;
        if GroupOf(cache[k]) == group {
          result := result[k := cache[k].value];
        }
        todo := todo - {k};
      }
    }

    /** `all`: the value of every cached option. */
    method All() returns (result: map<string, Value>)
      requires Valid()
      modifies this`cache, this`loaded, this`file
      ensures Reloaded()
      ensures result.Keys == cache.Keys
      ensures forall k :: k in result ==> result[k] == cache[k].value
    {
      LoadCache();
      result := map[];
      var todo := cache.Keys;
      label Loaded:
      while todo != {}
        invariant unchanged@Loaded(this)
        invariant todo <= cache.Keys
        invariant result.Keys == cache.Keys - todo
        invariant forall k :: k in result ==> result[k] == cache[k].value
        decreases todo
      {
        HasKey(todo);
        var k :| k in todo;
        result := result[k := cache[k].value];
        todo := todo - {k};
      }
    }

    /**
     * `delete`: the row goes, the entry goes from the cache as it stands and
     * the snapshot is rewritten from it. The cache is not loaded first, so
     * on a cache not yet loaded the snapshot written is empty and the next
     * access sees no option at all.
     */
    method Delete(key: string) returns (ok: bool)
      requires Valid()
      modifies this`cache, this`file, this`db
      ensures Valid() && loaded == old(loaded)
      ensures ok <==> old(db).Some?
      ensures !ok ==> db == old(db) && cache == old(cache) && file == old(file)
      ensures ok ==> db == Some(old(db).value - {key}) && cache == old(cache) - {key} && file == Some(cache)
      ensures ok ==> key !in View()
      ensures ok && old(loaded) ==> View() == old(View()) - {key}
      ensures ok && !old(loaded) ==> View() == map[]
    {
      if db.None? {
        return false;
      }
      db := Some(db.value - {key});
      cache := cache - {key};
      file := Some(cache);
      ok := true;
    }

    /** `clearCache`: the cache is emptied and unloaded and the snapshot removed, so the next access reads the table. */
    method ClearCache()
      modifies this`cache, this`loaded, this`file
      ensures Valid() && !loaded && cache == map[] && file.None?
      ensures View() == if db.Some? then FromRows(json, db.value) else map[]
    {
      cache := map[];
      loaded := false;
      file := None;
    }
  }
}
