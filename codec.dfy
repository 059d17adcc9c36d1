/** The result codec: `load`, `_empty` and `_load_to_model`
    (trod/model_/core.py, lines 300-337), and the execution outcome
    `ExecResults` (lines 360-363). */
module Codec {
  import opened Common
  import opened Meta
  import opened Records

  /** The shape of a raw driver result. */
  datatype Raw =
    | RDict(entries: seq<(string, Value)>)
    | RList(items: seq<Raw>)
    | RTuple(items: seq<Raw>)
    | RScalar(v: Value)

  /** Python truthiness of a raw result: an empty dict, list or tuple is falsy. */
  predicate RawTruthy(r: Raw)
  {
    match r
    case RDict(entries) => entries != []
    case RList(items) => items != []
    case RTuple(items) => items != []
    case RScalar(v) => Truthy(v)
  }

  /** What `load` returns: a generic mapping (or list of them) handed back
      unchanged, one record's instance dictionary, or a FetchResult of them.
      The records are all bound to the table `load` was given. */
  datatype Loaded =
    | Mapping(raw: Raw)
    | Instance(fields: map<string, Value>)
    | Fetch(rows: seq<map<string, Value>>)

  /** The outcome of a write statement: affected rows and the generated key. */
  datatype ExecResults = ExecResults(affected: int, lastId: Value)

  /** `load(results, model, use_tdict)`. */
  function Load(results: Raw, t: Table, useTdict: bool): Result<Loaded, Error>
  {
    if !RawTruthy(results) then Empty(results, useTdict)
    else if useTdict then Ok(Mapping(results))
    else LoadToModel(results, t)
  }

  /** `_empty`: the policy for a falsy result, by its shape. */
  function Empty(results: Raw, useTdict: bool): Result<Loaded, Error>
  {
    if results.RDict? then
      if useTdict then Ok(Mapping(RDict([]))) else Ok(Instance(map[]))
    else if results.RList? || results.RTuple? then
      if useTdict then Ok(Mapping(RList([RDict([])]))) else Ok(Fetch([]))
    else Err(ValueError)
  }

  /** `_do`: a fresh record with every entry written through the loader path. */
  function LoadRow(t: Table, entries: seq<(string, Value)>): Result<map<string, Value>, Error>
  {
    var w := WriteAll(t, map[], entries, true);
    if w.1.Some? then Err(w.1.value) else Ok(w.0)
  }

  /** The list comprehension of `_load_to_model`: each element in order, the
      first failure ending it; an element that is not a dict has no `items`. */
  function LoadRows(t: Table, items: seq<Raw>): Result<seq<map<string, Value>>, Error>
  {
    if items == [] then Ok([])
    else
      var head := if items[0].RDict? then LoadRow(t, items[0].entries) else Err(AttributeError("items"));
      var tail := LoadRows(t, items[1..]);
      if head.Err? then Err(head.error)
      else if tail.Err? then tail
      else Ok([head.value] + tail.value)
  }

  /** `_load_to_model`. */
  function LoadToModel(results: Raw, t: Table): Result<Loaded, Error>
  {
    match results
    case RDict(entries) =>
      var row := LoadRow(t, entries);
      if row.Err? then Err(row.error) else Ok(Instance(row.value))
    case RList(items) =>
      var rows := LoadRows(t, items);
      if rows.Err? then Err(rows.error) else Ok(Fetch(rows.value))
    case RTuple(items) =>
      var rows := LoadRows(t, items);
      if rows.Err? then Err(rows.error) else Ok(Fetch(rows.value))
    case RScalar(_) => Err(ValueError)
  }

  /** `_do` as the source writes it: `model.set_value` is not defined, so the
      first entry fails on looking it up (`AttributeError`), or, when a field
      is called `set_value`, on calling the `None` that lookup yields. */
  function LoadRowAsWritten(t: Table, entries: seq<(string, Value)>): Result<map<string, Value>, Error>
  {
    if entries == [] then Ok(map[])
    else
      var setValue := ReadAttr(t, map[], "set_value");
      if setValue.Err? then Err(setValue.error) else Err(TypeError)
  }

  /** `_do` on a record object: construct it, then the loader-path loop. */
  method Do(t: Table, entries: seq<(string, Value)>) returns (r: Result<Record, Error>)
    ensures r.Ok? <==> LoadRow(t, entries).Ok?
    ensures r.Err? ==> r.error == LoadRow(t, entries).error
    ensures r.Ok? ==> fresh(r.value) && r.value.table == t && r.value.dict == LoadRow(t, entries).value
    ensures r.Ok? ==> r.value.Valid()
  {
    var model := new Record(t);
    var i := 0;
    while i < |entries|
      invariant i <= |entries|
      invariant model.table == t && model.Valid()
      invariant WriteAll(t, map[], entries, true) == WriteAll(t, model.dict, entries[i..], true)
    {
      assert entries[i..][1..] == entries[i + 1..];
      var err := model.SetAttr(entries[i].0, entries[i].1, true);
      if err.Some? {
        return Err(err.value);
      }
      i := i + 1;
    }
    return Ok(model);
  }

  // ---------------------------------------------------------------------------
  // Properties of the codec
  // ---------------------------------------------------------------------------

  /** The empty-result policy: a falsy dict gives an empty mapping or a fresh
      unpopulated record, a falsy list or tuple gives `[Tdict()]` or an empty
      FetchResult, and any other falsy value is refused. */
  lemma EmptyPolicy(results: Raw, t: Table, useTdict: bool)
    requires !RawTruthy(results)
    ensures results.RDict? ==>
      Load(results, t, useTdict) == (if useTdict then Ok(Mapping(RDict([]))) else Ok(Instance(map[])))
    ensures results.RList? || results.RTuple? ==>
      Load(results, t, useTdict) == (if useTdict then Ok(Mapping(RList([RDict([])]))) else Ok(Fetch([])))
    ensures results.RScalar? ==> Load(results, t, useTdict) == Err(ValueError)
  {
  }

  /** A non-empty result asked for as mappings is handed back unchanged. */
  lemma MappingPassThrough(results: Raw, t: Table)
    requires RawTruthy(results)
    ensures Load(results, t, true) == Ok(Mapping(results))
  {
  }

  /** A non-empty result of any other shape asked for as records is refused. */
  lemma OtherShapeRefused(v: Value, t: Table)
    requires Truthy(v)
    ensures Load(RScalar(v), t, false) == Err(ValueError)
  {
  }

  /** Loading a row succeeds exactly when no entry is keyed by the name of
      an auto-increment table's primary-key field; the record then holds
      every entry of the row, and nothing under that name. */
  lemma LoadRowAccepts(t: Table, entries: seq<(string, Value)>)
    ensures LoadRow(t, entries).Ok? <==> !(t.pk.auto && PkName(t) in KeysOf(entries))
    ensures LoadRow(t, entries).Ok? ==> LoadRow(t, entries).value == Apply(map[], entries)
    ensures LoadRow(t, entries).Ok? ==> AutoPkAbsent(t, LoadRow(t, entries).value)
    ensures LoadRow(t, entries).Err? ==> LoadRow(t, entries).error == ModifyAutoPkError
  {
    WriteAllAccepts(t, map[], entries, true);
    WriteAllKeepsAutoPkAbsent(t, map[], entries, true);
    if t.pk.auto && PkName(t) in KeysOf(entries) {
      var i :| 0 <= i < |entries| && entries[i].0 == PkName(t);
      assert WriteCheck(t, entries[i].0, true).Some?;
    }
    if LoadRow(t, entries).Err? {
      WriteAllStops(t, map[], entries, true);
    }
  }

  /** A non-empty dict asked for as a record: every key is written through
      the loader path, so the record is the row itself. */
  lemma LoadDict(t: Table, entries: seq<(string, Value)>)
    requires entries != []
    ensures Load(RDict(entries), t, false).Ok? <==> !(t.pk.auto && PkName(t) in KeysOf(entries))
    ensures Load(RDict(entries), t, false).Ok? ==> Load(RDict(entries), t, false) == Ok(Instance(Apply(map[], entries)))
  {
    LoadRowAccepts(t, entries);
  }

  /** The list comprehension keeps length and order, and fails exactly when
      some element is not a dict or does not load. */
  lemma {:induction false} LoadRowsFacts(t: Table, items: seq<Raw>)
    ensures LoadRows(t, items).Ok? <==>
      forall i :: 0 <= i < |items| ==> items[i].RDict? && LoadRow(t, items[i].entries).Ok?
    ensures LoadRows(t, items).Ok? ==>
      && |LoadRows(t, items).value| == |items|
      && forall i :: 0 <= i < |items| ==> LoadRows(t, items).value[i] == LoadRow(t, items[i].entries).value
  {
    if items != [] {
      LoadRowsFacts(t, items[1..]);
      assert forall i :: 1 <= i < |items| ==> items[i] == items[1..][i - 1];
    }
  }

  /** A non-empty list or tuple asked for as records gives a FetchResult of
      the same length and order, one record per row. */
  lemma LoadList(t: Table, items: seq<Raw>)
    requires items != []
    ensures Load(RList(items), t, false) == Load(RTuple(items), t, false)
    ensures Load(RList(items), t, false).Ok? <==>
      forall i :: 0 <= i < |items| ==> items[i].RDict? && LoadRow(t, items[i].entries).Ok?
    ensures Load(RList(items), t, false).Ok? ==>
      && Load(RList(items), t, false).value.Fetch?
      && |Load(RList(items), t, false).value.rows| == |items|
      && forall i :: 0 <= i < |items| ==>
           Load(RList(items), t, false).value.rows[i] == LoadRow(t, items[i].entries).value
  {
    LoadRowsFacts(t, items);
  }

  /** Every record a load produces is one a record could hold: no
      auto-increment key. */
  lemma LoadedRecordsValid(results: Raw, t: Table, useTdict: bool)
    requires Load(results, t, useTdict).Ok?
    ensures Load(results, t, useTdict).value.Instance? ==> AutoPkAbsent(t, Load(results, t, useTdict).value.fields)
    ensures Load(results, t, useTdict).value.Fetch? ==>
      forall i :: 0 <= i < |Load(results, t, useTdict).value.rows| ==>
        AutoPkAbsent(t, Load(results, t, useTdict).value.rows[i])
  {
    if RawTruthy(results) && !useTdict {
      match results
      case RDict(entries) =>
        LoadRowAccepts(t, entries);
      case RList(items) =>
        LoadRowsFacts(t, items);
        forall i | 0 <= i < |items| ensures AutoPkAbsent(t, LoadRow(t, items[i].entries).value) {
          LoadRowAccepts(t, items[i].entries);
        }
      case RTuple(items) =>
        LoadRowsFacts(t, items);
        forall i | 0 <= i < |items| ensures AutoPkAbsent(t, LoadRow(t, items[i].entries).value) {
          LoadRowAccepts(t, items[i].entries);
        }
      case RScalar(_) =>
    }
  }

  /** As written, loading any non-empty row into a record fails, where the
      loader path loads it. */
  lemma LoadRowAsWrittenRefusesRows(t: Table, entries: seq<(string, Value)>)
    requires entries != []
    requires LoadRow(t, entries).Ok?
    ensures LoadRowAsWritten(t, entries).Err?
    ensures LoadRowAsWritten(t, entries) != LoadRow(t, entries)
  {
  }
}
