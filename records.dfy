/** The record: an instance of a registered model, a mutable attribute bag
    bound to a table, with the write and read policy of `_Model`
    (trod/model_/core.py, lines 93-145 and 270-275). */
module Records {
  import opened Common
  import opened Meta

  /** The keys of `fields_dict`. */
  function DeclaredKeys(t: Table): set<string>
  {
    FieldsDict(t.fields).Keys
  }

  function PkName(t: Table): string
  {
    t.pk.field.name
  }

  /** The guard of `__setattr__`: the error it raises for a write of `key`,
      or `None` when the write goes through. A write under the name of an
      auto-increment table's primary-key field is refused on both paths; an
      undeclared attribute key only outside the loader path. */
  function WriteCheck(t: Table, key: string, isLoader: bool): Option<Error>
  {
    if t.pk.auto && key == PkName(t) then Some(ModifyAutoPkError)
    else if !isLoader && key !in DeclaredKeys(t) then Some(AttributeError(key))
    else None
  }

  /** `__getattr__` over the instance dictionary `d`. */
  function ReadAttr(t: Table, d: map<string, Value>, key: string): Result<Value, Error>
  {
    if key in d then Ok(d[key])
    else if key == PkName(t) || key in DeclaredKeys(t) then Ok(Null)
    else Err(AttributeError(key))
  }

  /** Writes `kvs` in order through the guard, stopping at the first refused
      one: the dictionary reached and the error raised, if any. */
  function WriteAll(t: Table, d: map<string, Value>, kvs: seq<(string, Value)>, isLoader: bool)
    : (map<string, Value>, Option<Error>)
    decreases |kvs|
  {
    if kvs == [] then (d, None)
    else
      var e := WriteCheck(t, kvs[0].0, isLoader);
      if e.Some? then (d, e) else WriteAll(t, d[kvs[0].0 := kvs[0].1], kvs[1..], isLoader)
  }

  /** The dictionary reached by applying `kvs` in order, unchecked. */
  function Apply(d: map<string, Value>, kvs: seq<(string, Value)>): map<string, Value>
    decreases |kvs|
  {
    if kvs == [] then d else Apply(d[kvs[0].0 := kvs[0].1], kvs[1..])
  }

  /** What one field contributes to the snapshot: its read value, or, when
      that is `None` and the field is callable, what calling it yields. */
  function Contribution(t: Table, d: map<string, Value>, f: Field): Result<Value, Error>
  {
    var v := ReadAttr(t, d, f.name);
    if v.Err? then v
    else if v.value == Null && f.default.Some? then Ok(f.default.value)
    else v
  }

  /** `__self__` over the fields `fs`: each non-`None` contribution under the
      field's name, or the first read error. */
  function SnapshotOf(t: Table, d: map<string, Value>, fs: seq<(string, Field)>): Result<map<string, Value>, Error>
  {
    if fs == [] then Ok(map[])
    else
      var prev := SnapshotOf(t, d, fs[..|fs| - 1]);
      var f := fs[|fs| - 1].1;
      var v := Contribution(t, d, f);
      if prev.Err? then prev
      else if v.Err? then Err(v.error)
      else if v.value != Null then Ok(prev.value[f.name := v.value])
      else prev
  }

  /** The guard of `_remove`: the primary-key value the delete would filter
      by, or `RuntimeError` when that value is falsy. */
  function RemoveKey(t: Table, d: map<string, Value>): (r: Result<Value, Error>)
    ensures r.Ok? <==> PkName(t) in d && Truthy(d[PkName(t)])
    ensures r.Ok? ==> r.value == d[PkName(t)]
    ensures r.Err? ==> r.error == RuntimeError
  {
    var pk := ReadAttr(t, d, PkName(t));
    if pk.Err? || !Truthy(pk.value) then Err(RuntimeError) else Ok(pk.value)
  }

  /** No write path stores an entry under the name of an auto-increment
      table's primary-key field. When that name differs from the field's
      attribute key, the entry under the attribute key is not covered. */
  predicate AutoPkAbsent(t: Table, d: map<string, Value>)
  {
    t.pk.auto ==> PkName(t) !in d
  }

  class Record {
    const table: Table
    var dict: map<string, Value>

    ghost predicate Valid()
      reads this
    {
      AutoPkAbsent(table, dict)
    }

    /** `model()`: a record with nothing set. */
    constructor (table: Table)
      ensures this.table == table && dict == map[] && Valid()
    {
      this.table := table;
      dict := map[];
    }

    /** `__setattr__(key, value, is_loader)`: either refused, or only the
        entry under `key` changes. */
    method SetAttr(key: string, value: Value, isLoader: bool) returns (err: Option<Error>)
      requires Valid()
      modifies this
      ensures Valid()
      ensures err == WriteCheck(table, key, isLoader)
      ensures dict == if err.None? then old(dict)[key := value] else old(dict)
    {
      if table.pk.auto && key == table.pk.field.name {
        return Some(ModifyAutoPkError);
      }
      if !isLoader && key !in FieldsDict(table.fields) {
        return Some(AttributeError(key));
      }
      dict := dict[key := value];
      err := None;
    }

    /** `__init__(**kwargs)`: every keyword written through the public path,
        in order, until one is refused. */
    method Init(kwargs: seq<(string, Value)>) returns (err: Option<Error>)
      requires Valid()
      modifies this
      ensures Valid()
      ensures (dict, err) == WriteAll(table, old(dict), kwargs, false)
    {
      var i := 0;
      while i < |kwargs|
        invariant i <= |kwargs|
        invariant Valid()
        invariant WriteAll(table, old(dict), kwargs, false) == WriteAll(table, dict, kwargs[i..], false)
      {
        assert kwargs[i..][1..] == kwargs[i + 1..];
        err := SetAttr(kwargs[i].0, kwargs[i].1, false);
        if err.Some? {
          return;
        }
        i := i + 1;
      }
      err := None;
    }

    /** `__self__`: the loop over the table's fields, accumulating every
        non-`None` value. */
    method Snapshot() returns (r: Result<map<string, Value>, Error>)
      ensures r == SnapshotOf(table, dict, table.fields)
    {
      var fs := table.fields;
      var values: map<string, Value> := map[];
      var i := 0;
      while i < |fs|
        invariant i <= |fs|
        invariant SnapshotOf(table, dict, fs[..i]) == Ok(values)
      {
        var f := fs[i].1;
        assert fs[..i + 1][..i] == fs[..i];
        var v := ReadAttr(table, dict, f.name);
        if v.Err? {
          SnapshotErrStays(table, dict, fs, i + 1);
          return Err(v.error);
        }
        var w := v.value;
        if w == Null && f.default.Some? {
          w := f.default.value;
        }
        if w != Null {
          values := values[f.name := w];
        }
        i := i + 1;
      }
      assert fs[..i] == fs;
      r := Ok(values);
    }
  }

  // ---------------------------------------------------------------------------
  // Properties of writes
  // ---------------------------------------------------------------------------

  function KeysOf(kvs: seq<(string, Value)>): set<string>
  {
    set i | 0 <= i < |kvs| :: kvs[i].0
  }

  /** A batch of writes goes through exactly when every key passes the guard,
      and then the dictionary is the old one with the writes applied. */
  lemma {:induction false} WriteAllAccepts(t: Table, d: map<string, Value>, kvs: seq<(string, Value)>, isLoader: bool)
    ensures WriteAll(t, d, kvs, isLoader).1.None? <==>
      forall i :: 0 <= i < |kvs| ==> WriteCheck(t, kvs[i].0, isLoader).None?
    ensures WriteAll(t, d, kvs, isLoader).1.None? ==> WriteAll(t, d, kvs, isLoader).0 == Apply(d, kvs)
    decreases |kvs|
  {
    if kvs != [] {
      WriteAllAccepts(t, d[kvs[0].0 := kvs[0].1], kvs[1..], isLoader);
      assert forall i :: 1 <= i < |kvs| ==> kvs[i] == kvs[1..][i - 1];
    }
  }

  /** A refused batch raises the error of its first refused key and keeps
      the writes before it. */
  lemma {:induction false} WriteAllStops(t: Table, d: map<string, Value>, kvs: seq<(string, Value)>, isLoader: bool)
    requires WriteAll(t, d, kvs, isLoader).1.Some?
    ensures exists i ::
      && 0 <= i < |kvs|
      && WriteCheck(t, kvs[i].0, isLoader) == WriteAll(t, d, kvs, isLoader).1
      && (forall k :: 0 <= k < i ==> WriteCheck(t, kvs[k].0, isLoader).None?)
      && WriteAll(t, d, kvs, isLoader).0 == Apply(d, kvs[..i])
    decreases |kvs|
  {
    if WriteCheck(t, kvs[0].0, isLoader).Some? {
      assert kvs[..0] == [];
    } else {
      var tail := kvs[1..];
      WriteAllStops(t, d[kvs[0].0 := kvs[0].1], tail, isLoader);
      var i :| 0 <= i < |tail|
        && WriteCheck(t, tail[i].0, isLoader) == WriteAll(t, d, kvs, isLoader).1
        && (forall k :: 0 <= k < i ==> WriteCheck(t, tail[k].0, isLoader).None?)
        && WriteAll(t, d, kvs, isLoader).0 == Apply(d[kvs[0].0 := kvs[0].1], tail[..i]);
      assert kvs[..i + 1][1..] == tail[..i];
      assert forall k :: 1 <= k < i + 1 ==> kvs[k] == tail[k - 1];
    }
  }

  /** Applying writes with distinct keys: the keys are the old ones plus the
      written ones, each written key holds its written value, and every
      other entry is unchanged. */
  lemma {:induction false} ApplyContents(d: map<string, Value>, kvs: seq<(string, Value)>)
    requires DistinctKeys(kvs)
    ensures Apply(d, kvs).Keys == d.Keys + KeysOf(kvs)
    ensures forall i :: 0 <= i < |kvs| ==> Apply(d, kvs)[kvs[i].0] == kvs[i].1
    ensures forall k :: k in d && k !in KeysOf(kvs) ==> Apply(d, kvs)[k] == d[k]
    decreases |kvs|
  {
    if kvs != [] {
      var tail := kvs[1..];
      ApplyContents(d[kvs[0].0 := kvs[0].1], tail);
      assert KeysOf(kvs) == {kvs[0].0} + KeysOf(tail) by {
        forall k | k in KeysOf(kvs) ensures k in {kvs[0].0} + KeysOf(tail) {
          var i :| 0 <= i < |kvs| && kvs[i].0 == k;
          if i > 0 { assert tail[i - 1] == kvs[i]; }
        }
        forall k | k in KeysOf(tail) ensures k in KeysOf(kvs) {
          var i :| 0 <= i < |tail| && tail[i].0 == k;
          assert kvs[i + 1] == tail[i];
        }
      }
      assert kvs[0].0 !in KeysOf(tail) by {
        forall i | 0 <= i < |tail| ensures tail[i].0 != kvs[0].0 {
          assert tail[i] == kvs[i + 1];
        }
      }
      forall i | 0 <= i < |kvs| ensures Apply(d, kvs)[kvs[i].0] == kvs[i].1 {
        if i > 0 { assert tail[i - 1] == kvs[i]; }
      }
    }
  }

  /** No batch of writes, on either path, stores an auto-increment key. */
  lemma {:induction false} WriteAllKeepsAutoPkAbsent(t: Table, d: map<string, Value>, kvs: seq<(string, Value)>, isLoader: bool)
    requires AutoPkAbsent(t, d)
    ensures AutoPkAbsent(t, WriteAll(t, d, kvs, isLoader).0)
    decreases |kvs|
  {
    if kvs != [] && WriteCheck(t, kvs[0].0, isLoader).None? {
      WriteAllKeepsAutoPkAbsent(t, d[kvs[0].0 := kvs[0].1], kvs[1..], isLoader);
    }
  }

  // ---------------------------------------------------------------------------
  // Properties of reads and of the snapshot
  // ---------------------------------------------------------------------------

  /** A write that passes the guard is read back, and no other read changes. */
  lemma ReadAfterWrite(t: Table, d: map<string, Value>, key: string, value: Value, isLoader: bool)
    requires WriteCheck(t, key, isLoader).None?
    ensures ReadAttr(t, d[key := value], key) == Ok(value)
    ensures forall k :: k != key ==> ReadAttr(t, d[key := value], k) == ReadAttr(t, d, k)
  {
  }

  /** Reading a declared field or the primary key never fails, and gives
      `None` when it is unset; reading anything else unset fails. */
  lemma ReadRules(t: Table, d: map<string, Value>, key: string)
    ensures key in d ==> ReadAttr(t, d, key) == Ok(d[key])
    ensures key !in d && (key in DeclaredKeys(t) || key == PkName(t)) ==> ReadAttr(t, d, key) == Ok(Null)
    ensures key !in d && key !in DeclaredKeys(t) && key != PkName(t) ==> ReadAttr(t, d, key) == Err(AttributeError(key))
  {
  }

  /** Once a read fails on a prefix of the fields, the snapshot fails with
      that error. */
  lemma {:induction false} SnapshotErrStays(t: Table, d: map<string, Value>, fs: seq<(string, Field)>, n: nat)
    requires n <= |fs|
    requires SnapshotOf(t, d, fs[..n]).Err?
    ensures SnapshotOf(t, d, fs) == SnapshotOf(t, d, fs[..n])
  {
    if n < |fs| {
      var init := fs[..|fs| - 1];
      assert init[..n] == fs[..n];
      SnapshotErrStays(t, d, init, n);
    } else {
      assert fs[..n] == fs;
    }
  }

  /** The snapshot holds only field names and never a `None` value, and it
      exists exactly when every field name can be read. */
  lemma {:induction false} SnapshotShape(t: Table, d: map<string, Value>, fs: seq<(string, Field)>)
    ensures SnapshotOf(t, d, fs).Ok? <==> forall i :: 0 <= i < |fs| ==> ReadAttr(t, d, fs[i].1.name).Ok?
    ensures SnapshotOf(t, d, fs).Ok? ==>
      && (forall k :: k in SnapshotOf(t, d, fs).value ==> exists i :: 0 <= i < |fs| && fs[i].1.name == k)
      && (forall k :: k in SnapshotOf(t, d, fs).value ==> SnapshotOf(t, d, fs).value[k] != Null)
  {
    if fs != [] {
      var init := fs[..|fs| - 1];
      SnapshotShape(t, d, init);
      assert forall i :: 0 <= i < |init| ==> init[i] == fs[i];
    }
  }

  /** With distinct field names, each field's entry in the snapshot is its
      contribution: the stored value, or the callable's value when unset or
      `None`, and absent when that is `None` too. */
  lemma {:induction false} SnapshotValues(t: Table, d: map<string, Value>, fs: seq<(string, Field)>, i: nat)
    requires i < |fs|
    requires forall a, b :: 0 <= a < b < |fs| ==> fs[a].1.name != fs[b].1.name
    requires SnapshotOf(t, d, fs).Ok?
    ensures var f := fs[i].1;
      var stored := if f.name in d then d[f.name] else Null;
      var w := if stored == Null && f.default.Some? then f.default.value else stored;
      && (w != Null ==> f.name in SnapshotOf(t, d, fs).value && SnapshotOf(t, d, fs).value[f.name] == w)
      && (w == Null ==> f.name !in SnapshotOf(t, d, fs).value)
  {
    var n := |fs| - 1;
    var init := fs[..n];
    assert forall a :: 0 <= a < n ==> init[a] == fs[a];
    if i < n {
      SnapshotValues(t, d, init, i);
    } else {
      SnapshotShape(t, d, init);
    }
  }

  /** A record of an auto-increment table, however it was written, can never
      be removed: nothing is stored under its primary-key field's name, which
      is what the guard reads. */
  lemma AutoPkRecordNotRemovable(t: Table, d: map<string, Value>)
    requires t.pk.auto && AutoPkAbsent(t, d)
    ensures RemoveKey(t, d) == Err(RuntimeError)
  {
  }
}
