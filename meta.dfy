/** Schema registration and the class-level attribute hooks of `_ModelMeta`
    (trod/model_/core.py, lines 8-90).

    A class body is an ordered sequence of (attribute key, attribute value)
    pairs; registration turns it into a `Table` or an `Error`. */
module Meta {
  import opened Common

  /** A column declaration (an instance of FieldBase). `name` is "" when the
      declaration gave none; `ai` is the auto-increment setting, truthy when
      non-zero; `default` is `Some(v)` when the field object is callable and
      calling it yields `v`. */
  datatype Field = Field(name: string, pk: bool, ai: int, default: Option<Value>)

  /** A value bound to a key in a class body. */
  datatype Attr =
    | FieldDecl(field: Field)
    | IndexDecl(index: string)
    | Items(items: seq<Attr>)
    | Plain(value: Value)

  /** The class body, in declaration order (a dict: keys are distinct). */
  type Attrs = seq<(string, Attr)>

  /** The mutable primary-key record filled during the scan: `auto`, `field`
      and `ai`, initially `False`, `None` and `None`. */
  datatype PkRecord = PkRecord(auto: bool, field: Option<Field>, ai: Option<int>)

  /** The primary key of a registered table: the scan always found one. */
  datatype Key = Key(field: Field, auto: bool, ai: Option<int>)

  /** Table metadata. `fields` is the ordered field map, keyed by attribute
      key; it doubles as `fields_dict`, and its values in order are `fields`. */
  datatype Table = Table(
    database: Option<Attr>,
    name: string,
    fields: seq<(string, Field)>,
    pk: Key,
    indexes: seq<Attr>,
    charset: Option<Attr>,
    comment: Option<Attr>)

  predicate DistinctKeys<T>(kvs: seq<(string, T)>)
  {
    forall i, j :: 0 <= i < j < |kvs| ==> kvs[i].0 != kvs[j].0
  }

  /** `attrs.get(key)`: the value bound to `key`, if any. */
  function Lookup(attrs: Attrs, key: string): Option<Attr>
  {
    if attrs == [] then None
    else if attrs[0].0 == key then Some(attrs[0].1)
    else Lookup(attrs[1..], key)
  }

  /** What is left of the class body once the entries under `keys` are popped. */
  function Without(attrs: Attrs, keys: set<string>): (r: Attrs)
    ensures forall e :: e in r <==> e in attrs && e.0 !in keys
    ensures DistinctKeys(attrs) ==> DistinctKeys(r)
  {
    if attrs == [] then []
    else
      var tail := Without(attrs[1..], keys);
      assert forall e :: e in attrs[1..] ==> e in attrs;
      if attrs[0].0 in keys then tail else [attrs[0]] + tail
  }

  /** Python's `str.lower`, on ASCII letters. */
  function LowerChar(c: char): char
  {
    if 'A' <= c <= 'Z' then (c as int + 32) as char else c
  }

  function Lower(s: string): string
  {
    if s == [] then [] else [LowerChar(s[0])] + Lower(s[1..])
  }

  /** `field.name = field.name or attr`. */
  function Named(f: Field, key: string): Field
  {
    f.(name := if f.name == "" then key else f.name)
  }

  predicate IsPk(e: (string, Attr))
  {
    e.1.FieldDecl? && e.1.field.pk
  }

  /** The name a declared field ends up with. */
  function NameOf(e: (string, Attr)): string
    requires e.1.FieldDecl?
  {
    Named(e.1.field, e.0).name
  }

  // ---------------------------------------------------------------------------
  // The scan over the class body (core.py:27-54)
  // ---------------------------------------------------------------------------

  datatype ScanState = ScanState(fields: seq<(string, Field)>, pk: PkRecord)

  const InitialScan := ScanState([], PkRecord(false, None, None))

  /** One iteration of the scan: the duplicate-name guard, then a field is
      named, possibly registered as the primary key, and appended; any other
      attribute must be one of the framework-reserved names. */
  function Step(st: ScanState, key: string, a: Attr, reserved: set<string>): Result<ScanState, Error>
  {
    if st.pk.field.Some? && key == st.pk.field.value.name then
      Err(DuplicateFieldNameError(key))
    else if a.FieldDecl? then
      var f := Named(a.field, key);
      if f.pk && st.pk.field.Some? then
        Err(DuplicatePKError(f.name))
      else
        var pk :=
          if !f.pk then st.pk
          else if f.ai != 0 then PkRecord(true, Some(f), Some(f.ai))
          else st.pk.(field := Some(f));
        Ok(ScanState(st.fields + [(key, f)], pk))
    else if key in reserved then
      Ok(st)
    else
      Err(InvalidFieldType(key))
  }

  /** The scan over a whole body: the first failing step decides. */
  function ScanAll(attrs: Attrs, reserved: set<string>): Result<ScanState, Error>
  {
    if attrs == [] then Ok(InitialScan)
    else
      var r := ScanAll(attrs[..|attrs| - 1], reserved);
      if r.Err? then r else Step(r.value, attrs[|attrs| - 1].0, attrs[|attrs| - 1].1, reserved)
  }

  /** The field map a successful scan must produce: every field declaration,
      in declaration order, keyed by its attribute key and named. */
  function FieldEntries(attrs: Attrs): seq<(string, Field)>
  {
    if attrs == [] then []
    else
      var e := attrs[|attrs| - 1];
      FieldEntries(attrs[..|attrs| - 1]) + (if e.1.FieldDecl? then [(e.0, Named(e.1.field, e.0))] else [])
  }

  /** When a class body is acceptable, stated without reference to the scan:
      every attribute is a field or a reserved name, and once a primary-key
      field is declared no later attribute is a second primary key or is
      keyed by the primary key's name. */
  predicate Accepted(attrs: Attrs, reserved: set<string>)
  {
    && (forall i :: 0 <= i < |attrs| ==> attrs[i].1.FieldDecl? || attrs[i].0 in reserved)
    && (forall i, j :: 0 <= i < j < |attrs| && IsPk(attrs[i]) ==>
          !IsPk(attrs[j]) && attrs[j].0 != NameOf(attrs[i]))
  }

  // ---------------------------------------------------------------------------
  // Registration (core.py:17-74)
  // ---------------------------------------------------------------------------

  /** The reserved declaration keys read before the scan. */
  const PoppedKeys: set<string> := {"__db__", "__table__", "__indexes__", "__charset__", "__comment__"}

  function Rest(attrs: Attrs): Attrs
  {
    Without(attrs, PoppedKeys)
  }

  /** `__indexes__` must be a sequence of index declarations. */
  function CheckIndexes(indexes: Option<Attr>): Result<seq<Attr>, Error>
  {
    if indexes.None? then Ok([])
    else if !indexes.value.Items? then Err(TypeError)
    else if forall k :: 0 <= k < |indexes.value.items| ==> indexes.value.items[k].IndexDecl? then
      Ok(indexes.value.items)
    else Err(InvalidFieldType(""))
  }

  /** Registration of a class body under class name `name`, with the reserved
      keys read before the scan and the index list checked to be a sequence.
      The table name is always the lower-cased class name. */
  function Register(name: string, attrs: Attrs, reserved: set<string>): Result<Table, Error>
  {
    var tableName := Lower(name);
    var scan := ScanAll(Rest(attrs), reserved);
    if scan.Err? then Err(scan.error)
    else if scan.value.pk.field.None? then Err(NoPKError(tableName))
    else
      var indexes := CheckIndexes(Lookup(attrs, "__indexes__"));
      if indexes.Err? then Err(indexes.error)
      else
        var pk := scan.value.pk;
        Ok(Table(Lookup(attrs, "__db__"), tableName, scan.value.fields,
                 Key(pk.field.value, pk.auto, pk.ai), indexes.value,
                 Lookup(attrs, "__charset__"), Lookup(attrs, "__comment__")))
  }

  /** Registration as the source writes it: only `__db__` and `__table__` are
      popped before the scan, so the scan consumes everything else, and the
      index check calls `isinstance` with one argument, which raises
      `TypeError` unconditionally. */
  function RegisterAsWritten(name: string, attrs: Attrs, reserved: set<string>): Result<Table, Error>
  {
    var scan := ScanAll(Without(attrs, {"__db__", "__table__"}), reserved);
    if scan.Err? then Err(scan.error)
    else if scan.value.pk.field.None? then Err(NoPKError(Lower(name)))
    else Err(TypeError)
  }

  /** The scan loop of `__prepare__`: fills the field map and the
      primary-key record step by step, raising at the first failing check. */
  method Scan(rest: Attrs, reserved: set<string>) returns (r: Result<ScanState, Error>)
    ensures r == ScanAll(rest, reserved)
  {
    var fields: seq<(string, Field)> := [];
    var pk := PkRecord(false, None, None);
    var i := 0;
    while i < |rest|
      invariant i <= |rest|
      invariant ScanAll(rest[..i], reserved) == Ok(ScanState(fields, pk))
    {
      var key, a := rest[i].0, rest[i].1;
      assert rest[..i + 1][..i] == rest[..i];
      if pk.field.Some? && key == pk.field.value.name {
        r := Err(DuplicateFieldNameError(key));
        ScanErrStays(rest, reserved, i + 1);
        return;
      }
      if a.FieldDecl? {
        var field := Named(a.field, key);
        if field.pk {
          if pk.field.Some? {
            r := Err(DuplicatePKError(field.name));
            ScanErrStays(rest, reserved, i + 1);
            return;
          }
          pk := pk.(field := Some(field));
          if field.ai != 0 {
            pk := pk.(auto := true, ai := Some(field.ai));
          }
        }
        fields := fields + [(key, field)];
      } else if key !in reserved {
        r := Err(InvalidFieldType(key));
        ScanErrStays(rest, reserved, i + 1);
        return;
      }
      i := i + 1;
    }
    assert rest[..i] == rest;
    r := Ok(ScanState(fields, pk));
  }

  /** The index loop of `__prepare__`: every element of the index list must
      be an index declaration. */
  method CheckIndexList(xs: seq<Attr>) returns (ok: bool)
    ensures ok <==> forall k :: 0 <= k < |xs| ==> xs[k].IndexDecl?
  {
    var k := 0;
    while k < |xs|
      invariant k <= |xs|
      invariant forall m :: 0 <= m < k ==> xs[m].IndexDecl?
    {
      if !xs[k].IndexDecl? {
        return false;
      }
      k := k + 1;
    }
    return true;
  }

  /** `__prepare__`: the reserved keys are read, the body is scanned, then
      the primary-key and index checks run. */
  method Prepare(name: string, attrs: Attrs, reserved: set<string>) returns (r: Result<Table, Error>)
    ensures r == Register(name, attrs, reserved)
  {
    var bound := Lookup(attrs, "__db__");
    var tableName := Lower(name);
    var scan := Scan(Rest(attrs), reserved);
    if scan.Err? {
      return Err(scan.error);
    }
    var pk := scan.value.pk;
    if pk.field.None? {
      return Err(NoPKError(tableName));
    }
    var declared := Lookup(attrs, "__indexes__");
    var indexes: seq<Attr> := [];
    if declared.Some? {
      if !declared.value.Items? {
        return Err(TypeError);
      }
      var ok := CheckIndexList(declared.value.items);
      if !ok {
        return Err(InvalidFieldType(""));
      }
      indexes := declared.value.items;
    }
    r := Ok(Table(bound, tableName, scan.value.fields, Key(pk.field.value, pk.auto, pk.ai), indexes,
                  Lookup(attrs, "__charset__"), Lookup(attrs, "__comment__")));
  }

  // ---------------------------------------------------------------------------
  // Class-level hooks (core.py:76-90)
  // ---------------------------------------------------------------------------

  /** A registered model class: its name, the names its namespace resolves by
      ordinary lookup, and its table. It has no mutable state. */
  datatype ModelClass = ModelClass(name: string, members: set<string>, table: Table)

  datatype ClassAttr = Member(key: string) | FieldAttr(field: Field)

  /** The ordered field map read as a dictionary: a later entry under the
      same key replaces an earlier one. */
  function FieldsDict(fields: seq<(string, Field)>): map<string, Field>
  {
    if fields == [] then map[]
    else FieldsDict(fields[..|fields| - 1])[fields[|fields| - 1].0 := fields[|fields| - 1].1]
  }

  /** Attribute lookup on the class: ordinary lookup first, then the field
      map, else `AttributeError`. */
  function ClassGetAttr(c: ModelClass, key: string): Result<ClassAttr, Error>
  {
    if key in c.members then Ok(Member(key))
    else if key in FieldsDict(c.table.fields) then Ok(FieldAttr(FieldsDict(c.table.fields)[key]))
    else Err(AttributeError(key))
  }

  /** Attribute lookup on the class as the source writes it: the hook calls
      `getattr(cls, key)`, which re-enters the hook whenever ordinary lookup
      fails, so the fallback to the field map is only reached through an
      `AttributeError` from the nested call. `depth` is the interpreter's
      remaining recursion budget. */
  function ClassGetAttrAsWritten(c: ModelClass, key: string, depth: nat): Result<ClassAttr, Error>
  {
    if key in c.members then Ok(Member(key))
    else if depth == 0 then Err(RecursionError)
    else
      var inner := ClassGetAttrAsWritten(c, key, depth - 1);
      if inner.Err? && inner.error.AttributeError? then
        if key in FieldsDict(c.table.fields) then Ok(FieldAttr(FieldsDict(c.table.fields)[key]))
        else Err(AttributeError(key))
      else inner
  }

  /** Assignment on a registered class is always refused. */
  function ClassSetAttr(c: ModelClass, key: string, value: Attr): (e: Error)
    ensures e.ModelSetAttrError? && e.cls == c.name
  {
    ModelSetAttrError(c.name)
  }

  // ---------------------------------------------------------------------------
  // Properties of the scan and of registration
  // ---------------------------------------------------------------------------

  /** Once a prefix of the body fails, the scan of the whole body fails with
      the same error. */
  lemma {:induction false} ScanErrStays(attrs: Attrs, reserved: set<string>, n: nat)
    requires n <= |attrs|
    requires ScanAll(attrs[..n], reserved).Err?
    ensures ScanAll(attrs, reserved) == ScanAll(attrs[..n], reserved)
  {
    if n < |attrs| {
      var init := attrs[..|attrs| - 1];
      assert init[..n] == attrs[..n];
      ScanErrStays(init, reserved, n);
    } else {
      assert attrs[..n] == attrs;
    }
  }

  /** What a successful scan has built: the field map of `FieldEntries`, and a
      primary-key record that holds the (named) primary-key field when there
      is one, with `auto` and `ai` set exactly when that field has `ai`. */
  lemma {:induction false} ScanFacts(attrs: Attrs, reserved: set<string>)
    requires ScanAll(attrs, reserved).Ok?
    ensures ScanAll(attrs, reserved).value.fields == FieldEntries(attrs)
    ensures forall i :: 0 <= i < |attrs| && IsPk(attrs[i]) ==>
      ScanAll(attrs, reserved).value.pk.field == Some(Named(attrs[i].1.field, attrs[i].0))
    ensures ScanAll(attrs, reserved).value.pk.field.Some? ==> exists i :: 0 <= i < |attrs| && IsPk(attrs[i])
    ensures var pk := ScanAll(attrs, reserved).value.pk;
      pk.field.Some? ==> pk.field.value.pk && pk.auto == (pk.field.value.ai != 0) &&
                         pk.ai == (if pk.field.value.ai != 0 then Some(pk.field.value.ai) else None)
    ensures var pk := ScanAll(attrs, reserved).value.pk;
      pk.field.None? ==> pk == PkRecord(false, None, None)
  {
    if attrs != [] {
      var init := attrs[..|attrs| - 1];
      var e := attrs[|attrs| - 1];
      ScanFacts(init, reserved);
      var st := ScanAll(init, reserved).value;
      forall i | 0 <= i < |init| ensures attrs[i] == init[i] { }
      if IsPk(e) {
        assert !(exists i :: 0 <= i < |init| && IsPk(init[i]));
      }
    }
  }

  /** The scan errors are those of the three checks inside the loop. */
  lemma {:induction false} ScanErrorKinds(attrs: Attrs, reserved: set<string>)
    requires ScanAll(attrs, reserved).Err?
    ensures var e := ScanAll(attrs, reserved).error;
      e.DuplicateFieldNameError? || e.DuplicatePKError? || e.InvalidFieldType?
  {
    if attrs != [] && ScanAll(attrs[..|attrs| - 1], reserved).Err? {
      ScanErrorKinds(attrs[..|attrs| - 1], reserved);
    }
  }

  /** The scan succeeds exactly on the bodies that `Accepted` describes. */
  lemma {:induction false} ScanAccepts(attrs: Attrs, reserved: set<string>)
    ensures ScanAll(attrs, reserved).Ok? <==> Accepted(attrs, reserved)
  {
    if attrs != [] {
      var n := |attrs| - 1;
      var init := attrs[..n];
      var e := attrs[n];
      ScanAccepts(init, reserved);
      forall i | 0 <= i < n ensures attrs[i] == init[i] { }
      if ScanAll(init, reserved).Ok? {
        ScanFacts(init, reserved);
        var st := ScanAll(init, reserved).value;
        if st.pk.field.Some? {
          var i :| 0 <= i < n && IsPk(init[i]);
          assert IsPk(attrs[i]);
          if ScanAll(attrs, reserved).Ok? {
            assert Accepted(init, reserved);
            forall i', j | 0 <= i' < j < |attrs| && IsPk(attrs[i'])
              ensures !IsPk(attrs[j]) && attrs[j].0 != NameOf(attrs[i'])
            {
              if j == n {
                assert st.pk.field == Some(Named(init[i'].1.field, init[i'].0));
              }
            }
          }
        } else if ScanAll(attrs, reserved).Ok? {
          assert forall i :: 0 <= i < n ==> !IsPk(init[i]);
        }
      }
    }
  }

  /** A second primary-key field fails with `DuplicatePKError`, naming that
      field, when nothing before it failed. */
  lemma {:induction false} SecondPkRejected(attrs: Attrs, reserved: set<string>, i: nat, j: nat)
    requires i < j < |attrs|
    requires Accepted(attrs[..j], reserved)
    requires IsPk(attrs[i]) && IsPk(attrs[j])
    requires attrs[j].0 != NameOf(attrs[i])
    ensures ScanAll(attrs, reserved) == Err(DuplicatePKError(NameOf(attrs[j])))
  {
    var init := attrs[..j];
    ScanAccepts(init, reserved);
    ScanFacts(init, reserved);
    assert init[i] == attrs[i];
    assert attrs[..j + 1][..j] == init;
    ScanErrStays(attrs, reserved, j + 1);
  }

  /** An attribute keyed by the primary key's name, after the primary key,
      fails with `DuplicateFieldNameError` when nothing before it failed. */
  lemma {:induction false} PkNameReuseRejected(attrs: Attrs, reserved: set<string>, i: nat, j: nat)
    requires i < j < |attrs|
    requires Accepted(attrs[..j], reserved)
    requires IsPk(attrs[i])
    requires attrs[j].0 == NameOf(attrs[i])
    ensures ScanAll(attrs, reserved) == Err(DuplicateFieldNameError(attrs[j].0))
  {
    var init := attrs[..j];
    ScanAccepts(init, reserved);
    ScanFacts(init, reserved);
    assert init[i] == attrs[i];
    assert attrs[..j + 1][..j] == init;
    ScanErrStays(attrs, reserved, j + 1);
  }

  /** An attribute that is neither a field nor reserved fails with
      `InvalidFieldType`, naming its key, when nothing before it failed. */
  lemma {:induction false} NonFieldRejected(attrs: Attrs, reserved: set<string>, j: nat)
    requires j < |attrs|
    requires Accepted(attrs[..j], reserved)
    requires !attrs[j].1.FieldDecl? && attrs[j].0 !in reserved
    requires forall i :: 0 <= i < j && IsPk(attrs[i]) ==> attrs[j].0 != NameOf(attrs[i])
    ensures ScanAll(attrs, reserved) == Err(InvalidFieldType(attrs[j].0))
  {
    var init := attrs[..j];
    ScanAccepts(init, reserved);
    ScanFacts(init, reserved);
    var st := ScanAll(init, reserved).value;
    if st.pk.field.Some? {
      var i :| 0 <= i < j && IsPk(init[i]);
      assert init[i] == attrs[i];
    }
    assert attrs[..j + 1][..j] == init;
    ScanErrStays(attrs, reserved, j + 1);
  }

  /** A registered table has exactly one primary-key declaration in the class
      body, it is `pk.field`, `pk.auto` and `pk.ai` follow that field's `ai`,
      the field map is every field declaration in order, and the table name
      is the lower-cased class name whatever `__table__` says. */
  lemma RegisterOk(name: string, attrs: Attrs, reserved: set<string>)
    requires Register(name, attrs, reserved).Ok?
    ensures var t := Register(name, attrs, reserved).value;
      var rest := Rest(attrs);
      && Accepted(rest, reserved)
      && (exists i :: 0 <= i < |rest| && IsPk(rest[i]) && t.pk.field == Named(rest[i].1.field, rest[i].0))
      && (forall i, j :: 0 <= i < |rest| && 0 <= j < |rest| && IsPk(rest[i]) && IsPk(rest[j]) ==> i == j)
      && t.pk.field.pk
      && t.pk.auto == (t.pk.field.ai != 0)
      && t.pk.ai == (if t.pk.field.ai != 0 then Some(t.pk.field.ai) else None)
      && t.fields == FieldEntries(rest)
      && t.name == Lower(name)
  {
    var rest := Rest(attrs);
    ScanAccepts(rest, reserved);
    ScanFacts(rest, reserved);
  }

  /** Registration fails with `NoPKError` exactly when the body is otherwise
      acceptable and declares no primary key. */
  lemma NoPkIff(name: string, attrs: Attrs, reserved: set<string>)
    ensures Register(name, attrs, reserved) == Err(NoPKError(Lower(name))) <==>
      Accepted(Rest(attrs), reserved) && forall i :: 0 <= i < |Rest(attrs)| ==> !IsPk(Rest(attrs)[i])
  {
    var rest := Rest(attrs);
    ScanAccepts(rest, reserved);
    if ScanAll(rest, reserved).Ok? {
      ScanFacts(rest, reserved);
    } else {
      ScanErrorKinds(rest, reserved);
    }
  }

  /** As written, no class body registers: every body the intended
      registration accepts (one without index, charset or comment keys) is
      refused with `TypeError`. */
  lemma RegisterAsWrittenRefusesAll(name: string, attrs: Attrs, reserved: set<string>)
    requires Register(name, attrs, reserved).Ok?
    requires forall e :: e in attrs ==> e.0 !in {"__indexes__", "__charset__", "__comment__"}
    ensures RegisterAsWritten(name, attrs, reserved) == Err(TypeError)
    ensures RegisterAsWritten(name, attrs, reserved) != Register(name, attrs, reserved)
  {
    WithoutAbsent(attrs, {"__db__", "__table__"}, PoppedKeys);
  }

  /** Popping keys the body does not hold changes nothing. */
  lemma {:induction false} WithoutAbsent(attrs: Attrs, small: set<string>, large: set<string>)
    requires small <= large
    requires forall e :: e in attrs ==> e.0 !in large - small
    ensures Without(attrs, small) == Without(attrs, large)
  {
    if attrs != [] {
      assert attrs[0] in attrs;
      assert forall e :: e in attrs[1..] ==> e in attrs;
      WithoutAbsent(attrs[1..], small, large);
    }
  }

  // ---------------------------------------------------------------------------
  // Properties of the class-level lookup
  // ---------------------------------------------------------------------------

  /** The dictionary view of a field map built from distinct keys holds every
      field declaration under its own key, and nothing else. */
  lemma {:induction false} FieldsDictOfEntries(attrs: Attrs, i: nat)
    requires DistinctKeys(attrs)
    requires i < |attrs| && attrs[i].1.FieldDecl?
    ensures attrs[i].0 in FieldsDict(FieldEntries(attrs))
    ensures FieldsDict(FieldEntries(attrs))[attrs[i].0] == Named(attrs[i].1.field, attrs[i].0)
  {
    var n := |attrs| - 1;
    var init := attrs[..n];
    var e := attrs[n];
    var fe := FieldEntries(attrs);
    if e.1.FieldDecl? {
      assert fe == FieldEntries(init) + [(e.0, Named(e.1.field, e.0))];
      assert fe[..|fe| - 1] == FieldEntries(init);
    } else {
      assert fe == FieldEntries(init);
    }
    if i < n {
      assert init[i] == attrs[i];
      FieldsDictOfEntries(init, i);
    }
  }

  /** Lookup on a registered class finds every declared field under its
      attribute key, unless ordinary lookup already resolves the key. */
  lemma ClassLookupFindsFields(name: string, attrs: Attrs, reserved: set<string>, members: set<string>, i: nat)
    requires DistinctKeys(attrs)
    requires Register(name, attrs, reserved).Ok?
    requires i < |Rest(attrs)| && Rest(attrs)[i].1.FieldDecl? && Rest(attrs)[i].0 !in members
    ensures var c := ModelClass(Lower(name), members, Register(name, attrs, reserved).value);
      ClassGetAttr(c, Rest(attrs)[i].0) == Ok(FieldAttr(Named(Rest(attrs)[i].1.field, Rest(attrs)[i].0)))
  {
    RegisterOk(name, attrs, reserved);
    FieldsDictOfEntries(Rest(attrs), i);
  }

  /** As written, looking up on the class any name that ordinary lookup does
      not resolve, declared field or not, exhausts the recursion budget. */
  lemma {:induction false} ClassGetAttrAsWrittenRecurses(c: ModelClass, key: string, depth: nat)
    requires key !in c.members
    ensures ClassGetAttrAsWritten(c, key, depth) == Err(RecursionError)
  {
    if depth > 0 {
      ClassGetAttrAsWrittenRecurses(c, key, depth - 1);
    }
  }
}
