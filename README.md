# trod model core in Dafny

A model of the core of trod's object-relational mapping layer,
`trod/model_/core.py`, and proofs about it. The model has three parts.

- **Schema registration** (`_ModelMeta`, module `Meta`). A class body is an
  ordered sequence of (attribute key, attribute value) pairs. `__prepare__`
  scans it and builds the table metadata: an ordered field map and a
  primary-key record holding `field`, `auto` and `ai`. It refuses a
  duplicate primary key, a missing primary key, an attribute that is neither
  a field nor a framework-reserved name, and an attribute keyed by the
  primary key's name. The table name is always the lower-cased class name.
  A registered class refuses every attribute assignment. Attribute lookup on
  the class falls back to the field map.
- **Records** (`_Model`, module `Records`). A record is a class `Record`
  wrapping the instance dictionary `dict: map<string, Value>`. A write under
  the primary-key field's name is refused on every path when the key is
  auto-increment. A write to an undeclared attribute key is refused unless
  it comes through the loader path. A read of a declared but unset field
  gives `None`. The `__self__` snapshot keeps the non-`None` field values
  and applies callable defaults. The `_remove` guard refuses a falsy primary
  key. `Record.Valid()` is the invariant every write keeps: nothing is
  stored under the name of an auto-increment primary-key field.
  The guard compares with the field's name (core.py:123), but the
  declared-key check and the store use the attribute key (core.py:127, 132).
  So when a field is declared with an explicit name that differs from its
  attribute key, the two disagree. A write under the attribute key of a
  renamed auto-increment key goes through and is stored
  (`Scenarios.AccountKeyWritable`). `__self__` reads each field by its name
  (core.py:140), so a renamed field that is not the primary key makes the
  snapshot fail with `AttributeError` (`Scenarios.AccountSnapshotFails`).
- **Result codec** (`load`, `_empty`, `_load_to_model`, module `Codec`).
  This is a case analysis on the result's shape (dict, list or tuple, other)
  crossed with the `use_tdict` flag. It includes the empty-result policy: a
  fresh unpopulated record for an empty dict, and `[Tdict()]` for an empty
  list. `Codec.Do` is `_do` on a `Record` object; `Codec.Load` gives the
  records it builds as their instance dictionaries.

Module `Scenarios` works one model through all three parts: `Person`, with an
auto-increment key `id` and a field `name`.

Points where the code behaves differently from what its names suggest:

- The loader path is refused an auto-increment primary key just like the
  public path (core.py:122-126). So a fetched row that carries its `id`
  column cannot be loaded into a record of an auto-increment table
  (`Codec.LoadRowAccepts`, `Scenarios.PersonLoad`).
- An explicit `__table__` is popped but ignored: the table name is always the
  lower-cased class name (core.py:19-25).
- Indexes are not checked against the fields: each index only has to be an
  index declaration (core.py:64-66).
- Duplicate-name detection only compares later keys with the primary key's
  name (core.py:31-32). It is not a general duplicate-field check.
- An absent result (`None`) is falsy and neither a dict, a list nor a tuple,
  so `load` raises `ValueError` for it even when a single record was asked
  for (core.py:311-320, `Codec.EmptyPolicy`).
- `_remove` refuses any falsy primary-key value, so a stored `0` or `""` is
  refused just like an unset key (core.py:273-275, `Records.RemoveKey`).

## Model

| member | source | states |
|---|---|---|
| `Meta.Prepare` | trod/model_/core.py:17-74 | the scan loop, the primary-key check and the index loop compute exactly `Register`: the first failing check decides the error, and on success the table carries the scanned fields, key, indexes, charset and comment |
| `Meta.Scan` | trod/model_/core.py:27-54 | the body loop fills the field map and the primary-key record exactly as `ScanAll` does, and stops with the error of the first attribute that fails a check |
| `Meta.CheckIndexList` | trod/model_/core.py:64-66 | the index list is accepted if and only if every element is an index declaration |
| `Meta.ScanAccepts` | trod/model_/core.py:27-54 | the scan succeeds if and only if the body meets `Accepted`: every attribute is a field or a reserved name, and after the primary-key field no attribute is a second primary key or is keyed by the primary key's name |
| `Meta.ScanFacts` | trod/model_/core.py:27-52 | after a successful scan, the field map is every field declaration in declaration order, keyed by attribute key and named after the key when unnamed; `pk.field` is the primary-key field; `auto` and `ai` are set exactly when that field has `ai`, and stay `False`/`None` otherwise |
| `Meta.RegisterOk` | trod/model_/core.py:17-59 | a registered table comes from a body with exactly one primary-key declaration, which is `pk.field`; `pk.auto` is true and `pk.ai` is `ai` exactly when that field has `ai`; the field map keeps declaration order; the name is the lower-cased class name |
| `Meta.NoPkIff` | trod/model_/core.py:56-59 | registration fails with `NoPKError` if and only if the body is otherwise acceptable and declares no primary key |
| `Meta.SecondPkRejected` | trod/model_/core.py:36-40 | when nothing fails before it, a second primary-key field fails registration with `DuplicatePKError` naming that field |
| `Meta.PkNameReuseRejected` | trod/model_/core.py:30-32 | when nothing fails before it, an attribute keyed by the primary key's field name fails with `DuplicateFieldNameError` |
| `Meta.NonFieldRejected` | trod/model_/core.py:53-54 | when nothing fails before it, an attribute that is neither a field nor reserved fails with `InvalidFieldType` naming its key |
| `Meta.RegisterAsWrittenRefusesAll` | trod/model_/core.py:61-66 | as written, every body the intended registration accepts (without index, charset or comment keys) is refused with `TypeError` |
| `Meta.ClassLookupFindsFields` | trod/model_/core.py:76-86 | on a registered class, looking up a declared field's attribute key gives that field when ordinary lookup does not resolve the key |
| `Meta.ClassGetAttrAsWrittenRecurses` | trod/model_/core.py:76-86 | as written, looking up on the class any name that ordinary lookup does not resolve ends in `RecursionError`, whatever the recursion budget |
| `Meta.ClassSetAttr` | trod/model_/core.py:88-90 | every assignment on a registered class is refused with `ModelSetAttrError`; a class value has no state to change |
| `Records.Record.SetAttr` | trod/model_/core.py:121-132 | a write of the primary key of an auto-increment table fails with `ModifyAutoPkError`, even on the loader path; an undeclared key fails unless on the loader path; otherwise only that key's entry changes; the invariant `Valid` is kept |
| `Records.Record.Init` | trod/model_/core.py:95-97 | the keywords are written in order through the public path until one is refused; the new dictionary and the error are those of `WriteAll` |
| `Records.WriteAllAccepts` | trod/model_/core.py:121-132 | a batch of writes succeeds if and only if every key passes the write guard, and then the dictionary is the old one with every write applied |
| `Records.WriteAllStops` | trod/model_/core.py:95-97 | a refused batch raises the error of its first refused key and keeps exactly the writes before it |
| `Records.ApplyContents` | trod/model_/core.py:132 | after writes with distinct keys, the keys are the old ones plus the written ones, each written key holds its value, and every other entry is unchanged |
| `Records.WriteAllKeepsAutoPkAbsent` | trod/model_/core.py:121-126 | no batch of writes, on either path, ever stores an entry under the name of an auto-increment primary-key field |
| `Records.ReadAfterWrite` | trod/model_/core.py:109-132 | a write that passes the guard is read back as written, and every other key reads as before |
| `Records.ReadRules` | trod/model_/core.py:109-119 | a stored key reads its value; a declared but unset field or the primary-key name reads `None`; any other unset key fails with `AttributeError` |
| `Records.Record.Snapshot` | trod/model_/core.py:134-145 | the loop over the table's fields computes `SnapshotOf`, including the first read error |
| `Records.SnapshotShape` | trod/model_/core.py:136-145 | the snapshot exists if and only if every field name can be read; its keys are field names and it holds no `None` value |
| `Records.SnapshotValues` | trod/model_/core.py:136-145 | with distinct field names, each field's snapshot entry is its stored value; when that is unset or `None`, it is what calling a callable field yields; when that is `None` too, the field is absent |
| `Records.RemoveKey` | trod/model_/core.py:270-275 | the remove guard passes if and only if the primary-key value is stored and truthy, and then yields that value; otherwise it fails with `RuntimeError` |
| `Records.AutoPkRecordNotRemovable` | trod/model_/core.py:270-275 | a record of an auto-increment table that satisfies the record invariant always fails the remove guard |
| `Codec.EmptyPolicy` | trod/model_/core.py:300-320 | a falsy dict gives `Tdict()` or a fresh unpopulated record; a falsy list or tuple gives `[Tdict()]` or an empty FetchResult; any other falsy value fails with `ValueError` |
| `Codec.MappingPassThrough` | trod/model_/core.py:305-306 | a non-empty result requested as mappings is returned unchanged |
| `Codec.OtherShapeRefused` | trod/model_/core.py:337 | a truthy result that is neither a dict nor a list or tuple, requested as records, fails with `ValueError` |
| `Codec.LoadRowAccepts` | trod/model_/core.py:326-330 | a row loads if and only if no entry is keyed by the name of an auto-increment primary-key field; the record then holds every entry of the row and nothing under that name; otherwise the error is `ModifyAutoPkError` |
| `Codec.LoadDict` | trod/model_/core.py:332-333 | a non-empty dict requested as a record gives one record with every key written through the loader path, exactly when no auto-increment key is among them |
| `Codec.LoadRowsFacts` | trod/model_/core.py:334-335 | the list comprehension succeeds if and only if every element is a dict that loads, and then keeps length and order |
| `Codec.LoadList` | trod/model_/core.py:334-335 | a non-empty list or tuple requested as records gives a FetchResult of the same length and order, one record per row; a list and a tuple load alike |
| `Codec.LoadedRecordsValid` | trod/model_/core.py:323-337 | every record a load produces satisfies the record invariant |
| `Codec.Do` | trod/model_/core.py:326-330 | `_do` builds a fresh record bound to the table whose dictionary is `LoadRow`'s, or fails with `LoadRow`'s error |
| `Codec.LoadRowAsWrittenRefusesRows` | trod/model_/core.py:329 | as written, every non-empty row that the loader path loads fails instead |
| `Scenarios.PersonRegisters` | trod/model_/core.py:17-74 | the `Person` body registers as table `person` with auto-increment key `id`, and as written is refused with `TypeError` |
| `Scenarios.PersonClassLookup` | trod/model_/core.py:76-86 | `Person.name` finds the field, and as written ends in `RecursionError` |
| `Scenarios.PersonRecordPolicy` | trod/model_/core.py:95-132 | `Person(name="Alice")` is built, `Person(id=5)` and `Person(age=30)` are refused, the unset `id` reads `None`, and removal fails with `RuntimeError` |
| `Scenarios.PersonLoad` | trod/model_/core.py:300-337 | a `Person` row with its `id` column fails to load, the same row without it loads, and an empty list gives an empty FetchResult or `[Tdict()]` |
| `Scenarios.AccountRegisters` | trod/model_/core.py:30-52 | a body whose primary-key field is declared with the name `user_id` under the key `id` registers, with `user_id` as the key's name |
| `Scenarios.AccountKeyWritable` | trod/model_/core.py:120-132 | the guard compares with the key field's name, so `Account(id=5)` is accepted and stores 5 under `id` with the record invariant holding, while `Account(user_id=5)` raises `ModifyAutoPkError` |
| `Scenarios.AccountSnapshotFails` | trod/model_/core.py:135-145 | `__self__` reads fields by name: the stored `id` is read as the unset `user_id` and dropped, and the renamed field `nickname` raises `AttributeError` |

## Findings

| source | as written | input that shows it | evidently intended | confidence | as-written member | corrected member |
|---|---|---|---|---|---|---|
| trod/model_/core.py:61-66 | `isinstance(types.SEQUENCE)` is called with one argument, so every body that passes the scan is refused with `TypeError`; the scan has already popped `__indexes__`, `__charset__` and `__comment__` before they are read | the `Person` body (`id` auto-increment primary key, `name`) | read the index list, charset and comment before the scan, and test `isinstance(indexes, types.SEQUENCE)` | high, not executed | `Meta.RegisterAsWrittenRefusesAll` | `Meta.RegisterOk` |
| trod/model_/core.py:76-86 | `getattr(cls, key)` inside the class's `__getattr__` re-enters the hook, so the fallback to the field map is never reached | `Person.name` | after ordinary lookup fails, look the key up in `fields_dict` | high, not executed | `Meta.ClassGetAttrAsWrittenRecurses` | `Meta.ClassLookupFindsFields` |
| trod/model_/core.py:329 | `model.set_value(...)` calls a method `_Model` does not define, so every non-empty row fails | loading `{"name": "Alice"}` as a `Person` | write through the loader path, `__setattr__(key, value, is_loader=True)` | high, not executed | `Codec.LoadRowAsWrittenRefusesRows` | `Codec.LoadDict` |

The rest of the model uses the corrected definitions: `Meta.Register` and
`Meta.Prepare`, `Meta.ClassGetAttr`, and `Codec.LoadRow` and `Codec.Do`.

## Left out

- Statement building and DDL (`_create_table`, `_drop_table`, `_get`, `_get_many`, `_add`, `_add_many`, `_select`, `_insert`, `_insert_many`, `_update`, `_delete`, `_replace`, `_save`): these delegate to `tables.Select/Insert/Update/Delete/Replace` and an asynchronous driver. `trod/model_/tables.py` is not part of this model.
- `_alter` and `_show`: they only call `Table.show()` and `Table.alter()`, which are not part of this model, and they look swapped.
- The delete that `_remove` issues after its guard is asynchronous I/O. Only the guard is modelled (`Records.RemoveKey`).
- The `_save` write-back to the attribute named after the table depends on asynchronous I/O.
- `warnings.warn` notices (no table name, unconventional auto-increment name): these are a side channel with no effect on results.
- `__repr__`, `__str__` and `__hash__`. The bodies of `Rows`, `Loader`, the `FetchResult` overrides and `ExecResults.__repr__` are `pass`. `FetchResult` is a plain sequence. `ExecResults` is a datatype holding its two fields.
- `utils.formattdict` and `utils.tdictformatter` are foreign calls. They are modelled as the identity.
- `_ModelMeta.__new__` skips registration for the classes named `_Model` and `Model`. Those base classes carry no table.
- `Table.DEFAULT` is defined in `tables.py`. It is the parameter `reserved` of registration.
- `Table.fields_dict` is taken to be the field map that registration passes in, keyed by attribute key. `Table.fields` is taken to be its values in order.
- Field objects are taken to be truthy. `callable(f)` and `f()` are the field's `default`: `Some(v)` when calling it yields `v`. "Is an IndexBase" is the `IndexDecl` constructor, and "is a sequence" is the `Items` constructor.
- `str.lower` is modelled on ASCII letters only. Unicode case mapping is out of scope.
- Exception messages are left out. Each error is its exception class and, where useful, the offending name.
- The interpreter's recursion limit is the `depth` parameter of `Meta.ClassGetAttrAsWritten`.
- `Codec.Load` returns the records it builds as their instance dictionaries. `Codec.Do` builds the same record as a `Record` object.
- Field objects are taken to be unshared. `field.name = field.name or attr` (core.py:35) renames the field object in place. If one object is bound under two keys (`a = b = StrField()`), or reused by two classes, the source names it after its first key everywhere. The model treats a field as a value and names each entry after its own key (`Meta.Named`), so this aliasing is not captured.
- Python itself calls a metaclass's `__prepare__` as `__prepare__(name, bases)` before the class body runs. `_ModelMeta.__prepare__` is a plain function expecting `(cls, name, attrs)`, so that implicit call fails on argument binding. The model takes `__prepare__` as the registration step that `__new__` calls with the finished body (core.py:14).
