/** Worked scenarios on one model: `Person` with an auto-increment primary
    key `id` and a plain field `name`. */
module Scenarios {
  import opened Common
  import opened Meta
  import opened Records
  import opened Codec

  /** The class body of `Person`; `__module__` is a framework-reserved name. */
  function PersonBody(): Attrs
  {
    [ ("__module__", Plain(Str("app"))),
      ("id", FieldDecl(Field("", true, 1, None))),
      ("name", FieldDecl(Field("", false, 0, None))) ]
  }

  const PersonReserved: set<string> := {"__module__", "__qualname__"}

  const PersonId := Field("id", true, 1, None)
  const PersonName := Field("name", false, 0, None)

  lemma PersonRest()
    ensures Rest(PersonBody()) == PersonBody()
    ensures Without(PersonBody(), {"__db__", "__table__"}) == PersonBody()
  {
  }

  lemma PersonScan()
    ensures ScanAll(PersonBody(), PersonReserved) ==
      Ok(ScanState([("id", PersonId), ("name", PersonName)], PkRecord(true, Some(PersonId), Some(1))))
  {
    var body := PersonBody();
    var id, name := PersonId, PersonName;
    assert body[..1][..0] == [];
    assert ScanAll(body[..1], PersonReserved) == Ok(InitialScan);
    assert body[..2][..1] == body[..1] && body[..2][1] == body[1];
    assert Named(body[1].1.field, "id") == id;
    assert InitialScan.fields + [("id", id)] == [("id", id)];
    assert Step(InitialScan, "id", body[1].1, PersonReserved) == Ok(ScanState([("id", id)], PkRecord(true, Some(id), Some(1))));
    assert ScanAll(body[..2], PersonReserved) == Ok(ScanState([("id", id)], PkRecord(true, Some(id), Some(1))));
    assert body[..2] == body[..|body| - 1];
    assert Named(body[2].1.field, "name") == name;
    assert [("id", id)] + [("name", name)] == [("id", id), ("name", name)];
    assert Step(ScanState([("id", id)], PkRecord(true, Some(id), Some(1))), "name", body[2].1, PersonReserved)
      == Ok(ScanState([("id", id), ("name", name)], PkRecord(true, Some(id), Some(1))));
  }

  lemma PersonLower()
    ensures Lower("Person") == "person"
  {
  }

  /** `Person` registers as table `person` with the auto-increment key `id`;
      as written, the same body is refused with `TypeError`. */
  lemma PersonRegisters()
    ensures Register("Person", PersonBody(), PersonReserved) == Ok(PersonTable())
    ensures RegisterAsWritten("Person", PersonBody(), PersonReserved) == Err(TypeError)
  {
    PersonRest();
    PersonScan();
    PersonLower();
  }

  function PersonTable(): Table
  {
    Table(None, "person", [("id", PersonId), ("name", PersonName)], Key(PersonId, true, Some(1)), [], None, None)
  }

  /** `Person.name` on the class finds the field; as written it recurses
      until the interpreter gives up. */
  lemma PersonClassLookup(depth: nat)
    ensures ClassGetAttr(ModelClass("Person", {"__table__"}, PersonTable()), "name") == Ok(FieldAttr(PersonName))
    ensures ClassGetAttrAsWritten(ModelClass("Person", {"__table__"}, PersonTable()), "name", depth) == Err(RecursionError)
  {
    var fs := PersonTable().fields;
    assert fs[..1] == [fs[0]] && fs[..1][..0] == [];
    assert FieldsDict(fs[..1]) == map["id" := fs[0].1];
    ClassGetAttrAsWrittenRecurses(ModelClass("Person", {"__table__"}, PersonTable()), "name", depth);
  }

  /** `Person(name="Alice")` is built, `Person(id=5)` is refused, reading the
      unset `id` gives `None`, and removing the record fails because its key
      is unset. */
  lemma PersonRecordPolicy()
    ensures WriteAll(PersonTable(), map[], [("name", Str("Alice"))], false) == (map["name" := Str("Alice")], None)
    ensures WriteAll(PersonTable(), map[], [("id", Int(5))], false) == (map[], Some(ModifyAutoPkError))
    ensures WriteAll(PersonTable(), map[], [("age", Int(30))], false) == (map[], Some(AttributeError("age")))
    ensures ReadAttr(PersonTable(), map["name" := Str("Alice")], "id") == Ok(Null)
    ensures RemoveKey(PersonTable(), map["name" := Str("Alice")]) == Err(RuntimeError)
  {
    var fs := PersonTable().fields;
    assert fs[..1] == [fs[0]] && fs[..1][..0] == [];
    assert FieldsDict(fs[..1]) == map["id" := fs[0].1];
    assert FieldsDict(fs) == map["id" := fs[0].1, "name" := fs[1].1];
    assert DeclaredKeys(PersonTable()) == {"id", "name"};
  }

  /** A row fetched with its `id` column cannot be loaded into a `Person`,
      while the same row without it can. */
  lemma PersonLoad()
    ensures Load(RDict([("id", Int(1)), ("name", Str("Alice"))]), PersonTable(), false) == Err(ModifyAutoPkError)
    ensures Load(RDict([("name", Str("Alice"))]), PersonTable(), false) == Ok(Instance(map["name" := Str("Alice")]))
    ensures Load(RList([]), PersonTable(), false) == Ok(Fetch([]))
    ensures Load(RList([]), PersonTable(), true) == Ok(Mapping(RList([RDict([])])))
  {
  }

  /** `Account`: the key `id` is declared as `IntField(name="user_id",
      primary_key=True, ai=1)` and `nick` as `StrField(name="nickname")`, so
      both fields carry a name other than their attribute key. */
  function AccountBody(): Attrs
  {
    [ ("id", FieldDecl(AccountId)),
      ("nick", FieldDecl(AccountNick)) ]
  }

  const AccountId := Field("user_id", true, 1, None)
  const AccountNick := Field("nickname", false, 0, None)

  function AccountTable(): Table
  {
    Table(None, "account", [("id", AccountId), ("nick", AccountNick)], Key(AccountId, true, Some(1)), [], None, None)
  }

  lemma AccountScan()
    ensures ScanAll(AccountBody(), PersonReserved) ==
      Ok(ScanState([("id", AccountId), ("nick", AccountNick)], PkRecord(true, Some(AccountId), Some(1))))
  {
    var body := AccountBody();
    var id, nick := AccountId, AccountNick;
    assert body[..1][..0] == [];
    assert ScanAll(body[..1][..0], PersonReserved) == Ok(InitialScan);
    assert body[..1][0] == body[0];
    assert Named(body[0].1.field, "id") == id;
    assert InitialScan.fields + [("id", id)] == [("id", id)];
    assert Step(InitialScan, "id", body[0].1, PersonReserved) == Ok(ScanState([("id", id)], PkRecord(true, Some(id), Some(1))));
    assert ScanAll(body[..1], PersonReserved) == Ok(ScanState([("id", id)], PkRecord(true, Some(id), Some(1))));
    assert body[..1] == body[..|body| - 1];
    assert Named(body[1].1.field, "nick") == nick;
    assert [("id", id)] + [("nick", nick)] == [("id", id), ("nick", nick)];
    assert Step(ScanState([("id", id)], PkRecord(true, Some(id), Some(1))), "nick", body[1].1, PersonReserved)
      == Ok(ScanState([("id", id), ("nick", nick)], PkRecord(true, Some(id), Some(1))));
  }

  /** `Account` registers as table `account` with the auto-increment key
      `id`, whose field name is `user_id`. */
  lemma AccountRegisters()
    ensures Register("Account", AccountBody(), PersonReserved) == Ok(AccountTable())
  {
    AccountScan();
    assert Rest(AccountBody()) == AccountBody();
    assert Lower("Account") == "account";
  }

  lemma AccountDeclaredKeys()
    ensures DeclaredKeys(AccountTable()) == {"id", "nick"}
  {
    var fs := AccountTable().fields;
    assert fs[..1] == [fs[0]] && fs[..1][..0] == [];
    assert FieldsDict(fs[..1]) == map["id" := fs[0].1];
  }

  /** The auto-increment guard compares the written key with the primary
      key's name `user_id`, while the declared-key check and the store use
      the attribute key: `Account(id=5)` is accepted and stores 5 under `id`
      with the record invariant still holding, and `Account(user_id=5)` is
      refused. */
  lemma AccountKeyWritable()
    ensures WriteAll(AccountTable(), map[], [("id", Int(5))], false) == (map["id" := Int(5)], None)
    ensures AutoPkAbsent(AccountTable(), map["id" := Int(5)])
    ensures WriteAll(AccountTable(), map[], [("user_id", Int(5))], false) == (map[], Some(ModifyAutoPkError))
  {
    AccountDeclaredKeys();
  }

  /** `__self__` reads each field by its name, not its attribute key: the
      stored `id` is read as the unset `user_id` and dropped, and reading
      `nickname` fails, so the snapshot fails. */
  lemma AccountSnapshotFails()
    ensures SnapshotOf(AccountTable(), map["id" := Int(5)], AccountTable().fields) == Err(AttributeError("nickname"))
  {
    AccountDeclaredKeys();
    var t, d, fs := AccountTable(), map["id" := Int(5)], AccountTable().fields;
    assert fs[..1][..0] == [];
    assert fs[..1] == fs[..|fs| - 1];
    assert Contribution(t, d, AccountId) == Ok(Null);
    assert SnapshotOf(t, d, fs[..1]) == Ok(map[]);
    assert Contribution(t, d, AccountNick) == Err(AttributeError("nickname"));
  }
}
