/** The durable credential tables (`auth_user`, `auth_host`) behind the
    repositories: rows keyed by email, so that the unique constraint on the
    email column holds by construction, each with the identity id the
    database assigned on insert and a uuid that is unique too. */
module Credentials {
  import opened Common

  datatype LoginType = Normal | Social

  /** `NONE`, `KAKAO` and any provider added later. */
  datatype SocialProvider = NoProvider | Kakao | OtherProvider(name: string)

  /** One stored principal. `id` is absent until the row is first saved;
      `password` is the stored hash, absent for social sign-ups. Host rows
      are always `Normal` with `NoProvider`. */
  datatype Row = Row(id: Option<int>, uuid: string, email: string, password: Option<string>,
                     loginType: LoginType, provider: SocialProvider, locked: bool)

  type Table = map<string, Row>

  /** The widths of the bounded text columns, the same in both tables. */
  const EmailColumnLength: int := 100
  const UuidColumnLength: int := 36
  const PasswordColumnLength: int := 100

  /** The row's email, uuid and stored hash fit their columns. */
  predicate FitsColumns(row: Row) {
    && |row.email| <= EmailColumnLength
    && |row.uuid| <= UuidColumnLength
    && (row.password.Some? ==> |row.password.value| <= PasswordColumnLength)
  }

  /** What the database refuses a row for: either unique constraint, or a
      value longer than its column. */
  datatype Constraint = EmailUnique | UuidUnique | ValueTooLong

  /** What `save` does: the new table, the row's id and the next identity
      value; a broken unique constraint; or, for an id no row has, the
      stale-row failure the persistence layer raises on merge. */
  datatype SaveResult =
    | Saved(table: Table, id: int, nextId: int)
    | Violated(constraint: Constraint)
    | StaleRow

  /** Keys are the rows' emails, every row fits its columns, ids were
      handed out below `nextId`, and no two rows share an id or a uuid. */
  ghost predicate TableValid(t: Table, nextId: int) {
    && 1 <= nextId
    && (forall e | e in t :: t[e].email == e && t[e].id.Some? && 1 <= t[e].id.value < nextId)
    && (forall e | e in t :: FitsColumns(t[e]))
    && (forall e1, e2 | e1 in t && e2 in t && e1 != e2 ::
          t[e1].id != t[e2].id && t[e1].uuid != t[e2].uuid)
  }

  predicate UuidTaken(t: Table, uuid: string) {
    exists e | e in t :: t[e].uuid == uuid
  }

  predicate IdPresent(t: Table, id: int) {
    exists e | e in t :: t[e].id == Some(id)
  }

  /** `deleteById`: removes the row with that id; an id no row has is not
      an error. */
  function WithoutId(t: Table, id: int): (r: Table)
    ensures forall e :: e in r <==> e in t && t[e].id != Some(id)
    ensures forall e | e in r :: r[e] == t[e]
  {
    map e | e in t && t[e].id != Some(id) :: t[e]
  }

  /** `save`: a row without an id is inserted under the next identity
      value; a row with an id replaces the row holding that id. Either way
      the email and uuid must be free among the other rows, and every value
      must fit its column. The model reports a broken unique constraint
      ahead of a value that is too long. */
  function SaveRow(t: Table, nextId: int, row: Row): (r: SaveResult)
    ensures r.Saved? ==> FitsColumns(row)
    ensures r.Saved? ==> row.email in r.table && r.table[row.email] == row.(id := Some(r.id))
    ensures row.id.None? ==> (r.Violated? && r.constraint == EmailUnique <==> row.email in t)
    ensures row.id.None? && row.email !in t && !UuidTaken(t, row.uuid) ==>
              r == if FitsColumns(row) then Saved(t[row.email := row.(id := Some(nextId))], nextId, nextId + 1)
                   else Violated(ValueTooLong)
  {
    if row.id.Some? && !IdPresent(t, row.id.value) then StaleRow
    else
      var rest := if row.id.Some? then WithoutId(t, row.id.value) else t;
      var id := if row.id.Some? then row.id.value else nextId;
      if row.email in rest then Violated(EmailUnique)
      else if UuidTaken(rest, row.uuid) then Violated(UuidUnique)
      else if !FitsColumns(row) then Violated(ValueTooLong)
      else Saved(rest[row.email := row.(id := Some(id))], id, if row.id.Some? then nextId else nextId + 1)
  }

  /** A successful save keeps the table valid. */
  lemma SaveKeepsValid(t: Table, nextId: int, row: Row)
    requires TableValid(t, nextId)
    ensures var r := SaveRow(t, nextId, row);
            r.Saved? ==> TableValid(r.table, r.nextId)
  {
    var r := SaveRow(t, nextId, row);
    if r.Saved? {
      var rest := if row.id.Some? then WithoutId(t, row.id.value) else t;
      assert r.table == rest[row.email := row.(id := Some(r.id))];
      if row.id.Some? {
        var e0 :| e0 in t && t[e0].id == row.id;
        assert 1 <= r.id < nextId;
      }
      forall e1, e2 | e1 in r.table && e2 in r.table && e1 != e2
        ensures r.table[e1].id != r.table[e2].id && r.table[e1].uuid != r.table[e2].uuid
      {
        if e1 == row.email {
          assert e2 in rest && rest[e2].uuid != row.uuid;
        } else if e2 == row.email {
          assert e1 in rest && rest[e1].uuid != row.uuid;
        }
      }
    }
  }

  /** The compensation of the registration sagas: deleting the id a fresh
      insert received gives back exactly the table before the insert. */
  lemma InsertThenDeleteRestores(t: Table, nextId: int, row: Row)
    requires TableValid(t, nextId) && row.id.None?
    ensures var r := SaveRow(t, nextId, row);
            r.Saved? ==> WithoutId(r.table, r.id) == t
  {
    var r := SaveRow(t, nextId, row);
    if r.Saved? {
      assert r.id == nextId;
      var d := WithoutId(r.table, r.id);
      assert forall e | e in t :: t[e].id != Some(nextId);
      assert d.Keys == t.Keys;
    }
  }

  /** Writing back a stored row with only its lock flag set always
      succeeds, and changes that row's flag and nothing else. */
  lemma LockWriteSucceeds(t: Table, nextId: int, email: string)
    requires TableValid(t, nextId) && email in t
    ensures SaveRow(t, nextId, t[email].(locked := true))
            == Saved(t[email := t[email].(locked := true)], t[email].id.value, nextId)
  {
    var row := t[email].(locked := true);
    var rest := WithoutId(t, row.id.value);
    assert IdPresent(t, row.id.value);
    assert rest == t - {email};
    assert !UuidTaken(rest, row.uuid);
    assert rest[email := row] == t[email := row];
  }

  /** The table of one repository and its identity sequence. */
  class Repository {
    var rows: Table
    var nextId: int

    ghost predicate Valid()
      reads this
    {
      TableValid(rows, nextId)
    }

    constructor()
      ensures rows == map[] && nextId == 1 && Valid()
    {
      rows := map[];
      nextId := 1;
    }

    /** `findByEmail`. */
    method FindByEmail(email: string) returns (r: Option<Row>)
      requires Valid()
      ensures r.Some? <==> email in rows
      ensures r.Some? ==> r.value == rows[email] && r.value.email == email && r.value.id.Some?
    {
      if email in rows {
        r := Some(rows[email]);
      } else {
        r := None;
      }
    }

    /** `save`: the table changes only when the save succeeds. */
    method Save(row: Row) returns (r: SaveResult)
      requires Valid()
      modifies this
      ensures r == SaveRow(old(rows), old(nextId), row)
      ensures r.Saved? ==> rows == r.table && nextId == r.nextId
      ensures !r.Saved? ==> rows == old(rows) && nextId == old(nextId)
      ensures Valid()
    {
      r := SaveRow(rows, nextId, row);
      SaveKeepsValid(rows, nextId, row);
      if r.Saved? {
        rows, nextId := r.table, r.nextId;
      }
    }

    /** `deleteById`. */
    method DeleteById(id: int)
      requires Valid()
      modifies this`rows
      ensures rows == WithoutId(old(rows), id)
      ensures Valid()
    {
      rows := WithoutId(rows, id);
    }
  }
}
