/** The data-access layer over the `registrations` table: insert, lookups by id
    and by email, the newest-first listing, the field-by-field update and the
    delete. The database session is the `Table` object; a commit is the
    assignment of its new `rows`. */
module RegService {
  import opened Common
  import opened Schemas
  import opened Models

  /** `list_registrations(db)` without a `limit`. */
  const DefaultListLimit: nat := 50

  /** Why the database refuses an insert: a value wider than its column, or an
      email the unique index already holds. */
  datatype StoreError = ValueTooLong | DuplicateEmail

  /** The columns of a row that come from the request. */
  function Submitted(rec: Registration): NewRegistration {
    NewRegistration(rec.fullName, rec.email, rec.phone, rec.dateOfBirth, rec.address)
  }

  /** The row `create_registration` inserts: the validated fields, a fresh
      `uuid4` id and the `utcnow` instant. */
  function NewRow(data: NewRegistration, id: Id, now: Timestamp): (r: Registration)
    ensures Submitted(r) == data && r.id == id && r.createdAt == now
  {
    Registration(id, data.fullName, data.email, data.phone, data.dateOfBirth, data.address, now)
  }

  /** What the database makes of inserting `NewRow(data, id, now)`: the row is
      coerced to its column types before the unique index is consulted. */
  function Insert(rows: Rows, data: NewRegistration, id: Id, now: Timestamp): (r: Result<Registration, StoreError>)
    ensures r.Ok? <==> ColumnsFit(NewRow(data, id, now)) && !EmailTaken(rows, data.email)
    ensures r.Ok? ==> r.value == NewRow(data, id, now)
    ensures r == Err(ValueTooLong) <==> !ColumnsFit(NewRow(data, id, now))
  {
    var row := NewRow(data, id, now);
    if !ColumnsFit(row) then Err(ValueTooLong)
    else if EmailTaken(rows, data.email) then Err(DuplicateEmail)
    else Ok(row)
  }

  /** A validated registration always fits the name and phone columns, so the
      only value the database can find too long is an email over 200
      characters. */
  lemma TooLongOnlyForEmail(rows: Rows, data: NewRegistration, id: Id, now: Timestamp, today: Date)
    requires IsNormalized(data, today)
    ensures Insert(rows, data, id, now) == Err(ValueTooLong) <==> |data.email| > EmailColumnLength
  {
    var cleaned := data.phone;
    assert |cleaned| <= 16;
  }

  /** An accepted insert under a fresh id keeps the table's constraints, adds
      exactly the new row, and makes it the answer to lookups by its id and by
      its email. */
  lemma InsertKeepsInvariant(rows: Rows, data: NewRegistration, id: Id, now: Timestamp)
    requires TableInvariant(rows) && id !in rows && Insert(rows, data, id, now).Ok?
    ensures var rows' := rows[id := Insert(rows, data, id, now).value];
            && TableInvariant(rows')
            && |rows'| == |rows| + 1
            && ByEmail(rows', data.email) == Some(NewRow(data, id, now))
  {
    var row := NewRow(data, id, now);
    var rows' := rows[id := row];
    assert TableInvariant(rows') by {
      forall k1, k2 | k1 in rows' && k2 in rows' && rows'[k1].email == rows'[k2].email
        ensures k1 == k2
      {
        if k1 != id && k2 != id {
          assert rows[k1].email == rows[k2].email;
        }
      }
    }
    ByEmailIsThatRow(rows', id);
  }

  // ---------------------------------------------------------------------------
  // Updates

  /** One `setattr(reg, field, value)`. */
  datatype FieldUpdate =
    | SetFullName(fullName: string)
    | SetEmail(email: string)
    | SetPhone(phone: string)
    | SetDateOfBirth(dateOfBirth: CalendarDate)
    | SetAddress(address: Option<string>)

  function SetAttr(rec: Registration, u: FieldUpdate): Registration {
    match u
    case SetFullName(v) => rec.(fullName := v)
    case SetEmail(v) => rec.(email := v)
    case SetPhone(v) => rec.(phone := v)
    case SetDateOfBirth(v) => rec.(dateOfBirth := v)
    case SetAddress(v) => rec.(address := v)
  }

  /** `updates.dict(exclude_unset=True).items()`: one item per set field, in
      declaration order. */
  function Items(p: Patch): (items: seq<FieldUpdate>)
    ensures |items| <= 5
    ensures items == [] <==> IsEmptyPatch(p)
  {
    (if p.fullName.Some? then [SetFullName(p.fullName.value)] else [])
    + (if p.email.Some? then [SetEmail(p.email.value)] else [])
    + (if p.phone.Some? then [SetPhone(p.phone.value)] else [])
    + (if p.dateOfBirth.Some? then [SetDateOfBirth(p.dateOfBirth.value)] else [])
    + (if p.address.Some? then [SetAddress(p.address.value)] else [])
  }

  /** The record after the `setattr` calls for `items`, first to last. */
  function ApplyAll(rec: Registration, items: seq<FieldUpdate>): Registration
    decreases |items|
  {
    if items == [] then rec else SetAttr(ApplyAll(rec, items[..|items| - 1]), items[|items| - 1])
  }

  /** Applying two runs of updates one after the other is applying their
      concatenation. */
  lemma {:induction false} ApplyAllAppend(rec: Registration, a: seq<FieldUpdate>, b: seq<FieldUpdate>)
    ensures ApplyAll(rec, a + b) == ApplyAll(ApplyAll(rec, a), b)
    decreases |b|
  {
    if b == [] {
      assert a + b == a;
    } else {
      assert (a + b)[..|a + b| - 1] == a + b[..|b| - 1];
      ApplyAllAppend(rec, a, b[..|b| - 1]);
    }
  }

  /** The record a patch describes: each set field takes its new value, every
      other column, `id` and `createdAt` included, keeps the old one. */
  function Patched(rec: Registration, p: Patch): (r: Registration)
    ensures r.id == rec.id && r.createdAt == rec.createdAt
  {
    Registration(
      rec.id,
      p.fullName.GetOr(rec.fullName),
      p.email.GetOr(rec.email),
      p.phone.GetOr(rec.phone),
      p.dateOfBirth.GetOr(rec.dateOfBirth),
      p.address.GetOr(rec.address),
      rec.createdAt)
  }

  /** One optional update more: applying `a + x`, with at most one update in
      `x`, is applying `a` and then that update. */
  lemma ApplyAllOne(rec: Registration, a: seq<FieldUpdate>, x: seq<FieldUpdate>)
    requires |x| <= 1
    ensures ApplyAll(rec, a + x) == if x == [] then ApplyAll(rec, a) else SetAttr(ApplyAll(rec, a), x[0])
  {
    if x == [] {
      assert a + x == a;
    } else {
      assert (a + x)[..|a + x| - 1] == a;
    }
  }

  /** The `setattr` loop writes exactly the fields the patch sets. */
  lemma ApplyItemsIsPatched(rec: Registration, p: Patch)
    ensures ApplyAll(rec, Items(p)) == Patched(rec, p)
  {
    var a := if p.fullName.Some? then [SetFullName(p.fullName.value)] else [];
    var b := if p.email.Some? then [SetEmail(p.email.value)] else [];
    var c := if p.phone.Some? then [SetPhone(p.phone.value)] else [];
    var d := if p.dateOfBirth.Some? then [SetDateOfBirth(p.dateOfBirth.value)] else [];
    var e := if p.address.Some? then [SetAddress(p.address.value)] else [];
    assert Items(p) == a + b + c + d + e;
    assert [] + a == a;
    ApplyAllOne(rec, [], a);
    ApplyAllOne(rec, a, b);
    ApplyAllOne(rec, a + b, c);
    ApplyAllOne(rec, a + b + c, d);
    ApplyAllOne(rec, a + b + c + d, e);
  }

  /** Updating with an empty patch changes nothing. */
  lemma EmptyPatchKeeps(rec: Registration, p: Patch)
    requires IsEmptyPatch(p)
    ensures Patched(rec, p) == rec
  {
  }

  /** The update commits: the row is still there, its new values fit their
      columns, and a new email is held by no other row. The source has no
      handling for a commit that fails, so this is what its callers need. */
  predicate Admits(rows: Rows, id: Id, p: Patch) {
    && id in rows
    && ColumnsFit(Patched(rows[id], p))
    && (p.email.Some? ==> forall k :: k in rows && k != id ==> rows[k].email != p.email.value)
  }

  /** An admitted update keeps the table's constraints. */
  lemma UpdateKeepsInvariant(rows: Rows, id: Id, p: Patch)
    requires TableInvariant(rows) && Admits(rows, id, p)
    ensures TableInvariant(rows[id := Patched(rows[id], p)])
    ensures |rows[id := Patched(rows[id], p)]| == |rows|
  {
    var rows' := rows[id := Patched(rows[id], p)];
    forall k1, k2 | k1 in rows' && k2 in rows' && rows'[k1].email == rows'[k2].email
      ensures k1 == k2
    {
    }
    assert rows'.Keys == rows.Keys;
  }

  // ---------------------------------------------------------------------------
  // Listing

  predicate IsListed(r: seq<Registration>, k: Id) {
    exists j :: 0 <= j < |r| && r[j].id == k
  }

  /** `ORDER BY created_at DESC LIMIT limit`: `min(limit, |rows|)` distinct rows
      of the table, newest first, and no row left out is newer than a row
      listed. */
  predicate NewestFirst(rows: Rows, r: seq<Registration>, limit: nat) {
    && |r| == (if |rows| < limit then |rows| else limit)
    && (forall i :: 0 <= i < |r| ==> r[i].id in rows && rows[r[i].id] == r[i])
    && (forall i, j :: 0 <= i < j < |r| ==> r[i].id != r[j].id)
    && (forall i, j :: 0 <= i < j < |r| ==> r[j].createdAt <= r[i].createdAt)
    && (forall k, i :: k in rows && !IsListed(r, k) && 0 <= i < |r| ==> rows[k].createdAt <= r[i].createdAt)
  }

  predicate IsNewest(m: Rows, k: Id)
    requires k in m
  {
    forall k' :: k' in m ==> m[k'].createdAt <= m[k].createdAt
  }

  /** A non-empty table has a newest row. */
  lemma {:induction false} NewestExists(m: Rows)
    requires |m| > 0
    ensures exists k :: k in m && IsNewest(m, k)
    decreases |m|
  {
    var k0 :| k0 in m;
    var rest := m - {k0};
    assert rest.Keys == m.Keys - {k0};
    if |rest| == 0 {
      assert forall k' :: k' in m ==> k' == k0;
      assert IsNewest(m, k0);
    } else {
      NewestExists(rest);
      var k1 :| k1 in rest && IsNewest(rest, k1);
      assert forall k' :: k' in m && k' != k0 ==> k' in rest && rest[k'] == m[k'];
      if m[k0].createdAt <= m[k1].createdAt {
        assert IsNewest(m, k1);
      } else {
        assert IsNewest(m, k0);
      }
    }
  }

  /** Part way through the listing: `r` holds rows taken newest first,
      `remaining` the rows not yet taken, each no newer than any taken. */
  ghost predicate Selection(rows: Rows, remaining: Rows, r: seq<Registration>) {
    && KeyedById(rows)
    && remaining.Keys <= rows.Keys
    && (forall k :: k in remaining ==> remaining[k] == rows[k])
    && (forall k :: k in rows ==> k in remaining || IsListed(r, k))
    && (forall i :: 0 <= i < |r| ==> r[i].id in rows && rows[r[i].id] == r[i] && r[i].id !in remaining)
    && (forall i, j :: 0 <= i < j < |r| ==> r[i].id != r[j].id)
    && (forall i, j :: 0 <= i < j < |r| ==> r[j].createdAt <= r[i].createdAt)
    && (forall k, i :: k in remaining && 0 <= i < |r| ==> remaining[k].createdAt <= r[i].createdAt)
    && |r| + |remaining| == |rows|
  }

  /** Taking the newest remaining row keeps the selection invariant. */
  lemma SelectNewest(rows: Rows, remaining: Rows, r: seq<Registration>, k: Id)
    requires Selection(rows, remaining, r) && k in remaining && IsNewest(remaining, k)
    ensures Selection(rows, remaining - {k}, r + [remaining[k]])
  {
    var r' := r + [remaining[k]];
    var rem' := remaining - {k};
    SelectNewestCovers(rows, remaining, r, k);
    SelectNewestRows(rows, remaining, r, k);
    SelectNewestOrdered(rows, remaining, r, k);
    assert rem'.Keys == remaining.Keys - {k};
  }

  lemma SelectNewestCovers(rows: Rows, remaining: Rows, r: seq<Registration>, k: Id)
    requires Selection(rows, remaining, r) && k in remaining
    ensures forall k' :: k' in rows ==> k' in remaining - {k} || IsListed(r + [remaining[k]], k')
  {
    var r' := r + [remaining[k]];
    assert r'[|r|].id == k;
    forall k' | k' in rows ensures k' in remaining - {k} || IsListed(r', k') {
      if k' !in remaining {
        var j :| 0 <= j < |r| && r[j].id == k';
        assert r'[j].id == k';
      }
    }
  }

  lemma SelectNewestRows(rows: Rows, remaining: Rows, r: seq<Registration>, k: Id)
    requires Selection(rows, remaining, r) && k in remaining
    ensures var r' := r + [remaining[k]];
            forall i :: 0 <= i < |r'| ==> r'[i].id in rows && rows[r'[i].id] == r'[i] && r'[i].id !in remaining - {k}
  {
    var r' := r + [remaining[k]];
    forall i | 0 <= i < |r'| ensures r'[i].id in rows && rows[r'[i].id] == r'[i] && r'[i].id !in remaining - {k} {
      if i < |r| {
        assert r'[i] == r[i];
      }
    }
  }

  lemma SelectNewestOrdered(rows: Rows, remaining: Rows, r: seq<Registration>, k: Id)
    requires Selection(rows, remaining, r) && k in remaining && IsNewest(remaining, k)
    ensures var r' := r + [remaining[k]];
            && (forall i, j :: 0 <= i < j < |r'| ==> r'[i].id != r'[j].id && r'[j].createdAt <= r'[i].createdAt)
            && (forall k', i :: k' in remaining - {k} && 0 <= i < |r'| ==> (remaining - {k})[k'].createdAt <= r'[i].createdAt)
  {
    var r' := r + [remaining[k]];
    forall i, j | 0 <= i < j < |r'| ensures r'[i].id != r'[j].id && r'[j].createdAt <= r'[i].createdAt {
      assert r'[i] == r[i];
      if j < |r| {
        assert r'[j] == r[j];
      }
    }
  }

  /** A finished selection is the newest-first listing. */
  lemma SelectionDone(rows: Rows, remaining: Rows, r: seq<Registration>, limit: nat)
    requires Selection(rows, remaining, r) && |r| <= limit
    requires |r| == limit || |remaining| == 0
    ensures NewestFirst(rows, r, limit)
  {
    forall k, i | k in rows && !IsListed(r, k) && 0 <= i < |r| ensures rows[k].createdAt <= r[i].createdAt {
      assert k in remaining;
    }
  }

  /** A row inserted after every other one heads the listing. */
  lemma NewestRowListedFirst(rows: Rows, r: seq<Registration>, limit: nat, id: Id)
    requires NewestFirst(rows, r, limit) && limit > 0 && id in rows
    requires forall k :: k in rows && k != id ==> rows[k].createdAt < rows[id].createdAt
    ensures r != [] && r[0] == rows[id]
  {
    assert |r| > 0;
  }

  /** The database session over the `registrations` table. */
  class Table {
    var rows: Rows

    ghost predicate Valid()
      reads this
    {
      TableInvariant(rows)
    }

    /** A new, empty table. */
    constructor()
      ensures Valid() && rows == map[]
    {
      rows := map[];
    }

    /** `create_registration`: add, commit and refresh. On success the table
        gains exactly the new row; on a refusal it is unchanged. */
    method Create(data: NewRegistration, id: Id, now: Timestamp) returns (r: Result<Registration, StoreError>)
      requires Valid() && id !in rows
      modifies this
      ensures Valid()
      ensures r == Insert(old(rows), data, id, now)
      ensures r.Ok? ==> rows == old(rows)[id := r.value]
      ensures r.Err? ==> rows == old(rows)
    {
      r := Insert(rows, data, id, now);
      if r.Ok? {
        InsertKeepsInvariant(rows, data, id, now);
        rows := rows[id := r.value];
      }
    }

    /** `get_registration`: the row with primary key `id`, if any. */
    method Get(id: Id) returns (r: Option<Registration>)
      requires Valid()
      ensures r.Some? <==> id in rows
      ensures r.Some? ==> r.value == rows[id] && r.value.id == id
    {
      if id in rows {
        r := Some(rows[id]);
      } else {
        r := None;
      }
    }

    /** `get_registration_by_email`: the row whose email is `email`, if any. */
    method GetByEmail(email: string) returns (r: Option<Registration>)
      requires Valid()
      ensures r == ByEmail(rows, email)
    {
      if k :| k in rows && rows[k].email == email {
        ByEmailIsThatRow(rows, k);
        r := Some(rows[k]);
      } else {
        r := None;
      }
    }

    /** `list_registrations(db, limit)`, the database's sort and limit done as
        a selection: take the newest remaining row until `limit` rows are
        taken or none remain. */
    method List(limit: nat) returns (r: seq<Registration>)
      requires Valid()
      ensures NewestFirst(rows, r, limit)
    {
      var remaining := rows;
      r := [];
      while |r| < limit && |remaining| > 0
        invariant Selection(rows, remaining, r) && |r| <= limit
        decreases |remaining|
      {
        NewestExists(remaining);
        var k :| k in remaining && IsNewest(remaining, k);
        SelectNewest(rows, remaining, r, k);
        r := r + [remaining[k]];
        remaining := remaining - {k};
      }
      SelectionDone(rows, remaining, r, limit);
    }

    /** `update_registration`: the `setattr` loop over the set fields, then the
        commit. The row takes exactly the patched values. */
    method Update(id: Id, p: Patch) returns (r: Registration)
      requires Valid() && Admits(rows, id, p)
      modifies this
      ensures Valid()
      ensures r == Patched(old(rows)[id], p)
      ensures rows == old(rows)[id := r]
    {
      var items := Items(p);
      r := rows[id];
      var i := 0;
      while i < |items|
        invariant 0 <= i <= |items|
        invariant r == ApplyAll(rows[id], items[..i])
      {
        assert items[..i + 1][..i] == items[..i];
        r := SetAttr(r, items[i]);
        i := i + 1;
      }
      assert items[..|items|] == items;
      ApplyItemsIsPatched(rows[id], p);
      UpdateKeepsInvariant(rows, id, p);
      rows := rows[id := r];
    }

    /** `delete_registration`: the row goes, every other row stays. */
    method Delete(id: Id)
      requires Valid() && id in rows
      modifies this
      ensures Valid()
      ensures rows == old(rows) - {id}
      ensures |rows| == |old(rows)| - 1
    {
      assert (rows - {id}).Keys == rows.Keys - {id};
      rows := rows - {id};
    }
  }
}
