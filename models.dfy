/** The `registrations` table: the shape of one row, the column limits and the
    constraints every state of the table satisfies. The table is a map from
    the primary key `id` to the row. */
module Models {
  import opened Common

  // Column widths: String(200), String(200), String(20).
  const FullNameColumnLength: nat := 200
  const EmailColumnLength: nat := 200
  const PhoneColumnLength: nat := 20

  /** One row. Every column but `address` is NOT NULL, so only `address` is
      optional; `id` and `createdAt` are assigned when the row is inserted. */
  datatype Registration = Registration(
    id: Id,
    fullName: string,
    email: string,
    phone: string,
    dateOfBirth: CalendarDate,
    address: Option<string>,
    createdAt: Timestamp)

  /** The row's text fits its `String(n)` columns. */
  predicate ColumnsFit(r: Registration) {
    && |r.fullName| <= FullNameColumnLength
    && |r.email| <= EmailColumnLength
    && |r.phone| <= PhoneColumnLength
  }

  type Rows = map<Id, Registration>

  /** The primary key: each row is stored under its own id. */
  predicate KeyedById(rows: Rows) {
    forall k :: k in rows ==> rows[k].id == k
  }

  /** The `unique=True` index on `email`. */
  predicate UniqueEmails(rows: Rows) {
    forall k1, k2 :: k1 in rows && k2 in rows && rows[k1].email == rows[k2].email ==> k1 == k2
  }

  predicate TableInvariant(rows: Rows) {
    && KeyedById(rows)
    && UniqueEmails(rows)
    && (forall k :: k in rows ==> ColumnsFit(rows[k]))
  }

  predicate EmailTaken(rows: Rows, email: string) {
    exists k :: k in rows && rows[k].email == email
  }

  /** `filter(Registration.email == email).first()`: the row with that email,
      if there is one. */
  ghost function ByEmail(rows: Rows, email: string): (r: Option<Registration>)
    requires TableInvariant(rows)
    ensures r.Some? <==> EmailTaken(rows, email)
    ensures r.Some? ==> r.value.email == email && r.value.id in rows && rows[r.value.id] == r.value
  {
    if EmailTaken(rows, email) then
      var k :| k in rows && rows[k].email == email;
      Some(rows[k])
    else
      None
  }

  /** Because emails are unique, the email lookup is exact: it returns the row
      stored under `k` for every `k` whose row has that email. */
  lemma ByEmailIsThatRow(rows: Rows, k: Id)
    requires TableInvariant(rows) && k in rows
    ensures ByEmail(rows, rows[k].email) == Some(rows[k])
  {
    var r := ByEmail(rows, rows[k].email);
    assert r.value.id in rows && rows[r.value.id].email == rows[k].email;
  }
}
