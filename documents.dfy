/**
 * The documents the posting engine reads and writes. A request body and a stored journal
 * entry are the same kind of JSON document: each entry starts life as a shallow copy of the
 * request body, so every field a client sends travels into the entries.
 */
module Documents {
  import opened Wrappers

  /** Identifiers of stored records (Mongo ObjectIds), as strings. */
  type Id = string
  type UserId = string
  /** A calendar day formatted as `YYYY-MM-DD`. */
  type Day = string
  /** A wall-clock reading (`new Date()`); opaque. */
  type Timestamp = int
  /** Amounts and rates are stored and copied, never computed with. */
  type Amount = real
  type Rate = real

  /**
   * The `currency` field: a request carries a currency id; a posted entry carries the
   * resolved `{name, rate}` snapshot.
   */
  datatype CurrencyField = CurrencyRef(id: Id) | CurrencyInfo(name: string, rate: Option<Rate>)

  /** The `sourceDocument` field: a reference to an invoice or similar record. */
  datatype SourceRef = SourceRef(id: Option<Id>, rest: map<string, string>)

  /** An audit stamp, `createdBy` or `editedBy`. */
  datatype Stamp = Stamp(user: UserId, date: Timestamp)

  /**
   * A request body or a journal entry. The fields the engine reads or writes are named;
   * `other` holds every other field, which is copied through untouched.
   */
  datatype Doc = Doc(
    journal: Option<Id>,
    account: Option<Id>,
    debit: Option<Amount>,
    credit: Option<Amount>,
    amount: Option<Amount>,
    currency: Option<CurrencyField>,
    date: Option<string>,
    sourceDocument: Option<SourceRef>,
    createdBy: Option<Stamp>,
    editedBy: Option<Stamp>,
    other: map<string, string>)

  /** JavaScript truthiness of an optional string field: absent and `""` are both false. */
  predicate Truthy(s: Option<string>) {
    s.Some? && s.value != ""
  }

  /** A ledger row is one-sided: exactly one of `debit` and `credit` is present. */
  predicate OneSided(e: Doc) {
    e.debit.Some? != e.credit.Some?
  }
}
