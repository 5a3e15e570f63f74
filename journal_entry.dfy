/**
 * The journal-entry handler: `create` posts one transaction as a debit/credit pair,
 * `removeByDocId` cascade-deletes the entries of a source document, and `changeDate`
 * corrects the date of the entries a query selects.
 */
module JournalEntry {
  import opened Wrappers
  import opened Documents
  import opened EntryStore
  import opened Posting

  /**
   * `create`: the waterfall currencyNameFinder, journalFinder, journalEntrySave. Returns what
   * reaches `cb` and the collaborator calls made; the store gains the rows that were saved.
   */
  method Create(store: Store, ref: ReferenceData, body: Doc, uId: UserId, env: Environment)
    returns (r: Result<SavedPair, Error>, trace: seq<Call>)
    modifies store
    ensures r == Post(ref, body, uId, env).result
    ensures trace == Post(ref, body, uId, env).trace
    ensures store.entries == old(store.entries) + Post(ref, body, uId, env).written
  {
    var journalId := body.journal;
    var date := PostingDay(body, env);
    var amount := body.amount;

    // currencyNameFinder
    trace := [FindCurrency(body.currency)];
    var found := CurrencyName(ref.currencies, body.currency);
    if found.Failure? {
      r := Failure(found.error);
      return;
    }
    var currencyName := found.value;

    // journalFinder
    if !Truthy(journalId) {
      r := Failure(JournalIdRequired);
      return;
    }
    var currency := CurrencyInfo(currencyName, None);
    trace := trace + [FindJournal(journalId.value)];
    var journal := Find(ref.journals, journalId.value);

    // journalEntrySave: the rates of the day are read before the journal is checked
    trace := trace + [FetchRates(date)];
    var rates := if date in ref.rates then ref.rates[date] else map[];
    if journal.None? || journal.value.id.None? {
      r := Failure(InvalidJournal);
      return;
    }
    currency := currency.(rate := Find(rates, currency.name));
    var b := body.(currency := Some(currency));
    b := b.(journal := journal.value.id);
    var debitObject := b;
    var creditObject := b;

    debitObject := debitObject.(debit := amount);
    debitObject := debitObject.(account := journal.value.debitAccount);
    debitObject := debitObject.(editedBy := Some(Stamp(uId, env.stamps.debitEdited)));
    debitObject := debitObject.(createdBy := Some(Stamp(uId, env.stamps.debitCreated)));

    creditObject := creditObject.(credit := amount);
    creditObject := creditObject.(account := journal.value.creditAccount);
    creditObject := creditObject.(editedBy := Some(Stamp(uId, env.stamps.creditEdited)));
    creditObject := creditObject.(createdBy := Some(Stamp(uId, env.stamps.creditCreated)));

    // both saves are issued; neither waits for, or undoes, the other
    trace := trace + [SaveEntry(debitObject), SaveEntry(creditObject)];
    var debitSaved := store.Save(debitObject, env.debitSave);
    var creditSaved := store.Save(creditObject, env.creditSave);
    if debitSaved.Failure? {
      r := Failure(SaveFailed(debitSaved.error));
    } else if creditSaved.Failure? {
      r := Failure(SaveFailed(creditSaved.error));
    } else {
      r := Success(SavedPair(debitSaved.value, creditSaved.value));
    }
  }

  /** `removeByDocId`: deletes the entries whose `sourceDocument._id` is `docId`. */
  method RemoveByDocId(store: Store, docId: Id)
    modifies store
    ensures store.entries == Without(old(store.entries), docId)
  {
    store.entries := Without(store.entries, docId);
  }

  /** `changeDate`: sets `date` on every entry the query selects. */
  method ChangeDate(store: Store, query: Doc -> bool, date: string)
    modifies store
    ensures store.entries == Redated(old(store.entries), query, date)
  {
    store.entries := Redated(store.entries, query, date);
  }

  /**
   * Deleting the source document of a posting removes every row that posting wrote, a
   * half-posted pair included, and nothing else.
   */
  lemma CascadeRemovesPosting(s: seq<Doc>, ref: ReferenceData, body: Doc, uId: UserId,
                              env: Environment, docId: Id)
    requires body.sourceDocument.Some? && body.sourceDocument.value.id == Some(docId)
    ensures Without(s + Post(ref, body, uId, env).written, docId) == Without(s, docId)
  {
    var p := Post(ref, body, uId, env);
    WithoutAppend(s, p.written, docId);
    WithoutNothingTargeted([], docId);
    if Validate(ref, body).Success? {
      var pair := PairFor(ref, body, Validate(ref, body).value, uId, env);
      assert Common(pair.debitSaver).sourceDocument == body.sourceDocument;
      assert Targets(pair.debitSaver, docId) && Targets(pair.creditSaver, docId);
    }
    assert Without(p.written, docId) == [];
  }
}
