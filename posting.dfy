/**
 * The posting pipeline of `create` as pure steps: resolve the currency name, validate the
 * journal, read the historical rate for the posting day, and build the debit/credit pair.
 * `Post` states the whole outcome of one posting: what is returned, which collaborators are
 * consulted in which order, and which entries reach the store.
 */
module Posting {
  import opened Wrappers
  import opened Documents
  import opened EntryStore

  /** A journal record as `Journal.findById` returns it. */
  datatype JournalRecord = JournalRecord(id: Option<Id>, debitAccount: Option<Id>, creditAccount: Option<Id>)

  /**
   * The reference data the engine reads: currency names by id, journals by id, and the
   * historical rate snapshot (currency name to rate) of each calendar day.
   */
  datatype ReferenceData = ReferenceData(
    currencies: map<Id, string>,
    journals: map<Id, JournalRecord>,
    rates: map<Day, map<string, Rate>>)

  /** The four `new Date()` readings taken while the two entries are stamped. */
  datatype Stamps = Stamps(debitEdited: Timestamp, debitCreated: Timestamp,
                           creditEdited: Timestamp, creditCreated: Timestamp)

  /**
   * What the world outside the code decides: the current day, how a date string is formatted
   * to a day, the clock readings, and whether each of the two saves succeeds.
   */
  datatype Environment = Environment(
    today: Day,
    dayOf: string -> Day,
    stamps: Stamps,
    debitSave: SaveOutcome,
    creditSave: SaveOutcome)

  /** The errors `create` hands to its callback. */
  datatype Error =
    | CurrencyNotFound       // the currency lookup failed or found nothing
    | JournalIdRequired      // 'Journal id is required field', status 400
    | InvalidJournal         // 'Invalid Journal', status 400
    | SaveFailed(cause: string)  // a save error, passed on as the store reported it

  /** The `status` attached to an error: 400 for the two client errors, none otherwise. */
  function Status(e: Error): Option<nat> {
    if e.JournalIdRequired? || e.InvalidJournal? then Some(400) else None
  }

  /** A call the engine makes to a collaborator, in the order it makes them. */
  datatype Call =
    | FindCurrency(currency: Option<CurrencyField>)
    | FindJournal(journalId: Id)
    | FetchRates(day: Day)
    | SaveEntry(entry: Doc)

  /** The kind of a collaborator call, for stating the order of the pipeline. */
  datatype Step = CurrencyStep | JournalStep | RateStep | SaveStep

  function KindOf(c: Call): Step {
    match c
    case FindCurrency(_) => CurrencyStep
    case FindJournal(_) => JournalStep
    case FetchRates(_) => RateStep
    case SaveEntry(_) => SaveStep
  }

  function Kinds(t: seq<Call>): (k: seq<Step>)
    ensures |k| == |t|
  {
    seq(|t|, i requires 0 <= i < |t| => KindOf(t[i]))
  }

  /** The order of the waterfall: currency, journal, rates, then the two saves. */
  const FullOrder: seq<Step> := [CurrencyStep, JournalStep, RateStep, SaveStep, SaveStep]

  /** The result handed to `cb` on success: the two saved entries, keyed as the parallel tasks. */
  datatype SavedPair = SavedPair(debitSaver: Doc, creditSaver: Doc)

  /** Step 1, `currencyNameFinder`: the name of the currency whose id the body carries. */
  function CurrencyName(currencies: map<Id, string>, currency: Option<CurrencyField>): (r: Result<string, Error>)
    ensures r.Success? <==> currency.Some? && currency.value.CurrencyRef? && currency.value.id in currencies
    ensures r.Success? ==> r.value == currencies[currency.value.id]
    ensures r.Failure? ==> r.error == CurrencyNotFound
  {
    match currency
    case Some(CurrencyRef(id)) =>
      if id in currencies then Success(currencies[id]) else Failure(CurrencyNotFound)
    case _ => Failure(CurrencyNotFound)
  }

  /** The guard of `journalEntrySave`: a journal was found and it has an `_id`. */
  predicate ValidJournal(j: Option<JournalRecord>) {
    j.Some? && j.value.id.Some?
  }

  /** What the validation steps establish: the currency name and a journal with an `_id`. */
  datatype Checked = Checked(currencyName: string, journal: JournalRecord)

  /**
   * The three checks of the waterfall, in its order: the currency lookup, then the presence of
   * a journal id, then the validity of the journal found.
   */
  function Validate(ref: ReferenceData, body: Doc): (r: Result<Checked, Error>)
    ensures r.Success? <==>
      && CurrencyName(ref.currencies, body.currency).Success?
      && Truthy(body.journal)
      && ValidJournal(Find(ref.journals, body.journal.value))
    ensures r == Failure(CurrencyNotFound) <==> CurrencyName(ref.currencies, body.currency).Failure?
    ensures r == Failure(JournalIdRequired) <==>
      CurrencyName(ref.currencies, body.currency).Success? && !Truthy(body.journal)
    ensures r == Failure(InvalidJournal) <==>
      && CurrencyName(ref.currencies, body.currency).Success?
      && Truthy(body.journal)
      && !ValidJournal(Find(ref.journals, body.journal.value))
    ensures r.Success? ==>
      && r.value.currencyName == ref.currencies[body.currency.value.id]
      && Some(r.value.journal) == Find(ref.journals, body.journal.value)
      && r.value.journal.id.Some?
    ensures r.Failure? ==> (Status(r.error) == Some(400) <==> r.error != CurrencyNotFound)
  {
    match CurrencyName(ref.currencies, body.currency)
    case Failure(e) => Failure(e)
    case Success(name) =>
      if !Truthy(body.journal) then Failure(JournalIdRequired)
      else
        var journal := Find(ref.journals, body.journal.value);
        if !ValidJournal(journal) then Failure(InvalidJournal)
        else Success(Checked(name, journal.value))
  }

  /** The day whose rates are fetched: `body.date` formatted to a day, or today when it is falsy. */
  function PostingDay(body: Doc, env: Environment): (d: Day)
    ensures Truthy(body.date) ==> d == env.dayOf(body.date.value)
    ensures !Truthy(body.date) ==> d == env.today
  {
    if Truthy(body.date) then env.dayOf(body.date.value) else env.today
  }

  /** `oxr.rates[name]` after `oxr.historical(day)`: the rate of that day, when there is one. */
  function RateOf(rates: map<Day, map<string, Rate>>, day: Day, name: string): (r: Option<Rate>)
    ensures r.Some? <==> day in rates && name in rates[day]
    ensures r.Some? ==> r.value == rates[day][name]
  {
    if day in rates then Find(rates[day], name) else None
  }

  /** The part of an entry the two sides of a pair share: all but the fields each side sets. */
  function Common(e: Doc): Doc {
    e.(account := None, debit := None, credit := None, createdBy := None, editedBy := None)
  }

  /**
   * `debitSaver`/`creditSaver`: each side is a shallow copy of the body, with `currency` and
   * `journal` replaced, then its own amount, account and audit stamps written in.
   */
  function BuildPair(body: Doc, journal: JournalRecord, snapshot: CurrencyField,
                     uId: UserId, stamps: Stamps): (pair: SavedPair)
    ensures Common(pair.debitSaver) == Common(pair.creditSaver)
    ensures Common(pair.debitSaver) == Common(body).(journal := journal.id, currency := Some(snapshot))
    ensures pair.debitSaver.debit == body.amount && pair.debitSaver.account == journal.debitAccount
    ensures pair.creditSaver.credit == body.amount && pair.creditSaver.account == journal.creditAccount
    ensures pair.debitSaver.credit == body.credit && pair.creditSaver.debit == body.debit
    ensures pair.debitSaver.createdBy == Some(Stamp(uId, stamps.debitCreated))
    ensures pair.debitSaver.editedBy == Some(Stamp(uId, stamps.debitEdited))
    ensures pair.creditSaver.createdBy == Some(Stamp(uId, stamps.creditCreated))
    ensures pair.creditSaver.editedBy == Some(Stamp(uId, stamps.creditEdited))
    ensures body.amount.Some? && body.debit.None? && body.credit.None? ==>
      OneSided(pair.debitSaver) && OneSided(pair.creditSaver)
  {
    var shared := body.(currency := Some(snapshot), journal := journal.id);
    SavedPair(
      shared.(debit := body.amount, account := journal.debitAccount,
              editedBy := Some(Stamp(uId, stamps.debitEdited)),
              createdBy := Some(Stamp(uId, stamps.debitCreated))),
      shared.(credit := body.amount, account := journal.creditAccount,
              editedBy := Some(Stamp(uId, stamps.creditEdited)),
              createdBy := Some(Stamp(uId, stamps.creditCreated))))
  }

  /** What one save leaves in the store. */
  function Kept(e: Doc, outcome: SaveOutcome): seq<Doc> {
    if outcome.Saved? then [e] else []
  }

  /** The pair a validated request posts, with the rate of its posting day. */
  function PairFor(ref: ReferenceData, body: Doc, v: Checked, uId: UserId, env: Environment): SavedPair {
    var day := PostingDay(body, env);
    BuildPair(body, v.journal, CurrencyInfo(v.currencyName, RateOf(ref.rates, day, v.currencyName)),
              uId, env.stamps)
  }

  /** The whole outcome of one `create`: the callback's result, the calls made, the rows added. */
  datatype Posted = Posted(result: Result<SavedPair, Error>, trace: seq<Call>, written: seq<Doc>)

  function Post(ref: ReferenceData, body: Doc, uId: UserId, env: Environment): (p: Posted)
    // the steps run in the waterfall's order, and stop at the first error
    ensures Kinds(p.trace) <= FullOrder
    ensures |p.trace| >= 1 && p.trace[0] == FindCurrency(body.currency)
    ensures Validate(ref, body).Failure? ==>
      p.result == Failure(Validate(ref, body).error) && p.written == [] && SaveStep !in Kinds(p.trace)
    // a currency failure or a missing journal id stops the pipeline after the currency lookup
    ensures Validate(ref, body).Failure? && Validate(ref, body).error != InvalidJournal ==>
      p.trace == [FindCurrency(body.currency)]
    // a missing journal id is rejected before any journal lookup
    ensures !Truthy(body.journal) ==>
      p.written == [] && p.trace == [FindCurrency(body.currency)] &&
      p.result in {Failure(CurrencyNotFound), Failure(JournalIdRequired)}
    // the rates are fetched even for a journal that then proves invalid
    ensures Validate(ref, body) == Failure(InvalidJournal) ==>
      p.trace == [FindCurrency(body.currency), FindJournal(body.journal.value), FetchRates(PostingDay(body, env))]
    // nothing is written unless every check passed
    ensures p.written != [] ==> Validate(ref, body).Success?
    ensures p.result.Success? <==>
      Validate(ref, body).Success? && env.debitSave.Saved? && env.creditSave.Saved?
    ensures Validate(ref, body).Success? ==>
      var pair := PairFor(ref, body, Validate(ref, body).value, uId, env);
      && p.trace == [FindCurrency(body.currency), FindJournal(body.journal.value),
                     FetchRates(PostingDay(body, env)), SaveEntry(pair.debitSaver), SaveEntry(pair.creditSaver)]
      && p.written == Kept(pair.debitSaver, env.debitSave) + Kept(pair.creditSaver, env.creditSave)
    // every row written records the rate of the posting day's snapshot
    ensures Validate(ref, body).Success? ==>
      var v := Validate(ref, body).value;
      forall e :: e in p.written ==>
        e.currency == Some(CurrencyInfo(v.currencyName, RateOf(ref.rates, PostingDay(body, env), v.currencyName)))
    // on success exactly the two entries of the pair are added
    ensures p.result.Success? ==> p.written == [p.result.value.debitSaver, p.result.value.creditSaver]
    // a save error reaches the caller as the store reported it; the other save is not undone
    ensures p.result.Failure? && p.result.error.SaveFailed? ==>
      && Validate(ref, body).Success?
      && (env.debitSave == SaveError(p.result.error.cause) || env.creditSave == SaveError(p.result.error.cause))
      && |p.written| <= 1
    // once validation passed, the only failure is a save error
    ensures Validate(ref, body).Success? && p.result.Failure? ==> p.result.error.SaveFailed?
    // a half-posted pair is never reported as success
    ensures |p.written| == 1 ==> p.result.Failure? && p.result.error.SaveFailed?
  {
    var day := PostingDay(body, env);
    match Validate(ref, body)
    case Failure(e) =>
      var trace := if e == InvalidJournal
        then [FindCurrency(body.currency), FindJournal(body.journal.value), FetchRates(day)]
        else [FindCurrency(body.currency)];
      Posted(Failure(e), trace, [])
    case Success(v) =>
      var pair := PairFor(ref, body, v, uId, env);
      var trace := [FindCurrency(body.currency), FindJournal(body.journal.value), FetchRates(day),
                    SaveEntry(pair.debitSaver), SaveEntry(pair.creditSaver)];
      var result :=
        if env.debitSave.SaveError? then Failure(SaveFailed(env.debitSave.cause))
        else if env.creditSave.SaveError? then Failure(SaveFailed(env.creditSave.cause))
        else Success(pair);
      Posted(result, trace, Kept(pair.debitSaver, env.debitSave) + Kept(pair.creditSaver, env.creditSave))
  }

  /**
   * The historical rate: for a request that carries a date, the rows written and the calls made
   * are the same whatever today's day is.
   */
  lemma DatedPostingIgnoresToday(ref: ReferenceData, body: Doc, uId: UserId, env: Environment, today: Day)
    requires Truthy(body.date)
    ensures Post(ref, body, uId, env).written == Post(ref, body, uId, env.(today := today)).written
    ensures Post(ref, body, uId, env).trace == Post(ref, body, uId, env.(today := today)).trace
  {
    assert PostingDay(body, env) == PostingDay(body, env.(today := today));
  }
}
