# Journal-entry posting engine

A Dafny model of the posting engine of EasyERP's journal-entry handler
(`handlers/journalEntry.js`). `create` posts one transaction as two ledger entries.
It runs a three-step waterfall:

1. Resolve the currency id of the request to a currency name.
2. Check that a journal id is present and look the journal up.
3. Read the historical rate table of the posting day and check the journal. Then build a
   debit copy and a credit copy of the request body and save both.

Two bulk edits on the entry collection sit beside it. `removeByDocId` cascade-deletes the
entries of a source document. `changeDate` sets `date` on every entry a query selects.

Modules:

- `Wrappers` (`wrappers.dfy`): `Option`, `Result` and a keyed lookup `Find`.
- `Documents` (`documents.dfy`): the document shape shared by a request body and an entry.
  It names the fields the engine touches. All other fields sit in `other` and are copied as
  they are.
- `EntryStore` (`entry_store.dfy`): the in-memory entry collection. It is a class `Store` that
  holds a `seq<Doc>` and has a `Save` method whose outcome the caller chooses. The module also
  defines `Without` and `Redated`, which specify the two bulk edits, with lemmas about them.
- `Posting` (`posting.dfy`): the pipeline's pure steps, `CurrencyName`, `Validate`,
  `PostingDay`, `RateOf` and `BuildPair`. Besides these, `Post` gives the full outcome of one posting: the callback
  result, the collaborator calls in order, and the rows that reach the store.
- `JournalEntry` (`journal_entry.dfy`): the handler itself. `Create` is written step by step
  the way the source is: early returns, the field-by-field writes on the two copies, and two
  store saves. Its contract ties its result, call trace and new store contents to `Post`.
  `RemoveByDocId` and `ChangeDate` are stated against `Without` and `Redated`.

Collaborators are plain data supplied by the caller:

- the currency table, as a map from id to name;
- the journal table, as a map from id to `{_id, debitAccount, creditAccount}`;
- the historical rates, as a map from day to a map from currency name to rate;
- an `Environment` value holding today's day, the day-formatting function, the four
  `new Date()` readings, and the outcome of each of the two saves.

Where the code does something a reader might not expect, the model follows the code:

- The currency lookup runs before the journal-id check (line 32). A request with neither a
  valid currency nor a journal id fails on the currency.
- The rate table is read (line 66) before the journal is checked (line 111). The call trace
  of an invalid-journal request therefore ends in a rate fetch.
- A failed rate fetch does not abort anything. The callback at line 66 ignores errors, and a
  missing rate is recorded as an absent `rate`.
- The entries' `date` field is the request's `date` copied as it is, and is absent when the
  request has none. The day-formatted date (lines 24, 34) is used only to choose the rate
  snapshot.
- The guard at line 121 tests `.rate` on a currency id, so it always holds. The model always
  replaces `currency` with `{name, rate}`.
- The copies are shallow copies of the whole body. A `debit` or `credit` field sent by the
  client therefore travels into the entries; `account` is overwritten on both copies. For example, the debit entry keeps
  the body's `credit`. "Exactly one of debit and credit" is proved only for bodies that carry
  an amount and neither of those two fields.
- The two saves are not atomic. When one fails, the other stays saved.

## Model

| member | source | states |
|---|---|---|
| `Posting.CurrencyName` | handlers/journalEntry.js:36-45 | The first step succeeds exactly when the body's currency is an id found in the currency table, and then yields that currency's name. Otherwise it fails with `CurrencyNotFound`. |
| `Posting.Validate` | handlers/journalEntry.js:36-116 | The checks run in the waterfall's order, each as an if-and-only-if for its error. A currency failure comes first. A missing or empty journal id comes next and gives `JournalIdRequired`. A journal that is not found, or has no `_id`, gives `InvalidJournal`. Both journal errors carry status 400. On success the journal returned is the one looked up, and it has an `_id`. |
| `Posting.PostingDay` | handlers/journalEntry.js:23-34 | The day whose rates are fetched is `body.date` formatted to a day when `body.date` is truthy. When it is absent or empty, the day is today. |
| `Posting.RateOf` | handlers/journalEntry.js:118-119 | For a given day, the rate is present exactly when that day's snapshot lists the currency name, and is then that snapshot's rate. |
| `Posting.BuildPair` | handlers/journalEntry.js:71-128 | The debit side has `debit = amount` and `account = journal.debitAccount`. The credit side has `credit = amount` and `account = journal.creditAccount`. The two sides agree on every other field, and those fields equal the body with `journal` set to the journal's `_id` and `currency` set to the snapshot. Each side keeps the body's value of the field it does not set. Both stamps name `uId`, at their own clock readings. A body with an amount and neither `debit` nor `credit` yields two one-sided entries. |
| `Posting.Post` | handlers/journalEntry.js:18-147 | The kinds of calls made are a prefix of the order currency, journal, rates, save, save. A validation error reaches the caller unchanged, with nothing written and no save attempted. A currency failure or a missing journal id stops the pipeline right after the currency lookup, with no journal lookup, rate fetch or save. An invalid journal is rejected after the rate fetch and before any write. Nothing is written unless every check passed. Every row written records the currency name with the rate of the posting day's snapshot. The result is success exactly when validation passed and both saves succeeded, and then exactly the two entries of the pair are added. Once validation has passed, the only possible failure is a save error, and it carries the cause a failing save reported. At most one row is left behind in that case, and a half-written pair is never reported as success. |
| `Posting.DatedPostingIgnoresToday` | handlers/journalEntry.js:24-66 | For a request with a date, the rows written and the calls made do not depend on today's date, so the recorded rate is the rate of the requested day. |
| `JournalEntry.Create` | handlers/journalEntry.js:18-147 | The imperative waterfall returns `Post`'s result and call trace. The store afterwards is the old store followed by `Post`'s written rows. |
| `EntryStore.Store.Save` | handlers/journalEntry.js:87-88 | A successful save appends exactly the given entry and returns it. A failed save changes nothing and returns the store's error. |
| `EntryStore.Without` | handlers/journalEntry.js:239-240 | After the cascade delete, an entry is present exactly when it was present before and its `sourceDocument._id` is not the given id. The collection never grows. |
| `EntryStore.Redated` | handlers/journalEntry.js:246-247 | The date correction keeps the collection's length. Every entry the query selects gets the new date. Every other entry is unchanged. No field other than `date` changes anywhere. |
| `JournalEntry.RemoveByDocId` | handlers/journalEntry.js:236-241 | The store afterwards is `Without` of the old store. |
| `JournalEntry.ChangeDate` | handlers/journalEntry.js:243-248 | The store afterwards is `Redated` of the old store. |
| `EntryStore.WithoutAppend` | handlers/journalEntry.js:239-240 | The cascade delete distributes over concatenation, so the surviving entries keep their relative order. |
| `EntryStore.WithoutNothingTargeted` | handlers/journalEntry.js:239-240 | When no entry references the document, the cascade delete changes nothing. |
| `EntryStore.WithoutIdempotent` | handlers/journalEntry.js:239-240 | Deleting by the same document twice removes nothing more than deleting once. |
| `EntryStore.RedateThenRemove` | handlers/journalEntry.js:236-248 | A date correction never changes which entries a cascade delete removes, so the two bulk edits commute. |
| `JournalEntry.CascadeRemovesPosting` | handlers/journalEntry.js:127-136 | Both entries inherit the body's `sourceDocument`. Deleting that document after a posting therefore removes every row the posting wrote, a half-written pair included, and leaves the rest of the store as the delete alone would. |

## Left out

- `getForView` (lines 149-234) is an HTTP handler with session-based access control, a
  MongoDB aggregation pipeline and floating-point division by the rate. It is not part of
  this model.
- Mongoose plumbing (`models.get`, `new Model`, `save`, `remove`, `update`) is replaced by
  the in-memory `Store`. Schema casting, defaults, validation and the `_id` assigned on save
  are not modelled. A saved entry is returned as it was given.
- The open-exchange-rates service and its process-wide `oxr.rates` state are a given table.
  After a failed fetch the library keeps the rates of an earlier fetch. The model records no
  rate in that case.
- moment and `Date` parsing and formatting are opaque. The formatted day is a caller-supplied
  function of `body.date`. `changeDate` stores its date argument where the source stores
  `new Date(date)`.
- The currency lookup's database error and its not-found case are one abort,
  `CurrencyNotFound`. In the source the not-found case throws a TypeError at line 43. In the
  error case, line 40 passes the database error to the callback once, and then line 43 throws
  on the missing `result` before the callback could be called a second time.
- The journal lookup's database error is not modelled; the journal table always answers.
- The bulk remove and update always succeed; their store errors are not modelled. An
  undefined `docId` is not modelled.
- `create` writes the new `currency` and `journal` into the caller's `body` object
  (lines 122, 125). In the model the body is a value, so the caller never sees that write.
- `async.parallel` concurrency: the two saves run one after the other, each with its own
  outcome.
- Posting.Post: when both saves fail, the model reports the debit's error; the source reports
  whichever error arrives first. The contract says only that the error is one of the
  failing saves' errors.
