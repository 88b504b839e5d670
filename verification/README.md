# Local database and form submission of the agency website

This project models, in Dafny, the part of the marketing website that keeps state: the
browser-local database in `src/lib/localStorageDb.ts` and the two submit handlers of the
contact section in `src/components/ContactSection.tsx`.

- **Web Storage** (`WebStorage`, `web_storage.dfy`): `window.localStorage` as a class
  `Storage<V>` holding a `map<string, V>`. Its fault model `Limits` decides which calls
  throw. `enabled == false` stands for disabled or denied storage: every call throws
  `SecurityError`. `accepts(key, value) == false` stands for a write over the quota:
  `setItem` throws `QuotaExceededError` and leaves the store as it was.
- **Records** (`records.dfy`): contact submissions and newsletter subscribers. A
  `Collection` is the items in insertion order plus the advisory `nextId` counter. A
  namespace key holds either a collection document (`Doc`) or other text (`Raw`).
- **The local database** (`LocalStorageDb`, `local_storage_db.dfy`): `initializeCollection`,
  `saveCollection`, the two repositories and the availability probe. These are methods
  over a `Storage<Stored>` object. Each is proved equal to a specification function in
  `StoreSpec` (`store_spec.dfy`). Each function maps the fault model and the store's
  contents before the call to the call's result and the contents after it. Errors come
  back as values, never as exceptions. The generated id and the ISO timestamp are inputs
  of every insert.
- **Properties** (`StoreProperties`, `store_properties.dfy`):
  - lazy initialisation is idempotent;
  - an insert appends exactly one record at the end and bumps `nextId` by one;
  - an email address already stored (ignoring case) is rejected without a write;
  - subscribing the same address twice stores it once;
  - each operation writes only its own key.
  
  `Run` applies any sequence of operations (`Op`). Along any such sequence:
  - `nextId` stays one past the item count;
  - each namespace holds only its own kind of record;
  - subscribers stay free of case-insensitive duplicates;
  - no record is lost and no counter decreases;
  - keys other than the two namespaces and the probe's test key are never touched.

  Each namespace's guarantee also holds on its own: duplicate-free subscribers stay
  duplicate-free whatever the contact namespace holds, and an in-step contact counter
  stays in step whatever the subscriber namespace holds.
- **Contact section** (`ContactSection`, `contact_section.dfy`): the component's React
  state as a class. The contact handler is split at its `await`:
  - `BeginContactSubmit` sets the submitting flag, clears the error and returns the
    payload;
  - `FinishContactSubmit` acts on the webhook's `success` flag.
  
  `SubmitContact` and `Subscribe` state each handler's outcome and store effect as
  functions. For the contact form the webhook decides the outcome. For the newsletter
  form the local database decides it.

Behaviour of the code a reader might not expect, modelled as the code has it:
- A key holding the empty string counts as never written: `!existingCollection` is true
  for `""`. Such a key is re-initialised.
- A failing insert can still leave a freshly initialised empty collection behind. The
  initial write succeeded; the final save threw.
- On success the availability probe removes the test key `__test_storage__`, even if
  that key held something before the call.
- The handler checks for a duplicate before it calls `insert`. So `insert`'s own "Email
  already subscribed" rejection never reaches the newsletter form
  (`ContactSection.SubscribeOutcome`).

## Model

| member | source | states |
|---|---|---|
| `WebStorage.Storage.GetItem` | src/lib/localStorageDb.ts:27 | returns the stored value, or none for a missing key; throws `SecurityError` when storage is disabled |
| `WebStorage.Storage.SetItem` | src/lib/localStorageDb.ts:38 | overwrites the whole value under the key, or throws and changes nothing |
| `WebStorage.Storage.RemoveItem` | src/lib/localStorageDb.ts:150 | deletes the key, or throws and changes nothing |
| `LocalStorageDb.InitializeCollection` | src/lib/localStorageDb.ts:26-34 | result and new store equal `StoreSpec.Initialize`: a missing or empty key gets `{items: [], nextId: 1}` written and returned; a stored collection is returned unchanged; other text is a parse error |
| `LocalStorageDb.SaveCollection` | src/lib/localStorageDb.ts:37-39 | overwrites the namespace with the collection, or reports the storage fault and writes nothing |
| `LocalStorageDb.InsertInto` | src/lib/localStorageDb.ts:51-65 | load or initialise, push the record, increment `nextId`, save; equals `StoreSpec.InsertInto` |
| `LocalStorageDb.InsertContact` | src/lib/localStorageDb.ts:49-72 | `contactSubmissions.insert`; any failure comes back as an error value; equals `StoreSpec.InsertContact` |
| `LocalStorageDb.ReadAll` | src/lib/localStorageDb.ts:76-81 | the loaded items with no error, or `[]` with the error |
| `LocalStorageDb.GetAllContacts` | src/lib/localStorageDb.ts:75-83 | `contactSubmissions.getAll` reads the contact namespace only |
| `LocalStorageDb.EmailExists` | src/lib/localStorageDb.ts:89-98 | `{exists, error}` as `StoreSpec.EmailExists`: `exists` is false whenever there is an error |
| `LocalStorageDb.InsertSubscriber` | src/lib/localStorageDb.ts:101-131 | re-checks for a duplicate and returns its error, or "Email already subscribed", or appends; equals `StoreSpec.InsertSubscriber` |
| `LocalStorageDb.GetAllSubscribers` | src/lib/localStorageDb.ts:134-142 | `newsletterSubscribers.getAll` reads the subscriber namespace only |
| `LocalStorageDb.CheckLocalStorageAvailable` | src/lib/localStorageDb.ts:146-155 | test-key write then remove; equals `StoreSpec.CheckAvailable` and never throws |
| `StoreSpec.SomeEmailMatches` | src/lib/localStorageDb.ts:92 | true exactly when some item's email equals the address after lowercasing both |
| `StoreProperties.InitializeFresh` | src/lib/localStorageDb.ts:26-31 | a never-written namespace yields and stores `{items: [], nextId: 1}` |
| `StoreProperties.InitializeIdempotent` | src/lib/localStorageDb.ts:26-34 | after a successful initialisation, a second one returns the same collection and writes nothing |
| `StoreProperties.InitializeOutcome` | src/lib/localStorageDb.ts:26-34 | when initialisation succeeds and which error it raises otherwise: `SecurityError` when storage is off, a parse error for a corrupt entry, `QuotaExceededError` when the empty collection cannot be written; on failure nothing is written; on success the result is the existing collection, and only an uninitialised key is written |
| `StoreProperties.InsertIntoOutcome` | src/lib/localStorageDb.ts:51-65 | succeeds exactly when storage works, the key is not corrupt and both writes fit. On success the namespace holds the old collection with the record appended and `nextId + 1`. On failure it is unchanged or newly initialised. Other keys never change |
| `StoreProperties.InsertContactAppends` | src/lib/localStorageDb.ts:51-65 | one record appended at the end; earlier records unchanged and in order; it carries the given name, email, company and message plus the supplied id and timestamp; `nextId` up by one; only `contactSubmissions` changes |
| `StoreProperties.GetAllReadsOnly` | src/lib/localStorageDb.ts:75-83 | returns the stored items, or `[]` with the error and no write; writes at most the initial empty collection |
| `StoreProperties.EmailExistsMeaning` | src/lib/localStorageDb.ts:89-97 | with no error, `exists` holds exactly when a stored subscriber's email equals the address ignoring case; with an error, `exists` is false and nothing is written |
| `StoreProperties.DuplicateRejected` | src/lib/localStorageDb.ts:104-108 | an address already stored (ignoring case) is rejected with "Email already subscribed" and the store is unchanged |
| `StoreProperties.InsertSubscriberOutcome` | src/lib/localStorageDb.ts:101-131 | rejects exactly the stored addresses, without a write. It succeeds exactly when storage is on, the entry is not corrupt, the empty collection (if needed) and the grown collection both fit, and no stored address matches. A success appends the subscriber to the previous items. Only `newsletterSubscribers` can change |
| `StoreProperties.MatchCountAppend` | src/lib/localStorageDb.ts:120 | pushing a record adds one to the match count exactly when its email matches |
| `StoreProperties.MatchCountZero` | src/lib/localStorageDb.ts:92 | no record matches exactly when the `some` scan is false |
| `StoreProperties.DistinctEmailsAtMostOnce` | src/lib/localStorageDb.ts:104-108 | in a duplicate-free list each address occurs at most once up to case |
| `StoreProperties.AppendKeepsDistinct` | src/lib/localStorageDb.ts:104-124 | appending an address that the scan did not find keeps the list duplicate-free |
| `StoreProperties.SubscribingTwiceStoresOnce` | src/lib/localStorageDb.ts:101-124 | after a successful insert, inserting the same address again (in any case) is rejected with "Email already subscribed", writes nothing, and the address is stored exactly once |
| `StoreProperties.ProbeOutcome` | src/lib/localStorageDb.ts:146-154 | true exactly when the test write and the removal both work; on success the test key is gone and nothing else changed; on failure nothing changed |
| `StoreProperties.AppendKeepsWellFormed` | src/lib/localStorageDb.ts:61-62 | push plus `nextId++` keeps `nextId` one past the item count and keeps the earlier items |
| `StoreProperties.ApplyKeepsWellFormed` | src/lib/localStorageDb.ts:47-143 | every repository call keeps both namespaces well-formed: the counter matches, the record kind is right, subscribers are distinct |
| `StoreProperties.RunKeepsWellFormed` | src/lib/localStorageDb.ts:47-143 | every sequence of calls keeps the store well-formed |
| `StoreProperties.NeverWrittenStoreStaysWellFormed` | src/lib/localStorageDb.ts:26-143 | from a never-written store, any sequence of calls keeps `nextId` one past the item count and the subscribers duplicate-free |
| `StoreProperties.ApplyKeepsSubscribersDistinct` | src/lib/localStorageDb.ts:101-124 | every call keeps a duplicate-free subscriber namespace duplicate-free, whatever the other keys hold |
| `StoreProperties.RunKeepsSubscribersDistinct` | src/lib/localStorageDb.ts:101-124 | from a store with no case-insensitive duplicate subscribers, any sequence of calls keeps it so |
| `StoreProperties.RunStoresEachAddressAtMostOnce` | src/lib/localStorageDb.ts:101-124 | from a store with no case-insensitive duplicate subscribers, after any sequence of calls each address is stored at most once, ignoring case |
| `StoreProperties.ApplyKeepsContactsWellFormed` | src/lib/localStorageDb.ts:51-65 | every call keeps the contact counter one past the item count and the namespace holding contact submissions only, whatever the other keys hold |
| `StoreProperties.RunKeepsContactsWellFormed` | src/lib/localStorageDb.ts:51-65 | from a store whose contact counter is in step, any sequence of calls keeps it in step |
| `StoreProperties.ApplyFootprint` | src/lib/localStorageDb.ts:47-155 | each call changes at most its own key: `contactSubmissions`, `newsletterSubscribers` or the test key |
| `StoreProperties.ApplyGrows` | src/lib/localStorageDb.ts:47-143 | a call never removes a collection, drops a record or lowers `nextId` |
| `StoreProperties.RunGrows` | src/lib/localStorageDb.ts:47-143 | along any sequence of calls the items only grow at the end and `nextId` never decreases |
| `StoreProperties.RunLeavesOtherKeys` | src/lib/localStorageDb.ts:26-155 | keys other than the two namespaces and the test key are never touched |
| `ContactSection.RemoteResultIsAuthoritative` | src/components/ContactSection.tsx:70-95 | the contact outcome is success exactly when the webhook succeeded. On webhook failure the error is "Unable to send your message…" and nothing is written. Without storage nothing is written. Only `contactSubmissions` can change |
| `ContactSection.NewsletterRefusalsWriteNothing` | src/components/ContactSection.tsx:113-132 | unavailable storage gives the "currently unavailable" message; an already stored address gives "already subscribed"; neither writes |
| `ContactSection.SubscribeOutcome` | src/components/ContactSection.tsx:119-143 | the insert's duplicate error never reaches the form; the form reports success exactly when storage is available and the insert succeeds; only `newsletterSubscribers` can change; a success stores the address once, appended after the earlier subscribers |
| `ContactSection.ContactSection.constructor` | src/components/ContactSection.tsx:24-38 | the initial state: empty fields, no flags, no errors, storage assumed available |
| `ContactSection.ContactSection.CheckStorageOnMount` | src/components/ContactSection.tsx:41-47 | the availability flag is the probe's answer; only that flag and the store change |
| `ContactSection.ContactSection.BeginContactSubmit` | src/components/ContactSection.tsx:56-68 | before the webhook call: submitting is true, the error is cleared, and the payload is the current form |
| `ContactSection.ContactSection.FinishContactSubmit` | src/components/ContactSection.tsx:70-105 | after the webhook call: submitting ends false. On failure the error is set and the fields and `formSubmitted` are untouched. On success `formSubmitted` is true and the four fields are reset to "", whatever the local insert returned |
| `ContactSection.ContactSection.HandleContactSubmit` | src/components/ContactSection.tsx:56-106 | the whole handler: the store changes exactly as `SubmitContact` says; the error is cleared unless the webhook failed; submitting always ends false |
| `ContactSection.ContactSection.HandleNewsletterSubmit` | src/components/ContactSection.tsx:108-154 | the store and the flags follow `Subscribe`. A success sets `newsletterSubmitted` and clears the email field. Every refusal sets its message. Submitting always ends false |

## Left out

- JSON serialisation and parsing: a stored value is either a collection (`Doc`) or text
  that is not one (`Raw`). Stored JSON that parses to something other than a collection
  (a number, say) is treated as a parse error. In the browser some such values fail
  later or not at all.
- Id generation (`generateId`, `Date.now`, `Math.random`) and `new Date().toISOString()`:
  the id and the timestamp are inputs of each insert. Nothing is assumed about their
  uniqueness or format.
- Unicode case folding: `toLowerCase` is modelled as ASCII lowercasing.
- Exception messages supplied by the browser: a storage fault's message is represented by
  the exception's name (`SecurityError`, `QuotaExceededError`, `SyntaxError`).
- The `'Unknown error'` and generic fallback messages for thrown values that are not
  `Error` objects: every failure in the model is an `Error`, so these never arise.
- Storage faults: a given store answers the same way every time for the same call
  (`Limits`). A store that fails once and then works for an identical call is not
  modelled. `Limits.accepts(key, value)` looks only at the key and the value written;
  a real quota also depends on how much space the other keys use.
- The width of `nextId`: in the source it is a JavaScript number, so `nextId++` is exact
  only below 2^53. The model counts with unbounded integers, so `nextId` staying one past
  the item count holds at every size only in the model; a store of a few megabytes
  cannot hold anywhere near 2^53 records.
- `src/lib/emailjs.ts` (the webhook client, with its development-host branch) is not
  part of this model. Its result enters only as the `webhookSuccess` input.
- `src/lib/supabase.ts` is not part of this model.
- Console logging, the rendered JSX, the field `onChange` handlers, and the "send
  another message" button that resets `formSubmitted`.
- Concurrency: races between tabs, last write wins, and edits made while the webhook call
  is pending. React's batching of state updates is also left out; each handler runs to
  completion.
- `StoreProperties.RunGrows`: stated for every key except the probe's test key. The probe
  overwrites and then deletes that key.
