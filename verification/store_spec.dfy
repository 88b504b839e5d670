/** What each operation of the local database does, as functions from the store's fault
    model and its contents before the call to the call's result and the contents after. */
module StoreSpec {
  import opened Wrappers
  import opened Text
  import opened WebStorage
  import opened Records

  type Store = map<string, Stored>

  /** The result of `emailExists`; the source's `exists` field is named `found` here. */
  datatype Lookup = Lookup(found: bool, error: Option<Error>)

  /** The result of `getAll`. */
  datatype Listing = Listing(data: seq<Record>, error: Option<Error>)

  /** JavaScript treats a missing key (`null`) and the empty string alike as "not yet
      initialised". */
  predicate Uninitialized(m: Store, name: string)
  {
    name !in m || m[name] == Raw("")
  }

  /** `initializeCollection(name)`. */
  function Initialize(lim: Limits<Stored>, m: Store, name: string): (Result<Collection, Error>, Store)
  {
    if !lim.enabled then (Err(Thrown(SecurityError)), m)
    else if Uninitialized(m, name) then
      match WriteFault(lim, name, Doc(EmptyCollection))
      case Some(f) => (Err(Thrown(f)), m)
      case None => (Ok(EmptyCollection), m[name := Doc(EmptyCollection)])
    else
      match m[name]
      case Doc(c) => (Ok(c), m)
      case Raw(_) => (Err(Unparseable(name)), m)
  }

  /** `saveCollection(name, c)`. */
  function Save(lim: Limits<Stored>, m: Store, name: string, c: Collection): (Option<Error>, Store)
  {
    match WriteFault(lim, name, Doc(c))
    case Some(f) => (Some(Thrown(f)), m)
    case None => (None, m[name := Doc(c)])
  }

  /** Load the collection at `name`, push `r`, bump `nextId`, save. */
  function InsertInto(lim: Limits<Stored>, m: Store, name: string, r: Record): (Option<Error>, Store)
  {
    var (loaded, m1) := Initialize(lim, m, name);
    match loaded
    case Err(e) => (Some(e), m1)
    case Ok(c) => Save(lim, m1, name, Appended(c, r))
  }

  /** `contactSubmissions.insert(data)` with the generated id and timestamp as inputs. */
  function InsertContact(lim: Limits<Stored>, m: Store, data: ContactInput, id: string, createdAt: string): (Option<Error>, Store)
  {
    InsertInto(lim, m, ContactNamespace, NewContact(data, id, createdAt))
  }

  /** `getAll()` of the repository whose namespace is `name`. */
  function GetAll(lim: Limits<Stored>, m: Store, name: string): (Listing, Store)
  {
    var (loaded, m1) := Initialize(lim, m, name);
    match loaded
    case Err(e) => (Listing([], Some(e)), m1)
    case Ok(c) => (Listing(c.items, None), m1)
  }

  /** `items.some(item => item.email.toLowerCase() === email.toLowerCase())`. */
  function SomeEmailMatches(items: seq<Record>, email: string): (r: bool)
    ensures r <==> exists i :: 0 <= i < |items| && SameIgnoringCase(items[i].email, email)
  {
    if items == [] then false
    else SameIgnoringCase(items[0].email, email) || SomeEmailMatches(items[1..], email)
  }

  /** `newsletterSubscribers.emailExists(email)`. */
  function EmailExists(lim: Limits<Stored>, m: Store, email: string): (Lookup, Store)
  {
    var (loaded, m1) := Initialize(lim, m, SubscriberNamespace);
    match loaded
    case Err(e) => (Lookup(false, Some(e)), m1)
    case Ok(c) => (Lookup(SomeEmailMatches(c.items, email), None), m1)
  }

  /** `newsletterSubscribers.insert(email)` with the generated id and timestamp as inputs. */
  function InsertSubscriber(lim: Limits<Stored>, m: Store, email: string, id: string, createdAt: string): (Option<Error>, Store)
  {
    var (lookup, m1) := EmailExists(lim, m, email);
    if lookup.error.Some? then (lookup.error, m1)
    else if lookup.found then (Some(AlreadySubscribed), m1)
    else InsertInto(lim, m1, SubscriberNamespace, NewsletterSubscriber(id, email, createdAt))
  }

  /** `checkLocalStorageAvailable()`: write the test key, then remove it. */
  function CheckAvailable(lim: Limits<Stored>, m: Store): (bool, Store)
  {
    match WriteFault(lim, TestKey, Raw(TestKey))
    case Some(_) => (false, m)
    case None =>
      match AccessFault(lim)
      case Some(_) => (false, m[TestKey := Raw(TestKey)])
      case None => (true, m - {TestKey})
  }

  /** One call into the local database, with its nondeterministic inputs. */
  datatype Op =
    | InsertContactOp(data: ContactInput, id: string, createdAt: string)
    | GetAllContactsOp
    | EmailExistsOp(email: string)
    | InsertSubscriberOp(email: string, id: string, createdAt: string)
    | GetAllSubscribersOp
    | CheckAvailableOp

  function Apply(lim: Limits<Stored>, m: Store, op: Op): Store
  {
    match op
    case InsertContactOp(data, id, createdAt) => InsertContact(lim, m, data, id, createdAt).1
    case GetAllContactsOp => GetAll(lim, m, ContactNamespace).1
    case EmailExistsOp(email) => EmailExists(lim, m, email).1
    case InsertSubscriberOp(email, id, createdAt) => InsertSubscriber(lim, m, email, id, createdAt).1
    case GetAllSubscribersOp => GetAll(lim, m, SubscriberNamespace).1
    case CheckAvailableOp => CheckAvailable(lim, m).1
  }

  /** The store after running `ops` in order. */
  function Run(lim: Limits<Stored>, m: Store, ops: seq<Op>): Store
    decreases |ops|
  {
    if ops == [] then m else Run(lim, Apply(lim, m, ops[0]), ops[1..])
  }

  /** The one key an operation may write. */
  function Footprint(op: Op): string
  {
    match op
    case InsertContactOp(_, _, _) => ContactNamespace
    case GetAllContactsOp => ContactNamespace
    case CheckAvailableOp => TestKey
    case _ => SubscriberNamespace
  }
}
