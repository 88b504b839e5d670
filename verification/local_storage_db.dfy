/** The local database: a namespaced, append-only collection store kept in the
    browser's Web Storage, with one repository for contact submissions and one for
    newsletter subscribers. Every operation catches what the storage object throws and
    hands it back as a value. The generated id and the ISO timestamp are inputs. */
module LocalStorageDb {
  import opened Wrappers
  import opened WebStorage
  import opened Records
  import StoreSpec

  /** Read the collection at `name`; on first access store and return an empty one. */
  method InitializeCollection(s: Storage<Stored>, name: string) returns (r: Result<Collection, Error>)
    modifies s
    ensures (r, s.items) == StoreSpec.Initialize(s.limits, old(s.items), name)
  {
    var got := s.GetItem(name);
    if got.Err? {
      return Err(Thrown(got.error));
    }
    var existing := got.value;
    if existing.None? || existing.value == Raw("") {
      var empty := EmptyCollection;
      var f := s.SetItem(name, Doc(empty));
      if f.Some? {
        return Err(Thrown(f.value));
      }
      return Ok(empty);
    }
    match existing.value
    case Doc(c) =>
      r := Ok(c);
    case Raw(_) =>
      r := Err(Unparseable(name));
  }

  /** Overwrite the value at `name` with `c`. */
  method SaveCollection(s: Storage<Stored>, name: string, c: Collection) returns (err: Option<Error>)
    modifies s
    ensures (err, s.items) == StoreSpec.Save(s.limits, old(s.items), name, c)
  {
    var f := s.SetItem(name, Doc(c));
    if f.Some? {
      return Some(Thrown(f.value));
    }
    return None;
  }

  /** Load the collection at `name`, push `r`, increment `nextId`, save. */
  method InsertInto(s: Storage<Stored>, name: string, r: Record) returns (err: Option<Error>)
    modifies s
    ensures (err, s.items) == StoreSpec.InsertInto(s.limits, old(s.items), name, r)
  {
    var loaded := InitializeCollection(s, name);
    if loaded.Err? {
      return Some(loaded.error);
    }
    var collection := loaded.value;
    collection := collection.(items := collection.items + [r]);
    collection := collection.(nextId := collection.nextId + 1);
    err := SaveCollection(s, name, collection);
  }

  /** `contactSubmissions.insert(data)`. */
  method InsertContact(s: Storage<Stored>, data: ContactInput, id: string, createdAt: string) returns (err: Option<Error>)
    modifies s
    ensures (err, s.items) == StoreSpec.InsertContact(s.limits, old(s.items), data, id, createdAt)
  {
    var submission := NewContact(data, id, createdAt);
    err := InsertInto(s, ContactNamespace, submission);
  }

  /** Load the collection at `name` and return its items, or `[]` with the error. */
  method ReadAll(s: Storage<Stored>, name: string) returns (r: StoreSpec.Listing)
    modifies s
    ensures (r, s.items) == StoreSpec.GetAll(s.limits, old(s.items), name)
  {
    var loaded := InitializeCollection(s, name);
    if loaded.Err? {
      return StoreSpec.Listing([], Some(loaded.error));
    }
    r := StoreSpec.Listing(loaded.value.items, None);
  }

  /** `contactSubmissions.getAll()`. */
  method GetAllContacts(s: Storage<Stored>) returns (r: StoreSpec.Listing)
    modifies s
    ensures (r, s.items) == StoreSpec.GetAll(s.limits, old(s.items), ContactNamespace)
  {
    r := ReadAll(s, ContactNamespace);
  }

  /** `newsletterSubscribers.emailExists(email)`. */
  method EmailExists(s: Storage<Stored>, email: string) returns (r: StoreSpec.Lookup)
    modifies s
    ensures (r, s.items) == StoreSpec.EmailExists(s.limits, old(s.items), email)
  {
    var loaded := InitializeCollection(s, SubscriberNamespace);
    if loaded.Err? {
      return StoreSpec.Lookup(false, Some(loaded.error));
    }
    var found := StoreSpec.SomeEmailMatches(loaded.value.items, email);
    r := StoreSpec.Lookup(found, None);
  }

  /** `newsletterSubscribers.insert(email)`: re-checks for a duplicate first. */
  method InsertSubscriber(s: Storage<Stored>, email: string, id: string, createdAt: string) returns (err: Option<Error>)
    modifies s
    ensures (err, s.items) == StoreSpec.InsertSubscriber(s.limits, old(s.items), email, id, createdAt)
  {
    var lookup := EmailExists(s, email);
    if lookup.error.Some? {
      return lookup.error;
    }
    if lookup.found {
      return Some(AlreadySubscribed);
    }
    var subscriber := NewsletterSubscriber(id, email, createdAt);
    err := InsertInto(s, SubscriberNamespace, subscriber);
  }

  /** `newsletterSubscribers.getAll()`. */
  method GetAllSubscribers(s: Storage<Stored>) returns (r: StoreSpec.Listing)
    modifies s
    ensures (r, s.items) == StoreSpec.GetAll(s.limits, old(s.items), SubscriberNamespace)
  {
    r := ReadAll(s, SubscriberNamespace);
  }

  /** `checkLocalStorageAvailable()`. */
  method CheckLocalStorageAvailable(s: Storage<Stored>) returns (available: bool)
    modifies s
    ensures (available, s.items) == StoreSpec.CheckAvailable(s.limits, old(s.items))
  {
    var f := s.SetItem(TestKey, Raw(TestKey));
    if f.Some? {
      return false;
    }
    assert s.items - {TestKey} == old(s.items) - {TestKey};
    f := s.RemoveItem(TestKey);
    if f.Some? {
      return false;
    }
    return true;
  }
}
