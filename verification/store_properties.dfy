/** Properties of the local database: lazy initialisation, append-only growth, the
    `nextId` counter, the case-insensitive uniqueness of subscribers, and the
    independence of namespaces, for single calls and for any sequence of calls. */
module StoreProperties {
  import opened Wrappers
  import opened Text
  import opened WebStorage
  import opened Records
  import opened StoreSpec

  /** The collection a load of `name` finds: the stored one, or a fresh empty one. */
  function Existing(m: Store, name: string): Collection
  {
    if name in m && m[name].Doc? then m[name].coll else EmptyCollection
  }

  /** The key holds text that is not a collection (and is not the falsy empty string). */
  predicate Corrupt(m: Store, name: string)
  {
    name in m && m[name].Raw? && m[name].text != ""
  }

  /** No two subscribers share an address up to letter case. */
  predicate NoDuplicateEmails(items: seq<Record>)
  {
    forall i, j :: 0 <= i < j < |items| ==> !SameIgnoringCase(items[i].email, items[j].email)
  }

  /** How many records hold `email` up to letter case. */
  function MatchCount(items: seq<Record>, email: string): nat
  {
    if items == [] then 0
    else (if SameIgnoringCase(items[0].email, email) then 1 else 0) + MatchCount(items[1..], email)
  }

  // ---------------------------------------------------------------------------
  // Initialisation

  lemma InitializeFresh(lim: Limits<Stored>, m: Store, name: string)
    requires lim.enabled && name !in m && lim.accepts(name, Doc(EmptyCollection))
    ensures Initialize(lim, m, name) == (Ok(EmptyCollection), m[name := Doc(EmptyCollection)])
  {
  }

  lemma InitializeIdempotent(lim: Limits<Stored>, m: Store, name: string)
    ensures var (r, m1) := Initialize(lim, m, name);
            r.Ok? ==> Initialize(lim, m1, name) == (r, m1)
  {
  }

  lemma InitializeOutcome(lim: Limits<Stored>, m: Store, name: string)
    ensures var (r, m1) := Initialize(lim, m, name);
            && (r.Ok? <==> lim.enabled && !Corrupt(m, name)
                           && (Uninitialized(m, name) ==> lim.accepts(name, Doc(EmptyCollection))))
            && (!lim.enabled ==> r == Err(Thrown(SecurityError)))
            && (lim.enabled && Corrupt(m, name) ==> r == Err(Unparseable(name)))
            && (lim.enabled && Uninitialized(m, name) && !lim.accepts(name, Doc(EmptyCollection)) ==>
                  r == Err(Thrown(QuotaExceededError)))
            && (r.Err? ==> m1 == m)
            && (r.Ok? ==> r.value == Existing(m, name))
            && (r.Ok? ==> m1 == if Uninitialized(m, name) then m[name := Doc(EmptyCollection)] else m)
  {
  }

  // ---------------------------------------------------------------------------
  // Appending a record

  lemma InsertIntoOutcome(lim: Limits<Stored>, m: Store, name: string, r: Record)
    ensures var (err, m') := InsertInto(lim, m, name, r);
            var before := Existing(m, name);
            && m' - {name} == m - {name}
            && (err.None? <==> lim.enabled && !Corrupt(m, name)
                               && (Uninitialized(m, name) ==> lim.accepts(name, Doc(EmptyCollection)))
                               && lim.accepts(name, Doc(Appended(before, r))))
            && (!lim.enabled ==> err == Some(Thrown(SecurityError)))
            && (lim.enabled && Corrupt(m, name) ==> err == Some(Unparseable(name)))
            && (err.None? ==> name in m' && m'[name] == Doc(Appended(before, r)))
            && (err.Some? ==> m' == m || (Uninitialized(m, name) && m' == m[name := Doc(EmptyCollection)]))
  {
    InitializeOutcome(lim, m, name);
  }

  lemma InsertContactAppends(lim: Limits<Stored>, m: Store, data: ContactInput, id: string, createdAt: string)
    ensures var (err, m') := InsertContact(lim, m, data, id, createdAt);
            var before := Existing(m, ContactNamespace);
            && m' - {ContactNamespace} == m - {ContactNamespace}
            && (err.Some? ==> m' == m || (Uninitialized(m, ContactNamespace)
                                          && m' == m[ContactNamespace := Doc(EmptyCollection)]))
            && (err.None? ==> ContactNamespace in m' && m'[ContactNamespace].Doc?
                              && (var after := m'[ContactNamespace].coll;
                                  && |after.items| == |before.items| + 1
                                  && after.items[..|before.items|] == before.items
                                  && after.items[|before.items|]
                                     == ContactSubmission(id, data.name, data.email, data.company, data.message, createdAt)
                                  && after.nextId == before.nextId + 1))
  {
    InsertIntoOutcome(lim, m, ContactNamespace, NewContact(data, id, createdAt));
  }

  lemma GetAllReadsOnly(lim: Limits<Stored>, m: Store, name: string)
    ensures var (listing, m1) := GetAll(lim, m, name);
            && (listing.error.Some? ==> listing.data == [] && m1 == m)
            && (listing.error.None? ==> listing.data == Existing(m, name).items)
            && (m1 == m || (Uninitialized(m, name) && m1 == m[name := Doc(EmptyCollection)]))
  {
    InitializeOutcome(lim, m, name);
  }

  // ---------------------------------------------------------------------------
  // Newsletter subscribers

  lemma EmailExistsMeaning(lim: Limits<Stored>, m: Store, email: string)
    ensures var (lookup, m1) := EmailExists(lim, m, email);
            var items := Existing(m, SubscriberNamespace).items;
            && (lookup.error.Some? ==> !lookup.found && m1 == m)
            && (lookup.error.None? ==>
                  (lookup.found <==> exists i :: 0 <= i < |items| && SameIgnoringCase(items[i].email, email)))
            && (lookup.found ==> m1 == m)
  {
    InitializeOutcome(lim, m, SubscriberNamespace);
  }

  lemma DuplicateRejected(lim: Limits<Stored>, m: Store, email: string, id: string, createdAt: string)
    requires lim.enabled
    requires SubscriberNamespace in m && m[SubscriberNamespace].Doc?
    requires SomeEmailMatches(m[SubscriberNamespace].coll.items, email)
    ensures InsertSubscriber(lim, m, email, id, createdAt) == (Some(AlreadySubscribed), m)
  {
  }

  lemma InsertSubscriberOutcome(lim: Limits<Stored>, m: Store, email: string, id: string, createdAt: string)
    ensures var (err, m') := InsertSubscriber(lim, m, email, id, createdAt);
            var before := Existing(m, SubscriberNamespace);
            && m' - {SubscriberNamespace} == m - {SubscriberNamespace}
            && (err == Some(AlreadySubscribed) <==>
                  lim.enabled && !Corrupt(m, SubscriberNamespace) && SomeEmailMatches(before.items, email))
            && (err == Some(AlreadySubscribed) ==> m' == m)
            && (err.None? <==> lim.enabled && !Corrupt(m, SubscriberNamespace)
                               && (Uninitialized(m, SubscriberNamespace) ==>
                                     lim.accepts(SubscriberNamespace, Doc(EmptyCollection)))
                               && !SomeEmailMatches(before.items, email)
                               && lim.accepts(SubscriberNamespace,
                                              Doc(Appended(before, NewsletterSubscriber(id, email, createdAt)))))
            && (err.Some? ==> m' == m || (Uninitialized(m, SubscriberNamespace)
                                          && m' == m[SubscriberNamespace := Doc(EmptyCollection)]))
            && (err.None? ==> !SomeEmailMatches(before.items, email)
                              && SubscriberNamespace in m'
                              && m'[SubscriberNamespace]
                                 == Doc(Appended(before, NewsletterSubscriber(id, email, createdAt))))
  {
    InitializeOutcome(lim, m, SubscriberNamespace);
    var (lookup, m1) := EmailExists(lim, m, email);
    if lookup.error.None? && !lookup.found {
      InitializeOutcome(lim, m1, SubscriberNamespace);
      InsertIntoOutcome(lim, m1, SubscriberNamespace, NewsletterSubscriber(id, email, createdAt));
    }
  }

  lemma {:induction false} MatchCountAppend(items: seq<Record>, r: Record, email: string)
    ensures MatchCount(items + [r], email)
            == MatchCount(items, email) + (if SameIgnoringCase(r.email, email) then 1 else 0)
  {
    if items != [] {
      assert (items + [r])[1..] == items[1..] + [r];
      MatchCountAppend(items[1..], r, email);
    }
  }

  lemma {:induction false} MatchCountZero(items: seq<Record>, email: string)
    ensures MatchCount(items, email) == 0 <==> !SomeEmailMatches(items, email)
  {
    if items != [] {
      MatchCountZero(items[1..], email);
    }
  }

  lemma {:induction false} DistinctEmailsAtMostOnce(items: seq<Record>, email: string)
    requires NoDuplicateEmails(items)
    ensures MatchCount(items, email) <= 1
  {
    if items != [] {
      var rest := items[1..];
      assert NoDuplicateEmails(rest) by {
        forall i, j | 0 <= i < j < |rest|
          ensures !SameIgnoringCase(rest[i].email, rest[j].email)
        {
          assert rest[i] == items[i + 1] && rest[j] == items[j + 1];
        }
      }
      DistinctEmailsAtMostOnce(rest, email);
      if SameIgnoringCase(items[0].email, email) {
        forall k | 0 <= k < |rest|
          ensures !SameIgnoringCase(rest[k].email, email)
        {
          assert rest[k] == items[k + 1];
        }
        MatchCountZero(rest, email);
      }
    }
  }

  lemma AppendKeepsDistinct(items: seq<Record>, r: Record)
    requires NoDuplicateEmails(items) && !SomeEmailMatches(items, r.email)
    ensures NoDuplicateEmails(items + [r])
  {
    var s := items + [r];
    forall i, j | 0 <= i < j < |s|
      ensures !SameIgnoringCase(s[i].email, s[j].email)
    {
      if j < |items| {
        assert s[i] == items[i] && s[j] == items[j];
      } else {
        assert s[i] == items[i] && s[j] == r;
      }
    }
  }

  /** Subscribing the same address twice (up to case) stores it exactly once. */
  lemma SubscribingTwiceStoresOnce(lim: Limits<Stored>, m: Store, email1: string, email2: string,
                                   id1: string, createdAt1: string, id2: string, createdAt2: string)
    requires SameIgnoringCase(email1, email2)
    requires InsertSubscriber(lim, m, email1, id1, createdAt1).0 == None
    ensures var m1 := InsertSubscriber(lim, m, email1, id1, createdAt1).1;
            && InsertSubscriber(lim, m1, email2, id2, createdAt2) == (Some(AlreadySubscribed), m1)
            && SubscriberNamespace in m1 && m1[SubscriberNamespace].Doc?
            && MatchCount(m1[SubscriberNamespace].coll.items, email2) == 1
  {
    var m1 := InsertSubscriber(lim, m, email1, id1, createdAt1).1;
    var before := Existing(m, SubscriberNamespace);
    var r := NewsletterSubscriber(id1, email1, createdAt1);
    InsertSubscriberOutcome(lim, m, email1, id1, createdAt1);
    assert m1[SubscriberNamespace] == Doc(Appended(before, r));
    var after := before.items + [r];
    assert after[|before.items|] == r;
    assert SomeEmailMatches(after, email2);
    DuplicateRejected(lim, m1, email2, id2, createdAt2);
    MatchCountZero(before.items, email1);
    MatchCountZero(before.items, email2);
    MatchCountAppend(before.items, r, email2);
  }

  // ---------------------------------------------------------------------------
  // Availability probe

  lemma ProbeOutcome(lim: Limits<Stored>, m: Store)
    ensures var (ok, m1) := CheckAvailable(lim, m);
            && (ok <==> lim.enabled && lim.accepts(TestKey, Raw(TestKey)))
            && (ok ==> TestKey !in m1 && m1 == m - {TestKey})
            && (!ok ==> m1 == m)
  {
  }

  // ---------------------------------------------------------------------------
  // Any sequence of operations

  /** The contact namespace, if it holds a collection, counts its items and holds
      contact submissions only. */
  predicate ContactsWellFormed(m: Store)
  {
    ContactNamespace in m && m[ContactNamespace].Doc? ==>
      var c := m[ContactNamespace].coll;
      && c.nextId == |c.items| + 1
      && forall i :: 0 <= i < |c.items| ==> c.items[i].ContactSubmission?
  }

  /** The subscriber namespace, if it holds a collection, counts its items, holds
      subscribers only, and holds each address once up to case. */
  predicate SubscribersWellFormed(m: Store)
  {
    SubscriberNamespace in m && m[SubscriberNamespace].Doc? ==>
      var c := m[SubscriberNamespace].coll;
      && c.nextId == |c.items| + 1
      && (forall i :: 0 <= i < |c.items| ==> c.items[i].NewsletterSubscriber?)
      && NoDuplicateEmails(c.items)
  }

  predicate WellFormed(m: Store)
  {
    ContactsWellFormed(m) && SubscribersWellFormed(m)
  }

  /** Once `name` holds a collection it keeps holding one, whose items extend the
      earlier items and whose `nextId` is no smaller. */
  predicate Grows(m: Store, m': Store, name: string)
  {
    name in m && m[name].Doc? ==>
      && name in m' && m'[name].Doc?
      && m[name].coll.items <= m'[name].coll.items
      && m[name].coll.nextId <= m'[name].coll.nextId
  }

  lemma AppendKeepsWellFormed(c: Collection, r: Record)
    requires c.nextId == |c.items| + 1
    ensures Appended(c, r).nextId == |Appended(c, r).items| + 1
    ensures forall i :: 0 <= i < |c.items| ==> Appended(c, r).items[i] == c.items[i]
    ensures Appended(c, r).items[|c.items|] == r
  {
  }

  lemma ApplyKeepsWellFormed(lim: Limits<Stored>, m: Store, op: Op)
    requires WellFormed(m)
    ensures WellFormed(Apply(lim, m, op))
  {
    InitializeOutcome(lim, m, ContactNamespace);
    InitializeOutcome(lim, m, SubscriberNamespace);
    match op
    case InsertContactOp(data, id, createdAt) =>
      var r := NewContact(data, id, createdAt);
      InsertIntoOutcome(lim, m, ContactNamespace, r);
      AppendKeepsWellFormed(Existing(m, ContactNamespace), r);
    case InsertSubscriberOp(email, id, createdAt) =>
      var r := NewsletterSubscriber(id, email, createdAt);
      InsertSubscriberOutcome(lim, m, email, id, createdAt);
      var (err, m') := InsertSubscriber(lim, m, email, id, createdAt);
      if err.None? {
        AppendKeepsWellFormed(Existing(m, SubscriberNamespace), r);
        AppendKeepsDistinct(Existing(m, SubscriberNamespace).items, r);
      }
    case _ =>
  }

  lemma {:induction false} RunKeepsWellFormed(lim: Limits<Stored>, m: Store, ops: seq<Op>)
    requires WellFormed(m)
    ensures WellFormed(Run(lim, m, ops))
    decreases |ops|
  {
    if ops != [] {
      ApplyKeepsWellFormed(lim, m, ops[0]);
      RunKeepsWellFormed(lim, Apply(lim, m, ops[0]), ops[1..]);
    }
  }

  /** From a store that was never written, every sequence of calls leaves `nextId` one
      past the item count in both namespaces and the subscribers free of duplicates. */
  lemma NeverWrittenStoreStaysWellFormed(lim: Limits<Stored>, ops: seq<Op>)
    ensures WellFormed(Run(lim, map[], ops))
  {
    RunKeepsWellFormed(lim, map[], ops);
  }

  /** The subscriber namespace, if it holds a collection, holds each address once up
      to case. */
  predicate SubscribersDistinct(m: Store)
  {
    SubscriberNamespace in m && m[SubscriberNamespace].Doc? ==>
      NoDuplicateEmails(m[SubscriberNamespace].coll.items)
  }

  lemma ApplyKeepsSubscribersDistinct(lim: Limits<Stored>, m: Store, op: Op)
    requires SubscribersDistinct(m)
    ensures SubscribersDistinct(Apply(lim, m, op))
  {
    ApplyFootprint(lim, m, op);
    var m' := Apply(lim, m, op);
    if Footprint(op) != SubscriberNamespace {
      assert SubscriberNamespace in m <==> SubscriberNamespace in m - {Footprint(op)};
      assert SubscriberNamespace in m ==> m[SubscriberNamespace] == (m - {Footprint(op)})[SubscriberNamespace];
    } else {
      match op
      case InsertSubscriberOp(email, id, createdAt) =>
        InsertSubscriberOutcome(lim, m, email, id, createdAt);
        if InsertSubscriber(lim, m, email, id, createdAt).0.None? {
          AppendKeepsDistinct(Existing(m, SubscriberNamespace).items, NewsletterSubscriber(id, email, createdAt));
        }
      case _ =>
        InitializeOutcome(lim, m, SubscriberNamespace);
    }
  }

  /** From a store whose subscribers are duplicate-free, any sequence of calls keeps them
      so, whatever the contact namespace holds. */
  lemma {:induction false} RunKeepsSubscribersDistinct(lim: Limits<Stored>, m: Store, ops: seq<Op>)
    requires SubscribersDistinct(m)
    ensures SubscribersDistinct(Run(lim, m, ops))
    decreases |ops|
  {
    if ops != [] {
      ApplyKeepsSubscribersDistinct(lim, m, ops[0]);
      RunKeepsSubscribersDistinct(lim, Apply(lim, m, ops[0]), ops[1..]);
    }
  }

  /** After any sequence of calls from a duplicate-free store, each address is stored
      at most once up to case. */
  lemma RunStoresEachAddressAtMostOnce(lim: Limits<Stored>, m: Store, ops: seq<Op>, email: string)
    requires SubscribersDistinct(m)
    ensures var m' := Run(lim, m, ops);
            SubscriberNamespace in m' && m'[SubscriberNamespace].Doc? ==>
              MatchCount(m'[SubscriberNamespace].coll.items, email) <= 1
  {
    var m' := Run(lim, m, ops);
    RunKeepsSubscribersDistinct(lim, m, ops);
    if SubscriberNamespace in m' && m'[SubscriberNamespace].Doc? {
      DistinctEmailsAtMostOnce(m'[SubscriberNamespace].coll.items, email);
    }
  }

  lemma ApplyKeepsContactsWellFormed(lim: Limits<Stored>, m: Store, op: Op)
    requires ContactsWellFormed(m)
    ensures ContactsWellFormed(Apply(lim, m, op))
  {
    ApplyFootprint(lim, m, op);
    if Footprint(op) != ContactNamespace {
      assert ContactNamespace in m <==> ContactNamespace in m - {Footprint(op)};
      assert ContactNamespace in m ==> m[ContactNamespace] == (m - {Footprint(op)})[ContactNamespace];
    } else {
      match op
      case InsertContactOp(data, id, createdAt) =>
        var r := NewContact(data, id, createdAt);
        InsertIntoOutcome(lim, m, ContactNamespace, r);
        AppendKeepsWellFormed(Existing(m, ContactNamespace), r);
      case _ =>
        InitializeOutcome(lim, m, ContactNamespace);
    }
  }

  /** From a store whose contact collection is in step, any sequence of calls keeps
      `nextId` one past the number of contact submissions, whatever the subscriber
      namespace holds. */
  lemma {:induction false} RunKeepsContactsWellFormed(lim: Limits<Stored>, m: Store, ops: seq<Op>)
    requires ContactsWellFormed(m)
    ensures ContactsWellFormed(Run(lim, m, ops))
    decreases |ops|
  {
    if ops != [] {
      ApplyKeepsContactsWellFormed(lim, m, ops[0]);
      RunKeepsContactsWellFormed(lim, Apply(lim, m, ops[0]), ops[1..]);
    }
  }

  lemma ApplyFootprint(lim: Limits<Stored>, m: Store, op: Op)
    ensures Apply(lim, m, op) - {Footprint(op)} == m - {Footprint(op)}
  {
    match op
    case InsertContactOp(data, id, createdAt) =>
      InsertIntoOutcome(lim, m, ContactNamespace, NewContact(data, id, createdAt));
    case InsertSubscriberOp(email, id, createdAt) =>
      InsertSubscriberOutcome(lim, m, email, id, createdAt);
    case EmailExistsOp(email) =>
      InitializeOutcome(lim, m, SubscriberNamespace);
    case GetAllContactsOp =>
      InitializeOutcome(lim, m, ContactNamespace);
    case GetAllSubscribersOp =>
      InitializeOutcome(lim, m, SubscriberNamespace);
    case CheckAvailableOp =>
  }

  lemma ApplyGrows(lim: Limits<Stored>, m: Store, op: Op, name: string)
    requires name != TestKey
    ensures Grows(m, Apply(lim, m, op), name)
  {
    ApplyFootprint(lim, m, op);
    var m' := Apply(lim, m, op);
    if name != Footprint(op) {
      assert name in m <==> name in m - {Footprint(op)};
      assert name in m ==> m[name] == (m - {Footprint(op)})[name];
    } else {
      match op
      case InsertContactOp(data, id, createdAt) =>
        InsertIntoOutcome(lim, m, ContactNamespace, NewContact(data, id, createdAt));
      case InsertSubscriberOp(email, id, createdAt) =>
        InsertSubscriberOutcome(lim, m, email, id, createdAt);
      case EmailExistsOp(email) =>
        InitializeOutcome(lim, m, SubscriberNamespace);
      case GetAllContactsOp =>
        InitializeOutcome(lim, m, ContactNamespace);
      case GetAllSubscribersOp =>
        InitializeOutcome(lim, m, SubscriberNamespace);
      case CheckAvailableOp =>
    }
  }

  /** Along any sequence of calls no key but the probe's test key loses a record, and no
      `nextId` decreases. */
  lemma {:induction false} RunGrows(lim: Limits<Stored>, m: Store, ops: seq<Op>, name: string)
    requires name != TestKey
    ensures Grows(m, Run(lim, m, ops), name)
    decreases |ops|
  {
    if ops != [] {
      var m1 := Apply(lim, m, ops[0]);
      ApplyGrows(lim, m, ops[0], name);
      RunGrows(lim, m1, ops[1..], name);
    }
  }

  /** Keys other than the two namespaces and the probe's test key are never touched. */
  lemma {:induction false} RunLeavesOtherKeys(lim: Limits<Stored>, m: Store, ops: seq<Op>)
    ensures var others := {ContactNamespace, SubscriberNamespace, TestKey};
            Run(lim, m, ops) - others == m - others
    decreases |ops|
  {
    if ops != [] {
      var others := {ContactNamespace, SubscriberNamespace, TestKey};
      var m1 := Apply(lim, m, ops[0]);
      ApplyFootprint(lim, m, ops[0]);
      assert Footprint(ops[0]) in others;
      assert m1 - others == m - others by {
        assert m1 - others == (m1 - {Footprint(ops[0])}) - others;
        assert m - others == (m - {Footprint(ops[0])}) - others;
      }
      RunLeavesOtherKeys(lim, m1, ops[1..]);
    }
  }
}
