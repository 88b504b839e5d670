/** The entities the local database keeps: records, the per-namespace collection and
    the value stored under a namespace key, plus the errors its operations report. */
module Records {
  import opened Wrappers
  import opened WebStorage

  /** One stored record. Both kinds carry `id`, `email` and `createdAt` (the source's
      `created_at`); a contact submission also carries the form's other fields. */
  datatype Record =
    | ContactSubmission(id: string, name: string, email: string, company: Option<string>,
                        message: string, createdAt: string)
    | NewsletterSubscriber(id: string, email: string, createdAt: string)

  /** The fields a caller supplies for a contact submission (everything but `id` and
      `created_at`). */
  datatype ContactInput = ContactInput(name: string, email: string, company: Option<string>, message: string)

  /** `Collection<T>`: the items in insertion order and the advisory counter. */
  datatype Collection = Collection(items: seq<Record>, nextId: int)

  const EmptyCollection := Collection([], 1)

  /** What a namespace key holds: the JSON text of a collection (`Doc`), or some other
      text (`Raw`) that does not parse as one. */
  datatype Stored = Doc(coll: Collection) | Raw(text: string)

  /** The errors handed back in `{ error }`: an exception thrown by the storage object,
      stored text that is not a collection, or the duplicate-subscriber rejection. */
  datatype Error = Thrown(fault: Fault) | Unparseable(key: string) | AlreadySubscribed

  const ContactNamespace := "contactSubmissions"
  const SubscriberNamespace := "newsletterSubscribers"
  const TestKey := "__test_storage__"
  const AlreadySubscribedMessage := "Email already subscribed"

  /** The `message` of an error. Browser exceptions are represented by their names. */
  function Message(e: Error): string
  {
    match e
    case Thrown(SecurityError) => "SecurityError"
    case Thrown(QuotaExceededError) => "QuotaExceededError"
    case Unparseable(_) => "SyntaxError"
    case AlreadySubscribed => AlreadySubscribedMessage
  }

  function NewContact(data: ContactInput, id: string, createdAt: string): Record
  {
    ContactSubmission(id, data.name, data.email, data.company, data.message, createdAt)
  }

  /** The collection after `items.push(r)` and `nextId++`. */
  function Appended(c: Collection, r: Record): Collection
  {
    Collection(c.items + [r], c.nextId + 1)
  }
}
