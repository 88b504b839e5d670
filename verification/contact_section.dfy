/** The submission logic of the contact section: the contact form, whose webhook result
    is authoritative and whose local copy is best effort, and the newsletter form, for
    which the local database is authoritative. The component's React state is a class;
    rendering is not modelled. */
module ContactSection {
  import opened Wrappers
  import opened WebStorage
  import opened Records
  import StoreSpec
  import StoreProperties
  import LocalStorageDb

  const SendFailedMessage := "Unable to send your message. Please try again later or contact us directly."
  const NewsletterUnavailableMessage := "Newsletter subscription is currently unavailable. Please try again later."
  const AlreadySubscribedNotice := "This email is already subscribed to our newsletter."

  /** The four contact-form fields. */
  datatype FormState = FormState(name: string, email: string, company: string, message: string)

  const BlankForm := FormState("", "", "", "")

  /** The payload sent to the webhook and mirrored into the local database. */
  function Payload(f: FormState): ContactInput
  {
    ContactInput(f.name, f.email, Some(f.company), f.message)
  }

  /** How a submission ends: accepted, or refused with the message shown by the form. */
  datatype Outcome = Succeeded | Failed(message: string)

  /** The contact handler once the webhook call has answered `webhookSuccess`. */
  function SubmitContact(lim: Limits<Stored>, m: StoreSpec.Store, storageAvailable: bool, payload: ContactInput,
                         webhookSuccess: bool, id: string, createdAt: string): (Outcome, StoreSpec.Store)
  {
    if !webhookSuccess then (Failed(SendFailedMessage), m)
    else if storageAvailable then (Succeeded, StoreSpec.InsertContact(lim, m, payload, id, createdAt).1)
    else (Succeeded, m)
  }

  /** The newsletter handler for the address `email`. */
  function Subscribe(lim: Limits<Stored>, m: StoreSpec.Store, storageAvailable: bool, email: string,
                     id: string, createdAt: string): (Outcome, StoreSpec.Store)
  {
    if !storageAvailable then (Failed(NewsletterUnavailableMessage), m)
    else
      var (lookup, m1) := StoreSpec.EmailExists(lim, m, email);
      if lookup.error.Some? then (Failed(Message(lookup.error.value)), m1)
      else if lookup.found then (Failed(AlreadySubscribedNotice), m1)
      else
        var (err, m2) := StoreSpec.InsertSubscriber(lim, m1, email, id, createdAt);
        if err.Some? then (Failed(Message(err.value)), m2) else (Succeeded, m2)
  }

  /** The webhook decides the contact outcome; the local database is written only after
      a successful webhook call with storage available, only in the contact namespace,
      and a failed local write does not turn success into failure. */
  lemma RemoteResultIsAuthoritative(lim: Limits<Stored>, m: StoreSpec.Store, storageAvailable: bool,
                                    payload: ContactInput, webhookSuccess: bool, id: string, createdAt: string)
    ensures var (outcome, m') := SubmitContact(lim, m, storageAvailable, payload, webhookSuccess, id, createdAt);
            && (outcome == Succeeded <==> webhookSuccess)
            && (!webhookSuccess ==> outcome == Failed(SendFailedMessage) && m' == m)
            && (!storageAvailable ==> m' == m)
            && m' - {ContactNamespace} == m - {ContactNamespace}
  {
    StoreProperties.InsertContactAppends(lim, m, payload, id, createdAt);
  }

  /** The two refusals before any insert write nothing. */
  lemma NewsletterRefusalsWriteNothing(lim: Limits<Stored>, m: StoreSpec.Store, storageAvailable: bool,
                                       email: string, id: string, createdAt: string)
    ensures !storageAvailable ==>
              Subscribe(lim, m, storageAvailable, email, id, createdAt) == (Failed(NewsletterUnavailableMessage), m)
    ensures storageAvailable && lim.enabled && SubscriberNamespace in m && m[SubscriberNamespace].Doc?
            && StoreSpec.SomeEmailMatches(m[SubscriberNamespace].coll.items, email) ==>
              Subscribe(lim, m, storageAvailable, email, id, createdAt) == (Failed(AlreadySubscribedNotice), m)
  {
  }

  /** The handler checks for a duplicate before inserting, so the insert's own
      "Email already subscribed" rejection never reaches the form; a success stores the
      address as the last subscriber, exactly once up to case, after all earlier ones. */
  lemma SubscribeOutcome(lim: Limits<Stored>, m: StoreSpec.Store, storageAvailable: bool,
                         email: string, id: string, createdAt: string)
    ensures var (outcome, m') := Subscribe(lim, m, storageAvailable, email, id, createdAt);
            var before := StoreProperties.Existing(m, SubscriberNamespace);
            && outcome != Failed(AlreadySubscribedMessage)
            && (outcome == Succeeded <==>
                  storageAvailable && StoreSpec.InsertSubscriber(lim, m, email, id, createdAt).0 == None)
            && m' - {SubscriberNamespace} == m - {SubscriberNamespace}
            && (outcome == Succeeded ==>
                  && SubscriberNamespace in m' && m'[SubscriberNamespace].Doc?
                  && m'[SubscriberNamespace].coll.items == before.items + [NewsletterSubscriber(id, email, createdAt)]
                  && StoreProperties.MatchCount(m'[SubscriberNamespace].coll.items, email) == 1)
  {
    if storageAvailable {
      var before := StoreProperties.Existing(m, SubscriberNamespace);
      var (lookup, m1) := StoreSpec.EmailExists(lim, m, email);
      StoreProperties.InitializeOutcome(lim, m, SubscriberNamespace);
      if lookup.error.None? && !lookup.found {
        StoreProperties.InitializeOutcome(lim, m1, SubscriberNamespace);
        StoreProperties.InsertSubscriberOutcome(lim, m1, email, id, createdAt);
        assert StoreProperties.Existing(m1, SubscriberNamespace) == before;
        var r := NewsletterSubscriber(id, email, createdAt);
        StoreProperties.MatchCountZero(before.items, email);
        StoreProperties.MatchCountAppend(before.items, r, email);
      }
    }
  }

  /** The React state of the contact section. */
  class ContactSection {
    var form: FormState
    var formSubmitted: bool
    var formError: Option<string>
    var newsletterEmail: string
    var newsletterSubmitted: bool
    var newsletterError: Option<string>
    var isSubmitting: bool
    var isNewsletterSubmitting: bool
    var isStorageAvailable: bool

    /** The `useState` initial values. */
    constructor ()
      ensures form == BlankForm && !formSubmitted && formError == None
      ensures newsletterEmail == "" && !newsletterSubmitted && newsletterError == None
      ensures !isSubmitting && !isNewsletterSubmitting && isStorageAvailable
    {
      form := BlankForm;
      formSubmitted := false;
      formError := None;
      newsletterEmail := "";
      newsletterSubmitted := false;
      newsletterError := None;
      isSubmitting := false;
      isNewsletterSubmitting := false;
      isStorageAvailable := true;
    }

    /** The mount effect: probe the storage once and remember the answer. */
    method CheckStorageOnMount(store: Storage<Stored>)
      modifies this`isStorageAvailable, store
      ensures (isStorageAvailable, store.items) == StoreSpec.CheckAvailable(store.limits, old(store.items))
    {
      var available := LocalStorageDb.CheckLocalStorageAvailable(store);
      isStorageAvailable := available;
    }

    /** `handleContactSubmit` up to the webhook call: enter the submitting state, clear
        the error, and hand back the payload to send. */
    method BeginContactSubmit() returns (payload: ContactInput)
      modifies this`isSubmitting, this`formError
      ensures isSubmitting && formError == None
      ensures payload == Payload(form)
    {
      isSubmitting := true;
      formError := None;
      payload := Payload(form);
    }

    /** `handleContactSubmit` after the webhook call answered `webhookSuccess`; `id`
        and `createdAt` are what the local insert would generate. */
    method FinishContactSubmit(store: Storage<Stored>, payload: ContactInput, webhookSuccess: bool,
                               id: string, createdAt: string)
      modifies this`isSubmitting, this`formError, this`formSubmitted, this`form, store
      ensures var (outcome, m) := SubmitContact(store.limits, old(store.items), isStorageAvailable,
                                                payload, webhookSuccess, id, createdAt);
              && store.items == m
              && !isSubmitting
              && formError == (if outcome.Failed? then Some(outcome.message) else old(formError))
              && formSubmitted == (outcome.Succeeded? || old(formSubmitted))
              && form == (if outcome.Succeeded? then BlankForm else old(form))
    {
      if !webhookSuccess {
        formError := Some(SendFailedMessage);
      } else {
        if isStorageAvailable {
          // A failed local copy is only logged: the webhook has the message already.
          var storageError := LocalStorageDb.InsertContact(store, payload, id, createdAt);
        }
        formSubmitted := true;
        form := BlankForm;
      }
      isSubmitting := false;
    }

    /** The whole contact handler; `webhookSuccess` is the `success` flag of the
        webhook call on the current form. */
    method HandleContactSubmit(store: Storage<Stored>, webhookSuccess: bool, id: string, createdAt: string)
      modifies this`isSubmitting, this`formError, this`formSubmitted, this`form, store
      ensures var (outcome, m) := SubmitContact(store.limits, old(store.items), isStorageAvailable,
                                                Payload(old(form)), webhookSuccess, id, createdAt);
              && store.items == m
              && !isSubmitting
              && formError == (if outcome.Failed? then Some(outcome.message) else None)
              && formSubmitted == (outcome.Succeeded? || old(formSubmitted))
              && form == (if outcome.Succeeded? then BlankForm else old(form))
    {
      var payload := BeginContactSubmit();
      FinishContactSubmit(store, payload, webhookSuccess, id, createdAt);
    }

    /** `handleNewsletterSubmit` for the address in the newsletter field. */
    method HandleNewsletterSubmit(store: Storage<Stored>, id: string, createdAt: string)
      modifies this`isNewsletterSubmitting, this`newsletterError, this`newsletterSubmitted,
               this`newsletterEmail, store
      ensures var (outcome, m) := Subscribe(store.limits, old(store.items), isStorageAvailable,
                                            old(newsletterEmail), id, createdAt);
              && store.items == m
              && !isNewsletterSubmitting
              && newsletterError == (if outcome.Failed? then Some(outcome.message) else None)
              && newsletterSubmitted == (outcome.Succeeded? || old(newsletterSubmitted))
              && newsletterEmail == (if outcome.Succeeded? then "" else old(newsletterEmail))
    {
      isNewsletterSubmitting := true;
      newsletterError := None;
      if !isStorageAvailable {
        newsletterError := Some(NewsletterUnavailableMessage);
        isNewsletterSubmitting := false;
        return;
      }
      var lookup := LocalStorageDb.EmailExists(store, newsletterEmail);
      if lookup.error.Some? {
        newsletterError := Some(Message(lookup.error.value));
      } else if lookup.found {
        newsletterError := Some(AlreadySubscribedNotice);
      } else {
        var err := LocalStorageDb.InsertSubscriber(store, newsletterEmail, id, createdAt);
        if err.Some? {
          newsletterError := Some(Message(err.value));
        } else {
          newsletterSubmitted := true;
          newsletterEmail := "";
        }
      }
      isNewsletterSubmitting := false;
    }
  }
}
