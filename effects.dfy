// The visible effects of the secret-store setup, as one record: what the
// progress sink shows the operator and which remote calls the API client
// issues, interleaved in the order they happen. The progress sink and the
// API client both append to the same `Journal`, so the order between a
// progress step and the call it announces is part of the state.
module Effects {
  /** What the progress sink shows the operator. */
  datatype Notice = Step(message: string) | Fail

  /** The three remote operations the secret-store setup issues. */
  datatype Call =
    | CreateSecretStore(name: string)
    | CreateSecret(storeId: string, name: string, secret: string)
    | CreateResource(serviceId: string, serviceVersion: int, name: string, resourceId: string)

  /** One visible effect: a progress notice or a remote call. */
  datatype Event = Say(notice: Notice) | Issue(call: Call)

  /** The record of every visible effect so far, shared by the progress sink and the API client. */
  class Journal {
    ghost var events: seq<Event>

    constructor ()
      ensures events == []
    {
      events := [];
    }
  }
}
