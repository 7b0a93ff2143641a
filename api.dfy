// The remote API client as a scripted oracle: every call consumes the next
// scripted reply and is appended, in order, to the shared journal of effects.
module Api {
  import opened Common
  import opened Effects

  /**
   * A reply of the remote service: success, carrying the ID and name of the
   * object it created (only a created store's are used), or an error.
   */
  datatype Reply = Granted(id: string, name: string) | Refused(cause: string)

  /** The cause reported for a call issued after the script ran out. */
  const Unavailable: string := "no reply"

  /** The reply to the `t`-th call issued against the script `replies`. */
  function ReplyAt(replies: seq<Reply>, t: nat): (r: Reply)
    ensures t < |replies| ==> r == replies[t]
    ensures t >= |replies| ==> r == Refused(Unavailable)
  {
    if t < |replies| then replies[t] else Refused(Unavailable)
  }

  lemma ReplyAtDrop(replies: seq<Reply>, t: nat)
    ensures ReplyAt(Drop(replies, t), 0) == ReplyAt(replies, t)
  {
  }

  class Client {
    var replies: seq<Reply>
    ghost const journal: Journal

    constructor (script: seq<Reply>, journal: Journal)
      ensures replies == script && this.journal == journal
    {
      replies := script;
      this.journal := journal;
    }

    /** Sends `c`, consuming the next scripted reply. */
    method Send(c: Call) returns (r: Reply)
      modifies this, journal
      ensures r == ReplyAt(old(replies), 0)
      ensures replies == Drop(old(replies), 1)
      ensures journal.events == old(journal.events) + [Issue(c)]
    {
      journal.events := journal.events + [Issue(c)];
      if replies == [] {
        r := Refused(Unavailable);
      } else {
        r := replies[0];
        replies := replies[1..];
      }
    }

    method CreateSecretStore(name: string) returns (r: Reply)
      modifies this, journal
      ensures r == ReplyAt(old(replies), 0)
      ensures replies == Drop(old(replies), 1)
      ensures journal.events == old(journal.events) + [Issue(Call.CreateSecretStore(name))]
    {
      r := Send(Call.CreateSecretStore(name));
    }

    method CreateSecret(storeId: string, name: string, secret: string) returns (r: Reply)
      modifies this, journal
      ensures r == ReplyAt(old(replies), 0)
      ensures replies == Drop(old(replies), 1)
      ensures journal.events == old(journal.events) + [Issue(Call.CreateSecret(storeId, name, secret))]
    {
      r := Send(Call.CreateSecret(storeId, name, secret));
    }

    method CreateResource(serviceId: string, serviceVersion: int, name: string, resourceId: string)
      returns (r: Reply)
      modifies this, journal
      ensures r == ReplyAt(old(replies), 0)
      ensures replies == Drop(old(replies), 1)
      ensures journal.events
           == old(journal.events) + [Issue(Call.CreateResource(serviceId, serviceVersion, name, resourceId))]
    {
      r := Send(Call.CreateResource(serviceId, serviceVersion, name, resourceId));
    }
  }
}
