// The terminal collaborators of the setup code: the masked prompt reader
// (`text.InputSecure` over the provisioner's `Stdin`) and the progress sink
// (`text.Progress` with its `Step` and `Fail` operations).
module Text {
  import opened Common
  import opened Effects

  /** One outcome of reading a masked prompt: the typed line, or an I/O failure. */
  datatype PromptRead = Line(text: string) | ReadError(cause: string)

  /** The cause reported when the input stream has nothing left to read. */
  const EndOfInput: string := "EOF"

  /** The `t`-th read of a stream whose answers are `answers`. */
  function ReadAt(answers: seq<PromptRead>, t: nat): (r: PromptRead)
    ensures t < |answers| ==> r == answers[t]
    ensures t >= |answers| ==> r == ReadError(EndOfInput)
  {
    if t < |answers| then answers[t] else ReadError(EndOfInput)
  }

  lemma ReadAtDrop(answers: seq<PromptRead>, t: nat)
    ensures ReadAt(Drop(answers, t), 0) == ReadAt(answers, t)
  {
  }

  /** The operator's input stream: the answers it still holds, in order. */
  class Stdin {
    var pending: seq<PromptRead>

    constructor (answers: seq<PromptRead>)
      ensures pending == answers
    {
      pending := answers;
    }

    /** Reads one masked line; an exhausted stream yields an I/O failure. */
    method InputSecure() returns (r: PromptRead)
      modifies this
      ensures r == ReadAt(old(pending), 0)
      ensures pending == Drop(old(pending), 1)
    {
      if pending == [] {
        r := ReadError(EndOfInput);
      } else {
        r := pending[0];
        pending := pending[1..];
      }
    }
  }

  /** The progress sink; every notice it shows is appended to the shared `journal`. */
  class Progress {
    ghost const journal: Journal

    constructor (journal: Journal)
      ensures this.journal == journal
    {
      this.journal := journal;
    }

    method Step(message: string)
      modifies journal
      ensures journal.events == old(journal.events) + [Say(Notice.Step(message))]
    {
      journal.events := journal.events + [Say(Notice.Step(message))];
    }

    method Fail()
      modifies journal
      ensures journal.events == old(journal.events) + [Say(Notice.Fail)]
    {
      journal.events := journal.events + [Say(Notice.Fail)];
    }
  }
}
