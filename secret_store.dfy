// The secret-store provisioner of the compute setup: it turns the secret
// stores declared in the manifest into a list of stores to create
// (Configure), then creates each store, its entries and the store's link to
// the service version through the API client (Create).
//
// Each imperative operation of `SecretStores` is proved against a pure
// specification function (ConfigureRun, CreateRun). Those functions walk
// their input from the left, one element at a time, as the source's loops
// do; they are written by recursion on the last element so that a loop's
// invariant reads "the state so far is the run over the prefix done so far".
module Setup {
  import opened Common
  import opened Manifest
  import opened Text
  import opened Api
  import opened Effects

  /** A store to create, with its resolved entries (built by Configure). */
  datatype SecretStore = SecretStore(name: string, items: seq<SecretStoreItem>)

  /** A resolved entry of a store: its key and the secret the operator gave. */
  datatype SecretStoreItem = SecretStoreItem(name: string, secret: string)

  /** The kinds of failure the provisioner reports. */
  datatype SetupError =
    | BlankValue                         // an entry resolved to the empty string
    | PromptInput(cause: string)         // reading the prompt failed
    | Bug                                // Create was called without a progress sink
    | StoreCreation(cause: string)       // the API refused to create a store
    | EntryCreation(cause: string)       // the API refused to create an entry
    | ResourceLink(serviceId: string, storeName: string, cause: string)
                                         // the API refused to link a store to the service

  // ---------------------------------------------------------------------
  // Configure

  /**
   * The value that the `t`-th entry (counting entries over all stores)
   * resolves to. Outside interactive mode nothing is read and the value
   * stays empty.
   */
  function Answer(interactive: bool, stdin: seq<PromptRead>, t: nat): (a: PromptRead)
    ensures !interactive ==> a == Line("")
    ensures interactive ==> a == ReadAt(stdin, t)
  {
    if interactive then ReadAt(stdin, t) else Line("")
  }

  /** The value a prompt read leaves in the entry: the typed line, or nothing. */
  function Value(a: PromptRead): (v: string)
    ensures a.Line? ==> v == a.text
    ensures a.ReadError? ==> v == ""
  {
    if a.Line? then a.text else ""
  }

  /** An answer Configure keeps: a line that was read and is not blank. */
  predicate Accepted(a: PromptRead) {
    a.Line? && a.text != ""
  }

  /** The error for an answer Configure does not keep. */
  function Rejection(a: PromptRead): (e: SetupError)
    requires !Accepted(a)
    ensures a.ReadError? <==> e.PromptInput?
    ensures a.ReadError? ==> e == PromptInput(a.cause)
    ensures a.Line? <==> e == BlankValue
  {
    match a
    case ReadError(cause) => PromptInput(cause)
    case Line(_) => BlankValue
  }

  /** State of a run of Configure's inner loop over one store's entries. */
  datatype Resolved = Resolved(err: Option<SetupError>, items: seq<SecretStoreItem>, next: nat)

  /**
   * Resolves `items` in order, taking the answer for each from position
   * `start` on; stops at the first answer that is not accepted. `next` is
   * the position after the last entry looked at.
   */
  function ResolveItems(items: seq<SetupSecretStoreItem>, interactive: bool, stdin: seq<PromptRead>, start: nat)
    : Resolved
    decreases |items|
  {
    if items == [] then Resolved(None, [], start)
    else
      var prev := ResolveItems(items[..|items| - 1], interactive, stdin, start);
      if prev.err.Some? then prev
      else
        var a := Answer(interactive, stdin, prev.next);
        if Accepted(a) then
          Resolved(None, prev.items + [SecretStoreItem(items[|items| - 1].key, a.text)], prev.next + 1)
        else
          Resolved(Some(Rejection(a)), prev.items, prev.next + 1)
  }

  /** State of a run of Configure: the outcome, the stores it completed and the next entry position. */
  datatype Configured = Configured(err: Option<SetupError>, stores: seq<SecretStore>, next: nat)

  /**
   * What Configure does with the declared stores `setup`: each store is
   * completed only after all its entries resolve; the first entry that does
   * not resolve ends the run.
   */
  function ConfigureRun(setup: seq<SetupSecretStore>, interactive: bool, stdin: seq<PromptRead>): Configured
    decreases |setup|
  {
    if setup == [] then Configured(None, [], 0)
    else
      var prev := ConfigureRun(setup[..|setup| - 1], interactive, stdin);
      if prev.err.Some? then prev
      else
        var settings := setup[|setup| - 1];
        var r := ResolveItems(settings.items, interactive, stdin, prev.next);
        if r.err.Some? then Configured(r.err, prev.stores, r.next)
        else Configured(None, prev.stores + [SecretStore(settings.name, r.items)], r.next)
  }

  // ---------------------------------------------------------------------
  // Create

  /** The remote calls of a record, in order. */
  function CallsIn(log: seq<Event>): (calls: seq<Call>)
    ensures |calls| <= |log|
    decreases |log|
  {
    if log == [] then []
    else CallsIn(log[..|log| - 1]) + (if log[|log| - 1].Issue? then [log[|log| - 1].call] else [])
  }

  /** The progress notices of a record, in order. */
  function NoticesIn(log: seq<Event>): (notices: seq<Notice>)
    ensures |notices| <= |log|
    decreases |log|
  {
    if log == [] then []
    else NoticesIn(log[..|log| - 1]) + (if log[|log| - 1].Say? then [log[|log| - 1].notice] else [])
  }

  function StoreStep(name: string): string {
    "Creating secret store '" + name + "'..."
  }

  function EntryStep(name: string): string {
    "Creating secret store entry '" + name + "'..."
  }

  function LinkStep(name: string): string {
    "Creating resource link between service and secret store '" + name + "'..."
  }

  /** State of a run of Create: the outcome, the record so far, and the number of calls issued. */
  datatype Created = Created(err: Option<SetupError>, log: seq<Event>, next: nat)

  /**
   * Issues, after a successful run `from`, one step and one CreateSecret
   * call per entry of `items`, against the store `storeId`; stops at the
   * first refusal, after reporting the failure.
   */
  function CreateEntries(items: seq<SecretStoreItem>, storeId: string, replies: seq<Reply>, from: Created): Created
    decreases |items|
  {
    if items == [] then from
    else
      var prev := CreateEntries(items[..|items| - 1], storeId, replies, from);
      if prev.err.Some? then prev
      else
        var item := items[|items| - 1];
        var log := prev.log + [Say(Step(EntryStep(item.name))), Issue(CreateSecret(storeId, item.name, item.secret))];
        var reply := ReplyAt(replies, prev.next);
        if reply.Refused? then Created(Some(EntryCreation(reply.cause)), log + [Say(Fail)], prev.next + 1)
        else Created(None, log, prev.next + 1)
  }

  /**
   * Creates one store after a successful run `from`: the store, then its
   * entries against the returned ID, then the link of the returned store to
   * the service version.
   */
  function CreateOne(s: SecretStore, serviceId: string, serviceVersion: int, replies: seq<Reply>, from: Created)
    : Created
  {
    var log := from.log + [Say(Step(StoreStep(s.name))), Issue(CreateSecretStore(s.name))];
    var store := ReplyAt(replies, from.next);
    if store.Refused? then Created(Some(StoreCreation(store.cause)), log + [Say(Fail)], from.next + 1)
    else
      var e := CreateEntries(s.items, store.id, replies, Created(None, log, from.next + 1));
      if e.err.Some? then e
      else
        var linkLog := e.log + [Say(Step(LinkStep(s.name))),
                                Issue(CreateResource(serviceId, serviceVersion, store.name, store.id))];
        var link := ReplyAt(replies, e.next);
        if link.Refused? then
          Created(Some(ResourceLink(serviceId, store.name, link.cause)), linkLog + [Say(Fail)], e.next + 1)
        else Created(None, linkLog, e.next + 1)
  }

  /** What Create does with the stores `required`, given the API's scripted `replies`. */
  function CreateRun(required: seq<SecretStore>, serviceId: string, serviceVersion: int, replies: seq<Reply>)
    : Created
    decreases |required|
  {
    if required == [] then Created(None, [], 0)
    else
      var prev := CreateRun(required[..|required| - 1], serviceId, serviceVersion, replies);
      if prev.err.Some? then prev
      else CreateOne(required[|required| - 1], serviceId, serviceVersion, replies, prev)
  }

  // ---------------------------------------------------------------------
  // Facts the methods below need to close their early returns.

  lemma {:induction false} ResolveItemsStops(items: seq<SetupSecretStoreItem>, k: nat, interactive: bool,
                                             stdin: seq<PromptRead>, start: nat)
    requires k <= |items|
    requires ResolveItems(items[..k], interactive, stdin, start).err.Some?
    ensures ResolveItems(items, interactive, stdin, start) == ResolveItems(items[..k], interactive, stdin, start)
    decreases |items|
  {
    if k < |items| {
      assert items[..|items| - 1][..k] == items[..k];
      ResolveItemsStops(items[..|items| - 1], k, interactive, stdin, start);
    } else {
      assert items[..k] == items;
    }
  }

  lemma {:induction false} ConfigureRunStops(setup: seq<SetupSecretStore>, k: nat, interactive: bool,
                                             stdin: seq<PromptRead>)
    requires k <= |setup|
    requires ConfigureRun(setup[..k], interactive, stdin).err.Some?
    ensures ConfigureRun(setup, interactive, stdin) == ConfigureRun(setup[..k], interactive, stdin)
    decreases |setup|
  {
    if k < |setup| {
      assert setup[..|setup| - 1][..k] == setup[..k];
      ConfigureRunStops(setup[..|setup| - 1], k, interactive, stdin);
    } else {
      assert setup[..k] == setup;
    }
  }

  lemma {:induction false} CreateEntriesStops(items: seq<SecretStoreItem>, k: nat, storeId: string,
                                              replies: seq<Reply>, from: Created)
    requires k <= |items|
    requires CreateEntries(items[..k], storeId, replies, from).err.Some?
    ensures CreateEntries(items, storeId, replies, from) == CreateEntries(items[..k], storeId, replies, from)
    decreases |items|
  {
    if k < |items| {
      assert items[..|items| - 1][..k] == items[..k];
      CreateEntriesStops(items[..|items| - 1], k, storeId, replies, from);
    } else {
      assert items[..k] == items;
    }
  }

  lemma {:induction false} CreateRunStops(required: seq<SecretStore>, k: nat, serviceId: string,
                                          serviceVersion: int, replies: seq<Reply>)
    requires k <= |required|
    requires CreateRun(required[..k], serviceId, serviceVersion, replies).err.Some?
    ensures CreateRun(required, serviceId, serviceVersion, replies)
         == CreateRun(required[..k], serviceId, serviceVersion, replies)
    decreases |required|
  {
    if k < |required| {
      assert required[..|required| - 1][..k] == required[..k];
      CreateRunStops(required[..|required| - 1], k, serviceId, serviceVersion, replies);
    } else {
      assert required[..k] == required;
    }
  }

  /** One more accepted entry extends a successful resolution. */
  lemma ResolveItemsStep(items: seq<SetupSecretStoreItem>, j: nat, interactive: bool, stdin: seq<PromptRead>,
                         start: nat, resolved: seq<SecretStoreItem>, next: nat)
    requires j < |items|
    requires ResolveItems(items[..j], interactive, stdin, start) == Resolved(None, resolved, next)
    requires Accepted(Answer(interactive, stdin, next))
    ensures ResolveItems(items[..j + 1], interactive, stdin, start)
         == Resolved(None, resolved + [SecretStoreItem(items[j].key, Answer(interactive, stdin, next).text)], next + 1)
  {
    assert items[..j + 1][..j] == items[..j];
  }

  /** The run over one store's entries when the `j`-th is the first one not accepted. */
  lemma ResolveItemsFailsAt(items: seq<SetupSecretStoreItem>, j: nat, interactive: bool, stdin: seq<PromptRead>,
                            start: nat, resolved: seq<SecretStoreItem>, next: nat)
    requires j < |items|
    requires ResolveItems(items[..j], interactive, stdin, start) == Resolved(None, resolved, next)
    requires !Accepted(Answer(interactive, stdin, next))
    ensures ResolveItems(items, interactive, stdin, start)
         == Resolved(Some(Rejection(Answer(interactive, stdin, next))), resolved, next + 1)
  {
    assert items[..j + 1][..j] == items[..j];
    ResolveItemsStops(items, j + 1, interactive, stdin, start);
  }

  /**
   * The run of Configure once the `i`-th store has been resolved: it ends
   * there if the store failed, and goes on with the store added otherwise.
   */
  lemma ConfigureStoreResolved(setup: seq<SetupSecretStore>, i: nat, interactive: bool, stdin: seq<PromptRead>)
    requires i < |setup|
    requires ConfigureRun(setup[..i], interactive, stdin).err.None?
    ensures var prev := ConfigureRun(setup[..i], interactive, stdin);
      var r := ResolveItems(setup[i].items, interactive, stdin, prev.next);
      && (r.err.Some? ==> ConfigureRun(setup, interactive, stdin) == Configured(r.err, prev.stores, r.next))
      && (r.err.None? ==> ConfigureRun(setup[..i + 1], interactive, stdin)
                          == Configured(None, prev.stores + [SecretStore(setup[i].name, r.items)], r.next))
  {
    assert setup[..i + 1][..i] == setup[..i];
    var prev := ConfigureRun(setup[..i], interactive, stdin);
    if ResolveItems(setup[i].items, interactive, stdin, prev.next).err.Some? {
      ConfigureRunStops(setup, i + 1, interactive, stdin);
    }
  }

  lemma LogStep(log: seq<Event>, n: Notice, c: Call)
    ensures CallsIn(log + [Say(n), Issue(c)]) == CallsIn(log) + [c]
    ensures NoticesIn(log + [Say(n), Issue(c)]) == NoticesIn(log) + [n]
  {
    assert (log + [Say(n), Issue(c)])[..|log| + 1] == log + [Say(n)];
    assert (log + [Say(n)])[..|log|] == log;
  }

  lemma LogFail(log: seq<Event>)
    ensures CallsIn(log + [Say(Fail)]) == CallsIn(log)
    ensures NoticesIn(log + [Say(Fail)]) == NoticesIn(log) + [Fail]
  {
    assert (log + [Say(Fail)])[..|log|] == log;
  }

  /** One more entry the API creates extends a successful run of CreateEntries. */
  lemma CreateEntriesStep(items: seq<SecretStoreItem>, j: nat, storeId: string, replies: seq<Reply>,
                          from: Created, log: seq<Event>, next: nat)
    requires j < |items|
    requires CreateEntries(items[..j], storeId, replies, from) == Created(None, log, next)
    requires ReplyAt(replies, next).Granted?
    ensures CreateEntries(items[..j + 1], storeId, replies, from)
         == Created(None,
                    log + [Say(Step(EntryStep(items[j].name))), Issue(CreateSecret(storeId, items[j].name, items[j].secret))],
                    next + 1)
  {
    assert items[..j + 1][..j] == items[..j];
  }

  /** The run of CreateOne once the store was created (as `store`) and all its entries were. */
  lemma CreateOneLinks(s: SecretStore, serviceId: string, serviceVersion: int, replies: seq<Reply>, from: Created,
                       log: seq<Event>, next: nat)
    requires ReplyAt(replies, from.next).Granted?
    requires CreateEntries(s.items, ReplyAt(replies, from.next).id, replies,
                           Created(None, from.log + [Say(Step(StoreStep(s.name))), Issue(CreateSecretStore(s.name))],
                                   from.next + 1))
          == Created(None, log, next)
    ensures var store := ReplyAt(replies, from.next);
      var linked := log + [Say(Step(LinkStep(s.name))),
                           Issue(CreateResource(serviceId, serviceVersion, store.name, store.id))];
      var link := ReplyAt(replies, next);
      CreateOne(s, serviceId, serviceVersion, replies, from)
        == if link.Refused? then Created(Some(ResourceLink(serviceId, store.name, link.cause)), linked + [Say(Fail)], next + 1)
           else Created(None, linked, next + 1)
  {
  }

  /** The run of CreateEntries when the `j`-th entry is the first one the API refuses. */
  lemma CreateEntriesFailsAt(items: seq<SecretStoreItem>, j: nat, storeId: string, replies: seq<Reply>,
                             from: Created, log: seq<Event>, next: nat)
    requires j < |items|
    requires CreateEntries(items[..j], storeId, replies, from) == Created(None, log, next)
    requires ReplyAt(replies, next).Refused?
    ensures CreateEntries(items, storeId, replies, from)
         == Created(Some(EntryCreation(ReplyAt(replies, next).cause)),
                    log + [Say(Step(EntryStep(items[j].name))), Issue(CreateSecret(storeId, items[j].name, items[j].secret))]
                      + [Say(Fail)],
                    next + 1)
  {
    assert items[..j + 1][..j] == items[..j];
    CreateEntriesStops(items, j + 1, storeId, replies, from);
  }

  // ---------------------------------------------------------------------
  // The provisioner

  /**
   * The secret-store provisioner. The public fields are set by its caller;
   * `required` is private state that Configure fills and Create consumes.
   */
  class SecretStores {
    var apiClient: Client
    var acceptDefaults: bool
    var nonInteractive: bool
    var progress: Progress?
    var serviceId: string
    var serviceVersion: int
    var setup: seq<SetupSecretStore>
    var stdin: Stdin

    var required: seq<SecretStore>

    constructor (apiClient: Client, acceptDefaults: bool, nonInteractive: bool, progress: Progress?,
                 serviceId: string, serviceVersion: int, setup: seq<SetupSecretStore>, stdin: Stdin)
      ensures this.apiClient == apiClient && this.acceptDefaults == acceptDefaults
      ensures this.nonInteractive == nonInteractive && this.progress == progress
      ensures this.serviceId == serviceId && this.serviceVersion == serviceVersion
      ensures this.setup == setup && this.stdin == stdin
      ensures required == []
    {
      this.apiClient := apiClient;
      this.acceptDefaults := acceptDefaults;
      this.nonInteractive := nonInteractive;
      this.progress := progress;
      this.serviceId := serviceId;
      this.serviceVersion := serviceVersion;
      this.setup := setup;
      this.stdin := stdin;
      required := [];
    }

    /** Whether the manifest declares any secret store; it looks at nothing else. */
    function Predefined(): bool
      reads this`setup
    {
      |setup| > 0
    }

    /** Whether Configure prompts the operator. */
    function Interactive(): bool
      reads this`acceptDefaults, this`nonInteractive
    {
      !acceptDefaults && !nonInteractive
    }

    /**
     * Resolves every declared entry (prompting only in interactive mode) and
     * appends each completed store to `required`, which it never clears.
     */
    method Configure() returns (err: Option<SetupError>)
      modifies this`required, stdin
      ensures var r := ConfigureRun(setup, Interactive(), old(stdin.pending));
        && err == r.err
        && required == old(required) + r.stores
        && stdin.pending == Drop(old(stdin.pending), if Interactive() then r.next else 0)
    {
      var interactive := !acceptDefaults && !nonInteractive;
      ghost var input := stdin.pending;
      ghost var stores: seq<SecretStore> := [];
      ghost var next: nat := 0;
      var i := 0;
      while i < |setup|
        invariant 0 <= i <= |setup|
        invariant ConfigureRun(setup[..i], interactive, input) == Configured(None, stores, next)
        invariant required == old(required) + stores
        invariant stdin.pending == Drop(input, if interactive then next else 0)
      {
        var settings := setup[i];
        var err, items;
        ghost var after: nat;
        err, items, after := ResolveEntries(settings, interactive, input, next);
        ConfigureStoreResolved(setup, i, interactive, input);
        if err.Some? {
          return err;
        }
        required := required + [SecretStore(settings.name, items)];
        stores := stores + [SecretStore(settings.name, items)];
        next := after;
        i := i + 1;
      }
      assert setup[..i] == setup;
      return None;
    }

    /**
     * The inner loop of Configure: resolves the entries of `settings` in
     * order, prompting only in interactive mode, with the answers from
     * position `next` of the operator's input `input` on.
     */
    method ResolveEntries(settings: SetupSecretStore, interactive: bool, ghost input: seq<PromptRead>, ghost next: nat)
      returns (err: Option<SetupError>, items: seq<SecretStoreItem>, ghost next': nat)
      requires stdin.pending == Drop(input, if interactive then next else 0)
      modifies stdin
      ensures ResolveItems(settings.items, interactive, input, next) == Resolved(err, items, next')
      ensures stdin.pending == Drop(input, if interactive then next' else 0)
    {
      items := [];
      next' := next;
      var j := 0;
      while j < |settings.items|
        invariant 0 <= j <= |settings.items|
        invariant ResolveItems(settings.items[..j], interactive, input, next) == Resolved(None, items, next')
        invariant stdin.pending == Drop(input, if interactive then next' else 0)
      {
        var item := settings.items[j];
        var value := "";
        if interactive {
          var read := stdin.InputSecure();
          assert read == Answer(interactive, input, next') && stdin.pending == Drop(input, next' + 1) by {
            ReadAtDrop(input, next');
            DropDrop(input, next', 1);
          }
          if read.ReadError? {
            ResolveItemsFailsAt(settings.items, j, interactive, input, next, items, next');
            return Some(PromptInput(read.cause)), items, next' + 1;
          }
          value := read.text;
        }
        assert value == Value(Answer(interactive, input, next'));
        if value == "" {
          ResolveItemsFailsAt(settings.items, j, interactive, input, next, items, next');
          return Some(BlankValue), items, next' + 1;
        }
        ResolveItemsStep(settings.items, j, interactive, input, next, items, next');
        items := items + [SecretStoreItem(item.key, value)];
        j := j + 1;
        next' := next' + 1;
      }
      assert settings.items[..j] == settings.items;
      return None, items, next';
    }

    /**
     * What Create has done so far, as seen through the shared journal: the
     * progress sink and the API client report into one journal, which holds
     * the effects `before` Create began followed by those of the record
     * `log`; and `next` replies of the script `replies` are used up.
     */
    ghost predicate Tracks(replies: seq<Reply>, before: seq<Event>, log: seq<Event>, next: nat)
      reads this, apiClient, progress, apiClient.journal
    {
      && progress != null
      && progress.journal == apiClient.journal
      && apiClient.replies == Drop(replies, next)
      && apiClient.journal.events == before + log
    }

    /**
     * Creates every store of `required` in order: the store, its entries
     * against the returned ID, then its link to the service version. Each
     * call is preceded by a progress step; the first refusal is reported as
     * a failed step and ends the run, with nothing undone. The journal
     * gains exactly the effects of the run, in the order they happen.
     */
    method Create() returns (err: Option<SetupError>)
      requires progress != null ==> progress.journal == apiClient.journal
      modifies apiClient, apiClient.journal
      ensures progress == null ==> err == Some(Bug) && unchanged(apiClient, apiClient.journal)
      ensures progress != null ==>
        var r := CreateRun(required, serviceId, serviceVersion, old(apiClient.replies));
        && err == r.err
        && apiClient.journal.events == old(apiClient.journal.events) + r.log
        && apiClient.replies == Drop(old(apiClient.replies), r.next)
    {
      if progress == null {
        return Some(Bug);
      }
      ghost var replies := apiClient.replies;
      ghost var before := apiClient.journal.events;
      ghost var log := [];
      ghost var next: nat := 0;
      var i := 0;
      while i < |required|
        invariant 0 <= i <= |required|
        invariant CreateRun(required[..i], serviceId, serviceVersion, replies) == Created(None, log, next)
        invariant Tracks(replies, before, log, next)
      {
        assert required[..i + 1][..i] == required[..i];
        err, log, next := CreateStore(required[i], replies, before, log, next);
        if err.Some? {
          assert CreateRun(required, serviceId, serviceVersion, replies) == Created(err, log, next) by {
            CreateRunStops(required, i + 1, serviceId, serviceVersion, replies);
          }
          return err;
        }
        i := i + 1;
      }
      assert required[..i] == required;
      return None;
    }

    /**
     * One turn of Create's loop: creates the store `secretStore`, its
     * entries against the returned ID, and its link to the service version,
     * after the run recorded in `log`, which issued `next` calls.
     */
    method CreateStore(secretStore: SecretStore, ghost replies: seq<Reply>, ghost before: seq<Event>,
                       ghost log: seq<Event>, ghost next: nat)
      returns (err: Option<SetupError>, ghost log': seq<Event>, ghost next': nat)
      requires Tracks(replies, before, log, next)
      modifies apiClient, apiClient.journal
      ensures Created(err, log', next')
           == CreateOne(secretStore, serviceId, serviceVersion, replies, Created(None, log, next))
      ensures Tracks(replies, before, log', next')
    {
      ghost var from := Created(None, log, next);
      var store;
      ghost var stepped;
      store, stepped := StepAndCall(StoreStep(secretStore.name), CreateSecretStore(secretStore.name),
                                    replies, before, log, next);
      if store.Refused? {
        ghost var failed := ReportFailure(replies, before, stepped, next + 1);
        assert CreateOne(secretStore, serviceId, serviceVersion, replies, from)
            == Created(Some(StoreCreation(store.cause)), failed, next + 1);
        return Some(StoreCreation(store.cause)), failed, next + 1;
      }

      err, log', next' := CreateSecrets(secretStore.items, store.id, replies, before, stepped, next + 1);
      if err.Some? {
        assert CreateOne(secretStore, serviceId, serviceVersion, replies, from) == Created(err, log', next');
        return;
      }

      ghost var entered, linked := log', next';
      var link;
      link, log' := StepAndCall(LinkStep(secretStore.name), CreateResource(serviceId, serviceVersion, store.name, store.id),
                                replies, before, entered, linked);
      next' := linked + 1;
      if link.Refused? {
        log' := ReportFailure(replies, before, log', next');
        err := Some(ResourceLink(serviceId, store.name, link.cause));
      }
      assert CreateOne(secretStore, serviceId, serviceVersion, replies, from) == Created(err, log', next') by {
        CreateOneLinks(secretStore, serviceId, serviceVersion, replies, from, entered, linked);
      }
    }

    /**
     * The inner loop of Create: one step and one CreateSecret call per
     * entry of `items`, against the created store `storeId`, after the run
     * recorded in `log`, which issued `next` calls.
     */
    method CreateSecrets(items: seq<SecretStoreItem>, storeId: string, ghost replies: seq<Reply>,
                         ghost before: seq<Event>, ghost log: seq<Event>, ghost next: nat)
      returns (err: Option<SetupError>, ghost log': seq<Event>, ghost next': nat)
      requires Tracks(replies, before, log, next)
      modifies apiClient, apiClient.journal
      ensures Created(err, log', next') == CreateEntries(items, storeId, replies, Created(None, log, next))
      ensures Tracks(replies, before, log', next')
    {
      ghost var from := Created(None, log, next);
      log', next' := log, next;
      var j := 0;
      while j < |items|
        invariant 0 <= j <= |items|
        invariant CreateEntries(items[..j], storeId, replies, from) == Created(None, log', next')
        invariant Tracks(replies, before, log', next')
      {
        var item := items[j];
        var secret;
        ghost var entered;
        secret, entered := StepAndCall(EntryStep(item.name), CreateSecret(storeId, item.name, item.secret),
                                       replies, before, log', next');
        if secret.Refused? {
          ghost var failed := ReportFailure(replies, before, entered, next' + 1);
          assert CreateEntries(items, storeId, replies, from) == Created(Some(EntryCreation(secret.cause)), failed, next' + 1) by {
            CreateEntriesFailsAt(items, j, storeId, replies, from, log', next');
          }
          return Some(EntryCreation(secret.cause)), failed, next' + 1;
        }
        assert CreateEntries(items[..j + 1], storeId, replies, from) == Created(None, entered, next' + 1) by {
          CreateEntriesStep(items, j, storeId, replies, from, log', next');
        }
        log', next' := entered, next' + 1;
        j := j + 1;
      }
      assert items[..j] == items;
      return None, log', next';
    }

    /**
     * The step that precedes every API call of Create: the journal gains a
     * progress step announcing `message` and then the call `c`, whose reply
     * is the one scripted after the `next` calls of the run recorded in `log`.
     */
    method StepAndCall(message: string, c: Call, ghost replies: seq<Reply>, ghost before: seq<Event>,
                       ghost log: seq<Event>, ghost next: nat)
      returns (reply: Reply, ghost log': seq<Event>)
      requires Tracks(replies, before, log, next)
      modifies apiClient, apiClient.journal
      ensures reply == ReplyAt(replies, next)
      ensures log' == log + [Say(Step(message)), Issue(c)]
      ensures Tracks(replies, before, log', next + 1)
    {
      progress.Step(message);
      match c {
        case CreateSecretStore(name) =>
          reply := apiClient.CreateSecretStore(name);
        case CreateSecret(storeId, name, secret) =>
          reply := apiClient.CreateSecret(storeId, name, secret);
        case CreateResource(serviceId, serviceVersion, name, resourceId) =>
          reply := apiClient.CreateResource(serviceId, serviceVersion, name, resourceId);
      }
      log' := log + [Say(Step(message)), Issue(c)];
      assert reply == ReplyAt(replies, next) && apiClient.replies == Drop(replies, next + 1) by {
        ReplyAtDrop(replies, next);
        DropDrop(replies, next, 1);
      }
    }

    /** Marks the current progress step as failed, after the run recorded in `log`. */
    method ReportFailure(ghost replies: seq<Reply>, ghost before: seq<Event>, ghost log: seq<Event>, ghost next: nat)
      returns (ghost log': seq<Event>)
      requires Tracks(replies, before, log, next)
      modifies apiClient.journal
      ensures log' == log + [Say(Fail)]
      ensures Tracks(replies, before, log', next)
    {
      progress.Fail();
      log' := log + [Say(Fail)];
    }
  }
}
