// What Create promises, proved about its specification CreateRun.
//
// When every call succeeds, Create works through a fixed script: for each
// store, a step and the store's creation, a step and the creation of each
// entry against the store's returned ID, and a step and the link of the
// returned store to the service version. `Plan` writes that script down
// independently of Create. The main theorem, `CreateFollowsPlan`, says that
// a run of Create is a prefix of the plan: either the whole of it, or the
// plan up to the first refused call, followed by one failed step and the
// error that call calls for.
module CreateProperties {
  import opened Common
  import opened Text
  import opened Api
  import opened Effects
  import opened Setup

  /** The number of calls creating `required` takes when every call succeeds. */
  function TotalCalls(required: seq<SecretStore>): nat
    decreases |required|
  {
    if required == [] then 0
    else TotalCalls(required[..|required| - 1]) + |required[|required| - 1].items| + 2
  }

  /** The ID a reply carries; a refused reply carries none. */
  function IdOf(r: Reply): string {
    if r.Granted? then r.id else ""
  }

  /** The name a reply carries; a refused reply carries none. */
  function NameOf(r: Reply): string {
    if r.Granted? then r.name else ""
  }

  /** The error Create reports when the API refuses the call `c` with `cause`. */
  function FailureOf(c: Call, cause: string): (e: SetupError)
    ensures c.CreateSecretStore? <==> e == StoreCreation(cause)
    ensures c.CreateSecret? <==> e == EntryCreation(cause)
    ensures c.CreateResource? ==> e == ResourceLink(c.serviceId, c.name, cause)
  {
    match c
    case CreateSecretStore(_) => StoreCreation(cause)
    case CreateSecret(_, _, _) => EntryCreation(cause)
    case CreateResource(serviceId, _, name, _) => ResourceLink(serviceId, name, cause)
  }

  /**
   * The script for the entries of a store `storeId`: for the `j`-th entry,
   * a step at position 2j and its CreateSecret call at position 2j+1.
   */
  function EntryPlan(items: seq<SecretStoreItem>, storeId: string): (p: seq<Event>)
    ensures |p| == 2 * |items|
  {
    seq(2 * |items|, k requires 0 <= k < 2 * |items| =>
      if k % 2 == 0 then Say(Step(EntryStep(items[k / 2].name)))
      else Issue(CreateSecret(storeId, items[k / 2].name, items[k / 2].secret)))
  }

  /** The script for one store `s`, once the API has answered its creation with `store`. */
  function StorePlan(s: SecretStore, serviceId: string, serviceVersion: int, store: Reply): (p: seq<Event>)
    ensures |p| == 2 * (|s.items| + 2)
  {
    [Say(Step(StoreStep(s.name))), Issue(CreateSecretStore(s.name))]
    + EntryPlan(s.items, IdOf(store))
    + [Say(Step(LinkStep(s.name))), Issue(CreateResource(serviceId, serviceVersion, NameOf(store), IdOf(store)))]
  }

  /**
   * The script for all of `required`: each store's script in order, the
   * `i`-th using the reply to the call that creates it.
   */
  function Plan(required: seq<SecretStore>, serviceId: string, serviceVersion: int, replies: seq<Reply>)
    : (p: seq<Event>)
    ensures |p| == 2 * TotalCalls(required)
    decreases |required|
  {
    if required == [] then []
    else
      var init := required[..|required| - 1];
      Plan(init, serviceId, serviceVersion, replies)
      + StorePlan(required[|required| - 1], serviceId, serviceVersion, ReplyAt(replies, TotalCalls(init)))
  }

  /**
   * `r` ran the script `plan` from call `n` on, after the record `before`:
   * it did a prefix of the plan, and either all of it with every reply
   * granted, or stopped at the first refused reply, reporting one failed
   * step and the error for the call that was refused.
   */
  ghost predicate RanAlong(plan: seq<Event>, replies: seq<Reply>, n: nat, before: seq<Event>, r: Created) {
    && n <= r.next
    && 2 * (r.next - n) <= |plan|
    && r.log == before + plan[..2 * (r.next - n)] + (if r.err.Some? then [Say(Fail)] else [])
    && (forall t :: n <= t < r.next && (r.err.None? || t + 1 < r.next) ==> ReplyAt(replies, t).Granted?)
    && (r.err.None? ==> 2 * (r.next - n) == |plan|)
    && (r.err.Some? ==>
          && n < r.next
          && plan[2 * (r.next - n) - 1].Issue?
          && ReplyAt(replies, r.next - 1).Refused?
          && r.err == Some(FailureOf(plan[2 * (r.next - n) - 1].call, ReplyAt(replies, r.next - 1).cause)))
  }

  /** The outcome of announcing `message` and issuing `c` as call `n`, after the record `before`. */
  function StepOutcome(message: string, c: Call, replies: seq<Reply>, n: nat, before: seq<Event>): Created {
    var log := before + [Say(Step(message)), Issue(c)];
    var reply := ReplyAt(replies, n);
    if reply.Refused? then Created(Some(FailureOf(c, reply.cause)), log + [Say(Fail)], n + 1)
    else Created(None, log, n + 1)
  }

  lemma RanAlongStep(message: string, c: Call, replies: seq<Reply>, n: nat, before: seq<Event>)
    ensures RanAlong([Say(Step(message)), Issue(c)], replies, n, before, StepOutcome(message, c, replies, n, before))
  {
    var p := [Say(Step(message)), Issue(c)];
    assert p[..2] == p;
  }

  /** A run that stopped inside `plan` also ran along any longer plan. */
  lemma RanAlongStop(plan: seq<Event>, more: seq<Event>, replies: seq<Reply>, n: nat, before: seq<Event>, r: Created)
    requires RanAlong(plan, replies, n, before, r) && r.err.Some?
    ensures RanAlong(plan + more, replies, n, before, r)
  {
    var k := 2 * (r.next - n);
    assert (plan + more)[..k] == plan[..k];
    assert (plan + more)[k - 1] == plan[k - 1];
  }

  /** A run that completed `p1` and then ran along `p2` ran along `p1 + p2`. */
  lemma RanAlongSeq(p1: seq<Event>, p2: seq<Event>, replies: seq<Reply>, n: nat, before: seq<Event>,
                    r1: Created, r2: Created)
    requires RanAlong(p1, replies, n, before, r1) && r1.err.None?
    requires RanAlong(p2, replies, r1.next, r1.log, r2)
    ensures RanAlong(p1 + p2, replies, n, before, r2)
  {
    var k := 2 * (r2.next - r1.next);
    assert p1[..|p1|] == p1;
    assert (p1 + p2)[..|p1| + k] == p1 + p2[..k];
    assert 2 * (r2.next - n) == |p1| + k;
    if r2.err.Some? {
      assert (p1 + p2)[|p1| + k - 1] == p2[k - 1];
    }
  }

  lemma EntryPlanLast(items: seq<SecretStoreItem>, storeId: string)
    requires items != []
    ensures var item := items[|items| - 1];
      EntryPlan(items, storeId)
        == EntryPlan(items[..|items| - 1], storeId)
           + [Say(Step(EntryStep(item.name))), Issue(CreateSecret(storeId, item.name, item.secret))]
  {
    var item := items[|items| - 1];
    var init := items[..|items| - 1];
    var rhs := EntryPlan(init, storeId) + [Say(Step(EntryStep(item.name))), Issue(CreateSecret(storeId, item.name, item.secret))];
    forall k | 0 <= k < 2 * |items|
      ensures EntryPlan(items, storeId)[k] == rhs[k]
    {
      if k < 2 * |init| {
        assert items[k / 2] == init[k / 2];
      }
    }
  }

  /** CreateEntries runs along the entries' script. */
  lemma {:induction false} CreateEntriesRuns(items: seq<SecretStoreItem>, storeId: string, replies: seq<Reply>,
                                             from: Created)
    requires from.err.None?
    ensures RanAlong(EntryPlan(items, storeId), replies, from.next, from.log,
                     CreateEntries(items, storeId, replies, from))
    decreases |items|
  {
    if items == [] {
      assert from.log + [] == from.log;
      return;
    }
    var init := items[..|items| - 1];
    var item := items[|items| - 1];
    var prev := CreateEntries(init, storeId, replies, from);
    var pair := [Say(Step(EntryStep(item.name))), Issue(CreateSecret(storeId, item.name, item.secret))];
    CreateEntriesRuns(init, storeId, replies, from);
    EntryPlanLast(items, storeId);
    if prev.err.Some? {
      RanAlongStop(EntryPlan(init, storeId), pair, replies, from.next, from.log, prev);
    } else {
      RanAlongStep(EntryStep(item.name), CreateSecret(storeId, item.name, item.secret), replies, prev.next, prev.log);
      RanAlongSeq(EntryPlan(init, storeId), pair, replies, from.next, from.log, prev,
                  CreateEntries(items, storeId, replies, from));
    }
  }

  /** CreateOne runs along the store's script. */
  lemma CreateOneRuns(s: SecretStore, serviceId: string, serviceVersion: int, replies: seq<Reply>, from: Created)
    requires from.err.None?
    ensures RanAlong(StorePlan(s, serviceId, serviceVersion, ReplyAt(replies, from.next)), replies, from.next,
                     from.log, CreateOne(s, serviceId, serviceVersion, replies, from))
  {
    var store := ReplyAt(replies, from.next);
    if store.Refused? {
      var head := [Say(Step(StoreStep(s.name))), Issue(CreateSecretStore(s.name))];
      var rest := EntryPlan(s.items, IdOf(store))
        + [Say(Step(LinkStep(s.name))), Issue(CreateResource(serviceId, serviceVersion, NameOf(store), IdOf(store)))];
      var first := StepOutcome(StoreStep(s.name), CreateSecretStore(s.name), replies, from.next, from.log);
      assert CreateOne(s, serviceId, serviceVersion, replies, from) == first;
      assert StorePlan(s, serviceId, serviceVersion, store) == head + rest;
      RanAlongStep(StoreStep(s.name), CreateSecretStore(s.name), replies, from.next, from.log);
      RanAlongStop(head, rest, replies, from.next, from.log, first);
    } else {
      CreateOneGranted(s, serviceId, serviceVersion, replies, from);
    }
  }

  /** CreateOne runs along the store's script, once the store itself was created. */
  lemma CreateOneGranted(s: SecretStore, serviceId: string, serviceVersion: int, replies: seq<Reply>, from: Created)
    requires from.err.None? && ReplyAt(replies, from.next).Granted?
    ensures RanAlong(StorePlan(s, serviceId, serviceVersion, ReplyAt(replies, from.next)), replies, from.next,
                     from.log, CreateOne(s, serviceId, serviceVersion, replies, from))
  {
    var store := ReplyAt(replies, from.next);
    var head := [Say(Step(StoreStep(s.name))), Issue(CreateSecretStore(s.name))];
    var entries := EntryPlan(s.items, store.id);
    var tail := [Say(Step(LinkStep(s.name))), Issue(CreateResource(serviceId, serviceVersion, store.name, store.id))];
    var mid := Created(None, from.log + head, from.next + 1);
    var e := CreateEntries(s.items, store.id, replies, mid);
    assert StorePlan(s, serviceId, serviceVersion, store) == head + entries + tail;
    assert RanAlong(head + entries, replies, from.next, from.log, e) by {
      RanAlongStep(StoreStep(s.name), CreateSecretStore(s.name), replies, from.next, from.log);
      CreateEntriesRuns(s.items, store.id, replies, mid);
      RanAlongSeq(head, entries, replies, from.next, from.log, mid, e);
    }
    if e.err.Some? {
      assert CreateOne(s, serviceId, serviceVersion, replies, from) == e;
      RanAlongStop(head + entries, tail, replies, from.next, from.log, e);
    } else {
      var last := StepOutcome(LinkStep(s.name), CreateResource(serviceId, serviceVersion, store.name, store.id),
                              replies, e.next, e.log);
      assert CreateOne(s, serviceId, serviceVersion, replies, from) == last;
      RanAlongStep(LinkStep(s.name), CreateResource(serviceId, serviceVersion, store.name, store.id), replies, e.next, e.log);
      RanAlongSeq(head + entries, tail, replies, from.next, from.log, e, last);
    }
  }

  /**
   * Create works through its plan in order and stops at the first refused
   * call: no call after it is issued, nothing before it is undone, and the
   * failure is reported exactly once, as the last thing Create does.
   */
  lemma {:induction false} CreateFollowsPlan(required: seq<SecretStore>, serviceId: string, serviceVersion: int,
                                             replies: seq<Reply>)
    ensures RanAlong(Plan(required, serviceId, serviceVersion, replies), replies, 0, [],
                     CreateRun(required, serviceId, serviceVersion, replies))
    decreases |required|
  {
    if required == [] {
      return;
    }
    var init := required[..|required| - 1];
    var last := required[|required| - 1];
    var prev := CreateRun(init, serviceId, serviceVersion, replies);
    var rest := StorePlan(last, serviceId, serviceVersion, ReplyAt(replies, TotalCalls(init)));
    CreateFollowsPlan(init, serviceId, serviceVersion, replies);
    if prev.err.Some? {
      RanAlongStop(Plan(init, serviceId, serviceVersion, replies), rest, replies, 0, [], prev);
    } else {
      CreateOneRuns(last, serviceId, serviceVersion, replies, prev);
      RanAlongSeq(Plan(init, serviceId, serviceVersion, replies), rest, replies, 0, [], prev,
                  CreateRun(required, serviceId, serviceVersion, replies));
    }
  }

  /** Create succeeds exactly when the API grants every call of the plan. */
  lemma CreateSucceedsIff(required: seq<SecretStore>, serviceId: string, serviceVersion: int, replies: seq<Reply>)
    ensures CreateRun(required, serviceId, serviceVersion, replies).err.None?
        <==> forall t :: 0 <= t < TotalCalls(required) ==> ReplyAt(replies, t).Granted?
  {
    var r := CreateRun(required, serviceId, serviceVersion, replies);
    CreateFollowsPlan(required, serviceId, serviceVersion, replies);
    if r.err.Some? {
      assert !ReplyAt(replies, r.next - 1).Granted?;
    }
  }

  /**
   * The plan alternates a progress step with the call it announces: every
   * even position is a step, every odd one a call.
   */
  ghost predicate Alternates(p: seq<Event>) {
    && |p| % 2 == 0
    && forall k :: 0 <= k < |p| ==> (p[k].Say? <==> k % 2 == 0) && (p[k].Say? ==> p[k].notice.Step?)
  }

  /**
   * The ordering within one store's script: steps and calls alternate; the
   * store's creation comes first, then the entries in order against the
   * returned store ID, then the link of the returned store.
   */
  lemma StorePlanOrder(s: SecretStore, serviceId: string, serviceVersion: int, store: Reply)
    ensures var p := StorePlan(s, serviceId, serviceVersion, store);
      var n := |s.items|;
      && |p| == 2 * n + 4
      && p[1] == Issue(CreateSecretStore(s.name))
      && (forall j :: 0 <= j < n ==> p[2 * j + 3] == Issue(CreateSecret(IdOf(store), s.items[j].name, s.items[j].secret)))
      && p[2 * n + 3] == Issue(CreateResource(serviceId, serviceVersion, NameOf(store), IdOf(store)))
      && Alternates(p)
  {
    StorePlanAlternates(s, serviceId, serviceVersion, store);
    var head := [Say(Step(StoreStep(s.name))), Issue(CreateSecretStore(s.name))];
    var entries := EntryPlan(s.items, IdOf(store));
    var tail := [Say(Step(LinkStep(s.name))), Issue(CreateResource(serviceId, serviceVersion, NameOf(store), IdOf(store)))];
    var p := head + entries + tail;
    assert StorePlan(s, serviceId, serviceVersion, store) == p;
    forall j | 0 <= j < |s.items|
      ensures p[2 * j + 3] == Issue(CreateSecret(IdOf(store), s.items[j].name, s.items[j].secret))
    {
      assert p[2 * j + 3] == entries[2 * j + 1];
      assert (2 * j + 1) / 2 == j && (2 * j + 1) % 2 == 1;
    }
  }

  lemma EntryPlanAlternates(items: seq<SecretStoreItem>, storeId: string)
    ensures Alternates(EntryPlan(items, storeId))
  {
  }

  /** Each call of a store's script is announced by a step just before it. */
  lemma StorePlanAlternates(s: SecretStore, serviceId: string, serviceVersion: int, store: Reply)
    ensures Alternates(StorePlan(s, serviceId, serviceVersion, store))
  {
    var head := [Say(Step(StoreStep(s.name))), Issue(CreateSecretStore(s.name))];
    var entries := EntryPlan(s.items, IdOf(store));
    var tail := [Say(Step(LinkStep(s.name))), Issue(CreateResource(serviceId, serviceVersion, NameOf(store), IdOf(store)))];
    EntryPlanAlternates(s.items, IdOf(store));
    assert Alternates(head) && Alternates(tail);
    AlternatesAppend(head, entries);
    AlternatesAppend(head + entries, tail);
  }

  lemma AlternatesAppend(a: seq<Event>, b: seq<Event>)
    requires Alternates(a) && Alternates(b)
    ensures Alternates(a + b)
  {
    forall k | |a| <= k < |a| + |b|
      ensures ((a + b)[k].Say? <==> k % 2 == 0) && ((a + b)[k].Say? ==> (a + b)[k].notice.Step?)
    {
      assert (a + b)[k] == b[k - |a|];
    }
  }

  /** The whole plan alternates steps and calls. */
  lemma {:induction false} PlanAlternates(required: seq<SecretStore>, serviceId: string, serviceVersion: int,
                                          replies: seq<Reply>)
    ensures Alternates(Plan(required, serviceId, serviceVersion, replies))
    decreases |required|
  {
    if required != [] {
      var init := required[..|required| - 1];
      PlanAlternates(init, serviceId, serviceVersion, replies);
      StorePlanAlternates(required[|required| - 1], serviceId, serviceVersion, ReplyAt(replies, TotalCalls(init)));
      AlternatesAppend(Plan(init, serviceId, serviceVersion, replies),
                       StorePlan(required[|required| - 1], serviceId, serviceVersion, ReplyAt(replies, TotalCalls(init))));
    }
  }

  /** The first `k` pairs of an alternating script hold `k` calls and `k` steps, and no failure. */
  lemma {:induction false} AlternatingPrefix(p: seq<Event>, k: nat)
    requires Alternates(p) && 2 * k <= |p|
    ensures |CallsIn(p[..2 * k])| == k
    ensures |NoticesIn(p[..2 * k])| == k
    ensures Fail !in NoticesIn(p[..2 * k])
    decreases k
  {
    if k > 0 {
      AlternatingPrefix(p, k - 1);
      assert p[..2 * k] == p[..2 * (k - 1)] + [Say(p[2 * k - 2].notice), Issue(p[2 * k - 1].call)];
      LogStep(p[..2 * (k - 1)], p[2 * k - 2].notice, p[2 * k - 1].call);
    }
  }

  /**
   * Create consumes one reply per call it issues, announces each call with
   * one step, and reports a failure exactly when it returns an error.
   */
  lemma CreateCallsAndSteps(required: seq<SecretStore>, serviceId: string, serviceVersion: int, replies: seq<Reply>)
    ensures var r := CreateRun(required, serviceId, serviceVersion, replies);
      && |CallsIn(r.log)| == r.next
      && |NoticesIn(r.log)| == r.next + (if r.err.Some? then 1 else 0)
      && (Fail in NoticesIn(r.log) <==> r.err.Some?)
      && Fail !in NoticesIn(r.log)[..r.next]
      && (r.err.Some? ==> NoticesIn(r.log)[r.next] == Fail)
  {
    var r := CreateRun(required, serviceId, serviceVersion, replies);
    var plan := Plan(required, serviceId, serviceVersion, replies);
    assert 2 * r.next <= |plan| && r.log == [] + plan[..2 * r.next] + (if r.err.Some? then [Say(Fail)] else []) by {
      CreateFollowsPlan(required, serviceId, serviceVersion, replies);
    }
    var done := plan[..2 * r.next];
    assert [] + done == done;
    assert |CallsIn(done)| == r.next && |NoticesIn(done)| == r.next && Fail !in NoticesIn(done) by {
      PlanAlternates(required, serviceId, serviceVersion, replies);
      AlternatingPrefix(plan, r.next);
    }
    assert r.log == done + (if r.err.Some? then [Say(Fail)] else []);
    RecordCounts(done, r.next, r.err.Some?);
  }

  /**
   * A record of `n` calls and `n` steps, closed by one failure notice when
   * `failed`: its counts, and where the failure notice sits.
   */
  lemma RecordCounts(done: seq<Event>, n: nat, failed: bool)
    requires |CallsIn(done)| == n && |NoticesIn(done)| == n && Fail !in NoticesIn(done)
    ensures var log := done + (if failed then [Say(Fail)] else []);
      && |CallsIn(log)| == n
      && |NoticesIn(log)| == n + (if failed then 1 else 0)
      && (Fail in NoticesIn(log) <==> failed)
      && Fail !in NoticesIn(log)[..n]
      && (failed ==> NoticesIn(log)[n] == Fail)
  {
    var log := done + (if failed then [Say(Fail)] else []);
    if failed {
      LogFail(done);
    } else {
      assert log == done;
    }
    assert NoticesIn(log)[..n] == NoticesIn(done);
  }


  /**
   * The store `tokens` with the one entry `api-key` = "abc123": when every
   * call succeeds, Create issues exactly three calls, in order: the store,
   * the entry against the returned ID, and the link of the returned store.
   */
  lemma OneEntryScenario(serviceId: string, serviceVersion: int, storeId: string, entryId: string, linkId: string)
    ensures var required := [SecretStore("tokens", [SecretStoreItem("api-key", "abc123")])];
      var replies := [Granted(storeId, "tokens"), Granted(entryId, "api-key"), Granted(linkId, "tokens")];
      var r := CreateRun(required, serviceId, serviceVersion, replies);
      && r.err == None
      && CallsIn(r.log) == [CreateSecretStore("tokens"), CreateSecret(storeId, "api-key", "abc123"),
                            CreateResource(serviceId, serviceVersion, "tokens", storeId)]
  {
    var item := SecretStoreItem("api-key", "abc123");
    var required := [SecretStore("tokens", [item])];
    var replies := [Granted(storeId, "tokens"), Granted(entryId, "api-key"), Granted(linkId, "tokens")];
    var created := [Say(Step(StoreStep("tokens"))), Issue(CreateSecretStore("tokens"))];
    var entered := created + [Say(Step(EntryStep("api-key"))), Issue(CreateSecret(storeId, "api-key", "abc123"))];
    var linked := entered + [Say(Step(LinkStep("tokens"))), Issue(CreateResource(serviceId, serviceVersion, "tokens", storeId))];
    assert required[..0] == [] && [item][..0] == [];
    assert [] + created == created;
    assert CreateEntries([item], storeId, replies, Created(None, created, 1)) == Created(None, entered, 2);
    assert CreateRun(required, serviceId, serviceVersion, replies) == Created(None, linked, 3);
    LogStep([], Step(StoreStep("tokens")), CreateSecretStore("tokens"));
    LogStep(created, Step(EntryStep("api-key")), CreateSecret(storeId, "api-key", "abc123"));
    LogStep(entered, Step(LinkStep("tokens")), CreateResource(serviceId, serviceVersion, "tokens", storeId));
  }

  /**
   * When the API refuses to create the first store, Create reports that
   * error after one failed step and issues no other call.
   */
  lemma FirstStoreRefused(required: seq<SecretStore>, serviceId: string, serviceVersion: int, replies: seq<Reply>)
    requires required != [] && ReplyAt(replies, 0).Refused?
    ensures var r := CreateRun(required, serviceId, serviceVersion, replies);
      && r.err == Some(StoreCreation(ReplyAt(replies, 0).cause))
      && CallsIn(r.log) == [CreateSecretStore(required[0].name)]
      && NoticesIn(r.log) == [Step(StoreStep(required[0].name)), Fail]
  {
    var first := required[..1];
    assert first[..0] == [] && first[0] == required[0];
    assert CreateRun(first[..0], serviceId, serviceVersion, replies) == Created(None, [], 0);
    var r := CreateRun(first, serviceId, serviceVersion, replies);
    var log := [Say(Step(StoreStep(required[0].name))), Issue(CreateSecretStore(required[0].name))];
    assert [] + log == log;
    assert r == Created(Some(StoreCreation(ReplyAt(replies, 0).cause)), log + [Say(Fail)], 1);
    CreateRunStops(required, 1, serviceId, serviceVersion, replies);
    LogStep([], Step(StoreStep(required[0].name)), CreateSecretStore(required[0].name));
    assert [] + log == log;
    LogFail(log);
  }
}
