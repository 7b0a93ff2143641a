// What Configure promises, proved about its specification ConfigureRun:
// which entries it accepts, what it stores for them, where it stops, and
// that outside interactive mode it never reads the prompt.
//
// Entries are numbered over all stores in iteration order: the entries of
// store `i` take the positions from Offset(setup, i) on.
module ConfigureProperties {
  import opened Common
  import opened Manifest
  import opened Text
  import opened Setup

  /** The number of entries declared by the first `i` stores. */
  function Offset(setup: seq<SetupSecretStore>, i: nat): nat
    requires i <= |setup|
    decreases i
  {
    if i == 0 then 0 else Offset(setup, i - 1) + |setup[i - 1].items|
  }

  /** The number of entries declared over all of `setup`. */
  function ItemCount(setup: seq<SetupSecretStore>): nat {
    Offset(setup, |setup|)
  }

  /** The answers for the first `n` entries would all be kept. */
  ghost predicate AllAccepted(interactive: bool, stdin: seq<PromptRead>, n: nat) {
    forall t :: 0 <= t < n ==> Accepted(Answer(interactive, stdin, t))
  }

  /**
   * The store Configure builds for the declaration `st` when its entries
   * take the answers from position `start` on: every entry under its own
   * key, with the answer as its secret.
   */
  function Expected(st: SetupSecretStore, start: nat, interactive: bool, stdin: seq<PromptRead>): SecretStore {
    SecretStore(st.name, seq(|st.items|, j requires 0 <= j < |st.items| =>
      SecretStoreItem(st.items[j].key, Value(Answer(interactive, stdin, start + j)))))
  }

  lemma {:induction false} OffsetOfPrefix(setup: seq<SetupSecretStore>, k: nat, i: nat)
    requires i <= k <= |setup|
    ensures Offset(setup[..k], i) == Offset(setup, i)
    decreases i
  {
    if i > 0 {
      OffsetOfPrefix(setup, k, i - 1);
    }
  }

  lemma {:induction false} OffsetMonotone(setup: seq<SetupSecretStore>, i: nat, k: nat)
    requires i <= k <= |setup|
    ensures Offset(setup, i) <= Offset(setup, k)
    decreases k
  {
    if i < k {
      OffsetMonotone(setup, i, k - 1);
    }
  }

  /** The first `k` stores declare no entry exactly when each of them declares none. */
  lemma {:induction false} OffsetZero(setup: seq<SetupSecretStore>, k: nat)
    requires k <= |setup|
    ensures Offset(setup, k) == 0 <==> forall i :: 0 <= i < k ==> setup[i].items == []
    decreases k
  {
    if k > 0 {
      OffsetZero(setup, k - 1);
    }
  }

  /**
   * Resolving one store's entries from position `start` keeps a prefix of
   * them, each under its key with its answer as secret.
   */
  lemma {:induction false} ResolveItemsKept(items: seq<SetupSecretStoreItem>, interactive: bool,
                                            stdin: seq<PromptRead>, start: nat)
    ensures var r := ResolveItems(items, interactive, stdin, start);
      && |r.items| <= |items|
      && forall j :: 0 <= j < |r.items| ==>
           r.items[j] == SecretStoreItem(items[j].key, Value(Answer(interactive, stdin, start + j)))
    decreases |items|
  {
    if items != [] {
      var init := items[..|items| - 1];
      ResolveItemsKept(init, interactive, stdin, start);
      ResolveItemsEnds(init, interactive, stdin, start);
      assert forall j :: 0 <= j < |init| ==> init[j] == items[j];
    }
  }

  /**
   * Where resolving one store's entries from position `start` ends: every
   * answer it kept was accepted, and it either resolves all the entries or
   * stops at the first rejected answer, with the error that answer calls for.
   */
  lemma {:induction false} ResolveItemsEnds(items: seq<SetupSecretStoreItem>, interactive: bool,
                                            stdin: seq<PromptRead>, start: nat)
    ensures var r := ResolveItems(items, interactive, stdin, start);
      && (forall t :: start <= t < start + |r.items| ==> Accepted(Answer(interactive, stdin, t)))
      && (r.err.None? ==> |r.items| == |items| && r.next == start + |items|)
      && (r.err.Some? ==>
            && |r.items| < |items|
            && r.next == start + |r.items| + 1
            && !Accepted(Answer(interactive, stdin, r.next - 1))
            && r.err == Some(Rejection(Answer(interactive, stdin, r.next - 1))))
    decreases |items|
  {
    if items != [] {
      ResolveItemsEnds(items[..|items| - 1], interactive, stdin, start);
    }
  }

  /** The entries of a store that resolved in full are those `Expected` gives it. */
  lemma ResolvedStore(st: SetupSecretStore, start: nat, interactive: bool, stdin: seq<PromptRead>)
    requires ResolveItems(st.items, interactive, stdin, start).err.None?
    ensures SecretStore(st.name, ResolveItems(st.items, interactive, stdin, start).items)
         == Expected(st, start, interactive, stdin)
  {
    ResolveItemsKept(st.items, interactive, stdin, start);
    ResolveItemsEnds(st.items, interactive, stdin, start);
  }

  /** The stores Configure completes are the first ones declared, each as `Expected`. */
  ghost predicate StoresExpected(setup: seq<SetupSecretStore>, interactive: bool, stdin: seq<PromptRead>,
                                 stores: seq<SecretStore>)
  {
    && |stores| <= |setup|
    && forall i :: 0 <= i < |stores| ==> stores[i] == Expected(setup[i], Offset(setup, i), interactive, stdin)
  }

  /**
   * Where Configure's run `r` ends: after every entry, all accepted; or at
   * the first rejected answer, which lies in the first store not completed.
   */
  ghost predicate EndsAsDescribed(setup: seq<SetupSecretStore>, interactive: bool, stdin: seq<PromptRead>,
                                  r: Configured)
  {
    && |r.stores| <= |setup|
    && (r.err.None? ==>
          && |r.stores| == |setup|
          && r.next == ItemCount(setup)
          && AllAccepted(interactive, stdin, r.next))
    && (r.err.Some? ==>
          && |r.stores| < |setup|
          && Offset(setup, |r.stores|) < r.next <= Offset(setup, |r.stores| + 1)
          && AllAccepted(interactive, stdin, r.next - 1)
          && !Accepted(Answer(interactive, stdin, r.next - 1))
          && r.err == Some(Rejection(Answer(interactive, stdin, r.next - 1))))
  }

  /** When Configure completes every store but the last, it has used the answers of exactly their entries. */
  lemma CompletedPrefix(setup: seq<SetupSecretStore>, interactive: bool, stdin: seq<PromptRead>)
    requires setup != []
    ensures var prev := ConfigureRun(setup[..|setup| - 1], interactive, stdin);
      prev.err.None? ==> |prev.stores| == |setup| - 1 && prev.next == Offset(setup, |setup| - 1)
  {
    ConfigureEnds(setup[..|setup| - 1], interactive, stdin);
    OffsetOfPrefix(setup, |setup| - 1, |setup| - 1);
  }

  /** Stores that match all but the last store of the manifest also match the whole manifest. */
  lemma StoresWiden(setup: seq<SetupSecretStore>, interactive: bool, stdin: seq<PromptRead>,
                    stores: seq<SecretStore>)
    requires setup != []
    requires StoresExpected(setup[..|setup| - 1], interactive, stdin, stores)
    ensures StoresExpected(setup, interactive, stdin, stores)
  {
    forall i | 0 <= i < |stores|
      ensures stores[i] == Expected(setup[i], Offset(setup, i), interactive, stdin)
    {
      OffsetOfPrefix(setup, |setup| - 1, i);
      assert setup[..|setup| - 1][i] == setup[i];
    }
  }

  /** The next store, resolved from the answers that follow, extends the expected stores. */
  lemma StoresAppend(setup: seq<SetupSecretStore>, interactive: bool, stdin: seq<PromptRead>,
                     stores: seq<SecretStore>)
    requires |stores| < |setup|
    requires StoresExpected(setup, interactive, stdin, stores)
    ensures StoresExpected(setup, interactive, stdin,
      stores + [Expected(setup[|stores|], Offset(setup, |stores|), interactive, stdin)])
  {
    var grown := stores + [Expected(setup[|stores|], Offset(setup, |stores|), interactive, stdin)];
    forall i | 0 <= i < |grown|
      ensures grown[i] == Expected(setup[i], Offset(setup, i), interactive, stdin)
    {
      if i < |stores| {
        assert grown[i] == stores[i];
      } else {
        assert i == |stores| && grown[i] == Expected(setup[|stores|], Offset(setup, |stores|), interactive, stdin);
      }
    }
  }

  lemma {:induction false} ConfigureStores(setup: seq<SetupSecretStore>, interactive: bool, stdin: seq<PromptRead>)
    ensures StoresExpected(setup, interactive, stdin, ConfigureRun(setup, interactive, stdin).stores)
    decreases |setup|
  {
    if setup == [] {
      return;
    }
    var init := setup[..|setup| - 1];
    var last := setup[|setup| - 1];
    var prev := ConfigureRun(init, interactive, stdin);
    assert StoresExpected(setup, interactive, stdin, prev.stores) by {
      ConfigureStores(init, interactive, stdin);
      StoresWiden(setup, interactive, stdin, prev.stores);
    }
    CompletedPrefix(setup, interactive, stdin);
    if prev.err.None? && ResolveItems(last.items, interactive, stdin, prev.next).err.None? {
      ResolvedStore(last, prev.next, interactive, stdin);
      assert ConfigureRun(setup, interactive, stdin).stores
          == prev.stores + [Expected(last, prev.next, interactive, stdin)];
      StoresAppend(setup, interactive, stdin, prev.stores);
    } else {
      assert ConfigureRun(setup, interactive, stdin).stores == prev.stores;
    }
  }

  lemma {:induction false} ConfigureEnds(setup: seq<SetupSecretStore>, interactive: bool, stdin: seq<PromptRead>)
    ensures EndsAsDescribed(setup, interactive, stdin, ConfigureRun(setup, interactive, stdin))
    decreases |setup|
  {
    if setup == [] {
      return;
    }
    var init := setup[..|setup| - 1];
    var last := setup[|setup| - 1];
    var prev := ConfigureRun(init, interactive, stdin);
    ConfigureEnds(init, interactive, stdin);
    if prev.err.Some? {
      assert ConfigureRun(setup, interactive, stdin) == prev;
      OffsetOfPrefix(setup, |setup| - 1, |prev.stores|);
      OffsetOfPrefix(setup, |setup| - 1, |prev.stores| + 1);
    } else {
      ConfigureEndsAfter(setup, interactive, stdin);
    }
  }

  /** ConfigureEnds for a run whose stores before the last all completed. */
  lemma ConfigureEndsAfter(setup: seq<SetupSecretStore>, interactive: bool, stdin: seq<PromptRead>)
    requires setup != []
    requires var prev := ConfigureRun(setup[..|setup| - 1], interactive, stdin);
      prev.err.None? && EndsAsDescribed(setup[..|setup| - 1], interactive, stdin, prev)
    ensures EndsAsDescribed(setup, interactive, stdin, ConfigureRun(setup, interactive, stdin))
  {
    var prev := ConfigureRun(setup[..|setup| - 1], interactive, stdin);
    OffsetOfPrefix(setup, |setup| - 1, |setup| - 1);
    EndsExtend(setup, interactive, stdin, prev);
  }

  /**
   * The step of ConfigureEnds: the run `prev` over all stores but the last
   * ended as described, and the last store's entries are resolved next.
   */
  lemma EndsExtend(setup: seq<SetupSecretStore>, interactive: bool, stdin: seq<PromptRead>, prev: Configured)
    requires setup != []
    requires prev.err.None? && EndsAsDescribed(setup[..|setup| - 1], interactive, stdin, prev)
    requires prev.next == Offset(setup, |setup| - 1)
    ensures var last := setup[|setup| - 1];
      var r := ResolveItems(last.items, interactive, stdin, prev.next);
      EndsAsDescribed(setup, interactive, stdin,
        if r.err.None? then Configured(None, prev.stores + [SecretStore(last.name, r.items)], r.next)
        else Configured(r.err, prev.stores, r.next))
  {
    var last := setup[|setup| - 1];
    var r := ResolveItems(last.items, interactive, stdin, prev.next);
    ResolveItemsEnds(last.items, interactive, stdin, prev.next);
    AllAcceptedJoin(interactive, stdin, prev.next, prev.next + |r.items|);
    assert Offset(setup, |setup|) == prev.next + |last.items|;
    if r.err.None? {
      assert EndsAsDescribed(setup, interactive, stdin,
        Configured(None, prev.stores + [SecretStore(last.name, r.items)], r.next));
    } else {
      assert EndsAsDescribed(setup, interactive, stdin, Configured(r.err, prev.stores, r.next));
    }
  }

  /** Accepted answers before `a`, and from `a` up to `b`, make accepted answers before `b`. */
  lemma AllAcceptedJoin(interactive: bool, stdin: seq<PromptRead>, a: nat, b: nat)
    requires AllAccepted(interactive, stdin, a)
    requires forall t :: a <= t < b ==> Accepted(Answer(interactive, stdin, t))
    ensures AllAccepted(interactive, stdin, b)
  {
  }

  /** Configure's run: the stores it completes, where it stops, and why. */
  lemma ConfigureOutcome(setup: seq<SetupSecretStore>, interactive: bool, stdin: seq<PromptRead>)
    ensures var r := ConfigureRun(setup, interactive, stdin);
      && StoresExpected(setup, interactive, stdin, r.stores)
      && EndsAsDescribed(setup, interactive, stdin, r)
  {
    ConfigureStores(setup, interactive, stdin);
    ConfigureEnds(setup, interactive, stdin);
  }

  /** Configure succeeds exactly when every declared entry resolves to a non-blank answer. */
  lemma ConfigureSucceedsIff(setup: seq<SetupSecretStore>, interactive: bool, stdin: seq<PromptRead>)
    ensures ConfigureRun(setup, interactive, stdin).err.None? <==> AllAccepted(interactive, stdin, ItemCount(setup))
  {
    var r := ConfigureRun(setup, interactive, stdin);
    ConfigureEnds(setup, interactive, stdin);
    if r.err.Some? {
      OffsetMonotone(setup, |r.stores| + 1, |setup|);
    }
  }

  /**
   * Outside interactive mode every entry stays blank: Configure succeeds
   * exactly when no store declares an entry, every store it completes has
   * no entries, and the only error it reports is the blank value.
   */
  lemma NonInteractiveStaysBlank(setup: seq<SetupSecretStore>, stdin: seq<PromptRead>)
    ensures var r := ConfigureRun(setup, false, stdin);
      && (r.err.None? <==> forall i :: 0 <= i < |setup| ==> setup[i].items == [])
      && (r.err.Some? ==> r.err == Some(BlankValue))
      && |r.stores| <= |setup|
      && (forall i :: 0 <= i < |r.stores| ==> r.stores[i] == SecretStore(setup[i].name, []))
  {
    var r := ConfigureRun(setup, false, stdin);
    ConfigureOutcome(setup, false, stdin);
    ConfigureSucceedsIff(setup, false, stdin);
    OffsetZero(setup, |setup|);
    OffsetZero(setup, |r.stores|);
    assert !Accepted(Answer(false, stdin, 0));
  }

  /**
   * In interactive mode the `j`-th entry of the `i`-th completed store
   * holds, under its declared key, exactly the non-blank line the operator
   * typed for it.
   */
  lemma InteractiveKeepsAnswers(setup: seq<SetupSecretStore>, stdin: seq<PromptRead>, i: nat, j: nat)
    requires i < |ConfigureRun(setup, true, stdin).stores|
    ensures i < |setup| && |ConfigureRun(setup, true, stdin).stores[i].items| == |setup[i].items|
    ensures j < |setup[i].items| ==>
      var t := Offset(setup, i) + j;
      var item := ConfigureRun(setup, true, stdin).stores[i].items[j];
      && t < |stdin| && stdin[t].Line?
      && item == SecretStoreItem(setup[i].items[j].key, stdin[t].text)
      && item.secret != ""
  {
    var r := ConfigureRun(setup, true, stdin);
    var st := r.stores[i];
    assert i < |setup| && st == Expected(setup[i], Offset(setup, i), true, stdin) by {
      ConfigureStores(setup, true, stdin);
    }
    if j < |setup[i].items| {
      var t := Offset(setup, i) + j;
      var a := Answer(true, stdin, t);
      assert Accepted(a) by {
        CompletedAccepted(setup, true, stdin, i + 1, t);
      }
      assert t < |stdin| && a == stdin[t];
      assert st.items[j] == SecretStoreItem(setup[i].items[j].key, Value(a));
    }
  }

  /** Every answer taken by a store Configure completed was accepted. */
  lemma CompletedAccepted(setup: seq<SetupSecretStore>, interactive: bool, stdin: seq<PromptRead>, k: nat, t: nat)
    requires k <= |ConfigureRun(setup, interactive, stdin).stores| && k <= |setup|
    requires t < Offset(setup, k)
    ensures Accepted(Answer(interactive, stdin, t))
  {
    var r := ConfigureRun(setup, interactive, stdin);
    ConfigureEnds(setup, interactive, stdin);
    OffsetMonotone(setup, k, |r.stores|);
  }

  /**
   * `Predefined` is true exactly when Configure has work to do: with no
   * store declared it succeeds without completing a store or reading a
   * prompt; otherwise it either completes a store or fails.
   */
  lemma PredefinedMeansWork(p: SecretStores, stdin: seq<PromptRead>)
    ensures var r := ConfigureRun(p.setup, p.Interactive(), stdin);
      && (p.Predefined() <==> r.err.Some? || r.stores != [])
      && (!p.Predefined() ==> r == Configured(None, [], 0))
  {
    ConfigureEnds(p.setup, p.Interactive(), stdin);
  }

  /** The store `tokens` declaring the one entry `api-key`. */
  function Tokens(): seq<SetupSecretStore> {
    [SetupSecretStore("tokens", "", [SetupSecretStoreItem("api-key", "")])]
  }

  /** Outside interactive mode, `tokens` fails on a blank value and nothing is stored. */
  lemma TokensNonInteractive(stdin: seq<PromptRead>)
    ensures ConfigureRun(Tokens(), false, stdin) == Configured(Some(BlankValue), [], 1)
  {
    assert Tokens()[..0] == [] && Tokens()[0].items[..0] == [];
  }

  /** Interactively, the typed line `abc123` becomes the secret of `api-key`. */
  lemma TokensTyped(rest: seq<PromptRead>)
    ensures ConfigureRun(Tokens(), true, [Line("abc123")] + rest)
         == Configured(None, [SecretStore("tokens", [SecretStoreItem("api-key", "abc123")])], 1)
  {
    var stdin := [Line("abc123")] + rest;
    var item := SecretStoreItem("api-key", "abc123");
    assert Tokens()[..0] == [] && Tokens()[0].items[..0] == [];
    assert Accepted(Answer(true, stdin, 0));
    assert ResolveItems(Tokens()[0].items, true, stdin, 0) == Resolved(None, [] + [item], 1);
    assert [] + [item] == [item];
    assert [] + [SecretStore("tokens", [item])] == [SecretStore("tokens", [item])];
  }

  /** Interactively, a prompt that cannot be read fails `tokens` with the read error. */
  lemma TokensUnreadable(cause: string, rest: seq<PromptRead>)
    ensures ConfigureRun(Tokens(), true, [ReadError(cause)] + rest) == Configured(Some(PromptInput(cause)), [], 1)
  {
    assert Tokens()[..0] == [] && Tokens()[0].items[..0] == [];
  }
}
