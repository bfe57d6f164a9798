/** The Priority discard policy, with the priorities of the connected publishers. */
module PriorityDelivery {
  import opened Samples
  import opened Reader
  import Subscriptions

  /** The delivery looks up the priorities in the reader's connected keys. */
  ghost predicate LooksUp(d: Delivery, v: Subscriptions.Views, priority: int) {
    forall k :: d.outranked(k) == Subscriptions.HasLowerPriority(v.connected, priority, k)
  }

  /** After a discarded sample everything is as before, except that a key without a base may have got one. */
  ghost predicate OnlyReseeds(st: ReaderState, st': ReaderState, s: Sample) {
    && st'.history == st.history && st'.lastSendTime == st.lastSendTime && st'.calls == st.calls
    && (forall k :: k in st.bases ==> k in st'.bases && st'.bases[k] == st.bases[k])
    && (forall k :: k in st'.bases && k !in st.bases ==> k == s.key && !s.event.PartialUpdate? && !s.event.Remove?)
  }

  lemma DiscardedOnlyReseeds(env: ReaderEnv, d: Delivery, st: ReaderState, s: Sample)
    requires Wanted(env, d, s.key) && Discards(env, d, st.lastSendTime, s)
    ensures OnlyReseeds(st, Queue(env, d, st, s), s)
  {
  }

  ghost predicate Delivered(st: ReaderState, st': ReaderState, s: Sample) {
    |st'.calls| == |st.calls| + 1 && st'.calls[|st.calls|].id == s.id && st'.calls[|st.calls|].key == s.key
  }

  lemma OthersAreDelivered(env: ReaderEnv, d: Delivery, st: ReaderState, s: Sample)
    requires Wanted(env, d, s.key) && !Discards(env, d, st.lastSendTime, s) && !s.event.PartialUpdate?
    ensures Delivered(st, Queue(env, d, st, s), s)
  {
  }

  /** With the Priority policy, after any run of attach and detach calls, a full value or remove of a matching key
      reaches the application if and only if no publisher subscribed under the key or the null key came with a strictly
      higher priority than its sender's. */
  lemma DeliveredIffNotOutranked(
    env: ReaderEnv, d: Delivery, st: ReaderState, s: Sample,
    keyless: bool, ops: seq<Subscriptions.Op>, priority: int)
    requires env.policy.Priority? && Wanted(env, d, s.key) && !s.event.PartialUpdate?
    requires forall i :: 0 <= i < |ops| ==> Subscriptions.WellBehaved(keyless, ops[i])
    requires LooksUp(d, Subscriptions.Run(true, ops), priority)
    ensures Subscriptions.Outranked(Subscriptions.SpecRun(ops), priority, s.key) ==>
      OnlyReseeds(st, Queue(env, d, st, s), s)
    ensures !Subscriptions.Outranked(Subscriptions.SpecRun(ops), priority, s.key) ==>
      Delivered(st, Queue(env, d, st, s), s)
  {
    Subscriptions.LowerPriorityIffOutranked(keyless, ops, priority, s.key);
    assert d.outranked(s.key) <==> Subscriptions.Outranked(Subscriptions.SpecRun(ops), priority, s.key);
    if d.outranked(s.key) {
      DiscardedOnlyReseeds(env, d, st, s);
    } else {
      OthersAreDelivered(env, d, st, s);
    }
  }
}
