/** When the output asks the encoder for an IDR (crates/runtime/src/single.rs:1102, 1276-1327): the flag is set by
    the output task and taken by the encode loop. */
module IdrRequest {
  import opened Bytes
  import opened Muxer
  import opened Outputs

  /** A turn that meets a failure: the last call failed, or the packet of this one cannot be delivered for now. */
  predicate Fails(t: Task, a: Action) {
    && a.TakeTurn? && t.queue != []
    && (t.failed || (a.answer.Recoverable? && !t.queue[0].codec.OtherCodec?))
  }

  lemma {:induction false} RunSnoc(t: Task, actions: seq<Action>, a: Action)
    requires Run(t, actions + [a])
    ensures Run(t, actions) && Enabled(After(t, actions), a)
    ensures After(t, actions + [a]) == Take(After(t, actions), a)
    decreases |actions|
  {
    hide Take, Enabled;
    if actions == [] {
      assert ([] + [a])[1..] == [] && ([] + [a])[0] == a;
      assert After(Take(t, a), []) == Take(t, a);
    } else {
      assert (actions + [a])[1..] == actions[1..] + [a];
      RunSnoc(Take(t, actions[0]), actions[1..], a);
    }
  }

  lemma OneAction(t: Task, a: Action)
    requires Enabled(t, a)
    ensures Take(t, a).requestIdr <==> !a.TakeIdrRequest? && (t.requestIdr || Fails(t, a))
    ensures Fails(t, a) ==> !a.TakeIdrRequest?
  {
    hide MuxPush;
  }

  /** The k-th action meets a failure, or k is the start. */
  predicate Asks(actions: seq<Action>, k: nat)
    requires k <= |actions|
  {
    k == 0 || (Run(STARTED, actions[..k - 1]) && Fails(After(STARTED, actions[..k - 1]), actions[k - 1]))
  }

  predicate UntakenSince(actions: seq<Action>, k: nat) {
    forall i :: k <= i < |actions| ==> !actions[i].TakeIdrRequest?
  }

  /** Over every run: the encoder is asked for an IDR if and only if, since it last took the request, the task
      started or met a failure. */
  lemma {:induction false} RequestedIff(actions: seq<Action>)
    requires Run(STARTED, actions)
    ensures After(STARTED, actions).requestIdr <==>
            exists k :: 0 <= k <= |actions| && Asks(actions, k) && UntakenSince(actions, k)
    decreases |actions|
  {
    hide Take, Enabled, After, Run, Fails;
    if actions == [] {
      Begins();
      assert Asks(actions, 0) && UntakenSince(actions, 0);
    } else {
      var n := |actions| - 1;
      var sofar, a := actions[..n], actions[n];
      assert actions == sofar + [a];
      RunSnoc(STARTED, sofar, a);
      OneAction(After(STARTED, sofar), a);
      RequestedIff(sofar);
      assert Asks(actions, n + 1) <==> Fails(After(STARTED, sofar), a);
      assert UntakenSince(actions, n + 1);
      forall k | 0 <= k <= n
        ensures Asks(actions, k) == Asks(sofar, k)
        ensures UntakenSince(actions, k) <==> UntakenSince(sofar, k) && !a.TakeIdrRequest?
      {
        assert k > 0 ==> actions[..k - 1] == sofar[..k - 1];
        assert actions[n] == a && forall i :: k <= i < n ==> actions[i] == sofar[i];
      }
    }
  }

  lemma Begins()
    ensures After(STARTED, []).requestIdr
  {
  }
}
