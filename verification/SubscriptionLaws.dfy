/** Subscriptions told in terms of the calls that were made. */
module SubscriptionLaws {
  import opened Subscription
  import opened SubscriptionRuns

  // ---------- who is subscribed ----------

  /** The call ends the subscription of subscriber `s` under set `g` to key `k`. */
  predicate Ends(a: Step, s: nat, g: SetId, k: EventKey) {
    a == UnsubscribeKey(s, g, k) || a == UnsubscribeSet(s, g) || a == UnsubscribeAll(s)
  }

  /** Whether, by the first `n` calls, subscriber `s` has asked for key `k` under set `g` while the engine
      existed, and has not ended that since. */
  predicate Wants(run: seq<System>, steps: seq<Step>, n: nat, s: nat, g: SetId, k: EventKey)
    requires n <= |steps| < |run|
  {
    && n > 0
    && var a := steps[n - 1];
       if a.Subscribe? && a.owner == s && a.g == g && a.key == k && run[n - 1].up then true
       else if Ends(a, s, g, k) then false
       else Wants(run, steps, n - 1, s, g, k)
  }

  /** One call changes a subscriber's entry in the expected way, whoever else it concerns. */
  lemma StepWants(y: System, a: Step, s: nat, g: SetId, k: EventKey)
    requires Enabled(y, a) && s in y.subs && s in After(y, a).subs && s != y.born
    ensures Has(After(y, a).subs[s], g, k) <==>
      if a.Subscribe? && a.owner == s && a.g == g && a.key == k && y.up then true
      else if Ends(a, s, g, k) then false
      else Has(y.subs[s], g, k)
  {
  }

  lemma {:induction false} UnbornWantsNothing(run: seq<System>, steps: seq<Step>, n: nat, s: nat, g: SetId, k: EventKey)
    requires IsRun(run, steps) && n <= |steps| && run[n].born <= s
    ensures !Wants(run, steps, n, s, g, k)
  {
    if n > 0 {
      assert StepsTo(run, steps, n - 1);
      AlwaysInv(run, steps, n - 1);
      UnbornWantsNothing(run, steps, n - 1, s, g, k);
    }
  }

  /** On every run a subscriber has an entry exactly for what it has asked for and not ended. */
  lemma {:induction false} SubscribedExactly(run: seq<System>, steps: seq<Step>, n: nat, s: nat, g: SetId, k: EventKey)
    requires IsRun(run, steps) && n <= |steps| && s in run[n].subs
    ensures Has(run[n].subs[s], g, k) <==> Wants(run, steps, n, s, g, k)
  {
    if n > 0 {
      assert StepsTo(run, steps, n - 1);
      AlwaysInv(run, steps, n - 1);
      if s in run[n - 1].subs {
        SubscribedExactly(run, steps, n - 1, s, g, k);
        StepWants(run[n - 1], steps[n - 1], s, g, k);
      } else {
        UnbornWantsNothing(run, steps, n - 1, s, g, k);
      }
    }
  }

  /** A subscriber exists from its creation to its destruction. */
  lemma {:induction false} AliveExactly(run: seq<System>, steps: seq<Step>, n: nat, s: nat)
    requires IsRun(run, steps) && n <= |steps|
    ensures s in run[n].subs <==>
      && (exists j :: 0 <= j < n && steps[j] == Create && run[j].born == s)
      && (forall j :: 0 <= j < n ==> steps[j] != Destroy(s))
  {
    if n > 0 {
      assert StepsTo(run, steps, n - 1);
      AlwaysInv(run, steps, n - 1);
      AliveExactly(run, steps, n - 1, s);
      if steps[n - 1] == Create && run[n - 1].born == s {
        UnbornIsNotDestroyed(run, steps, n - 1, s);
      }
    }
  }

  lemma {:induction false} UnbornIsNotDestroyed(run: seq<System>, steps: seq<Step>, n: nat, s: nat)
    requires IsRun(run, steps) && n <= |steps| && run[n].born <= s
    ensures forall j :: 0 <= j < n ==> steps[j] != Destroy(s)
  {
    if n > 0 {
      assert StepsTo(run, steps, n - 1);
      AlwaysInv(run, steps, n - 1);
      UnbornIsNotDestroyed(run, steps, n - 1, s);
    }
  }

  // ---------- where nodes come from ----------

  /** On every run each node was made by a call of its owner, for its set, key and thread, and its
      position is the number of subscriptions made before. */
  lemma {:induction false} NodesHaveACall(run: seq<System>, steps: seq<Step>, n: nat, k: EventKey, m: Node)
    requires IsRun(run, steps) && n <= |steps| && At(run[n].lists, k, m)
    ensures exists j :: 0 <= j < n && steps[j] == Subscribe(m.owner, m.setId, k, m.tid) && run[j].next == m.id
  {
    if n > 0 {
      assert StepsTo(run, steps, n - 1);
      if At(run[n - 1].lists, k, m) {
        NodesHaveACall(run, steps, n - 1, k, m);
      } else {
        NewNode(run[n - 1], steps[n - 1], k, m);
      }
    }
  }

  lemma NewNode(y: System, a: Step, k: EventKey, m: Node)
    requires Enabled(y, a) && At(After(y, a).lists, k, m) && !At(y.lists, k, m)
    ensures a == Subscribe(m.owner, m.setId, k, m.tid) && y.next == m.id
  {
    match a
    case Subscribe(s, g, key, tid) => AppendHolds(y.lists, key, Node(y.next, tid, g, s), k, m);
    case UnsubscribeKey(_, _, _) => NothingAppears(y, a, k, m);
    case UnsubscribeSet(_, _) => NothingAppears(y, a, k, m);
    case UnsubscribeAll(_) => NothingAppears(y, a, k, m);
    case Notify(key) => PurgeHolds(y.lists, y.dispatching, key, y.subs.Keys, k, m);
    case _ =>
  }

  // ---------- notifications ----------

  /** A notification takes away exactly the nodes of its key whose owner is gone, unless the engine has
      been disposed of; it never takes a key away. */
  lemma NotifyDropsDead(y: System, key: EventKey, k: EventKey, n: Node)
    requires y.up
    ensures At(After(y, Notify(key)).lists, k, n) <==>
      At(y.lists, k, n) && !(y.dispatching && k == key && n.owner !in y.subs)
    ensures After(y, Notify(key)).lists.Keys == y.lists.Keys
    ensures After(y, Notify(key)).subs == y.subs
  {
    PurgeHolds(y.lists, y.dispatching, key, y.subs.Keys, k, n);
  }

  /** After a disposal nothing is scheduled any more. */
  lemma {:induction false} NothingAfterDispose(run: seq<System>, steps: seq<Step>, m: nat, n: nat, key: EventKey)
    requires IsRun(run, steps) && m < n <= |steps| && steps[m] == Dispose
    ensures !run[n].dispatching && Scheduled(run[n].lists, run[n].dispatching, key, run[n].subs.Keys) == []
    decreases n
  {
    assert StepsTo(run, steps, n - 1);
    if m < n - 1 {
      NothingAfterDispose(run, steps, m, n - 1, key);
    }
  }

  /** Until then, every node of the key whose owner lives is scheduled, with its own thread. */
  lemma SchedulesExactly(y: System, key: EventKey, n: Node)
    requires y.dispatching
    ensures n in Scheduled(y.lists, y.dispatching, key, y.subs.Keys) <==> At(y.lists, key, n) && n.owner in y.subs
  {
    if key in y.lists {
      LiveMembers(y.lists[key], y.subs.Keys, n);
    }
  }

  /** Removal takes a key away exactly when it takes the last node of its list. */
  lemma RemoveKeysExactly(lists: Lists, ids: set<nat>, k: EventKey)
    ensures k in RemoveIds(lists, ids) <==>
      k in lists && (lists[k] == [] || exists n :: n in lists[k] && n.id !in ids)
  {
    if k in lists {
      var kept := Keep(lists[k], ids);
      if kept != [] {
        KeepMembers(lists[k], ids, kept[0]);
        assert kept[0] in kept;
      }
      if n :| n in lists[k] && n.id !in ids {
        KeepMembers(lists[k], ids, n);
      }
    }
  }

  /** What can be called: anything on a subscriber that exists, and on an engine that exists. */
  lemma CallsExactly(y: System, a: Step)
    ensures Enabled(y, a) <==>
      if a.Create? || a.Notify? || a.Dispose? || a.DestroyEngine? then y.up else a.owner in y.subs
  {
  }
}
