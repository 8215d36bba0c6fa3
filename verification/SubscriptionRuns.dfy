/** One engine and any number of subscribers over whole runs of their operations. */
module SubscriptionRuns {
  import opened Subscription

  /** `up` is false once the engine is destroyed; `subs` holds the subscribers that are alive. */
  datatype System = System(lists: Lists, next: nat, up: bool, dispatching: bool, subs: map<nat, Sets>, born: nat)

  datatype Step =
    | Create
    | Subscribe(owner: nat, g: SetId, key: EventKey, tid: nat)
    | UnsubscribeKey(owner: nat, g: SetId, key: EventKey)
    | UnsubscribeSet(owner: nat, g: SetId)
    | UnsubscribeAll(owner: nat)
    | Notify(key: EventKey)
    | Destroy(owner: nat)
    | Dispose
    | DestroyEngine

  const START := System(map[], 0, true, true, map[], 0)

  /** A step happens only where the source can take it: on a subscriber, or an engine, that exists. */
  predicate Enabled(y: System, a: Step) {
    match a
    case Create => y.up
    case Subscribe(s, _, _, _) => s in y.subs
    case UnsubscribeKey(s, _, _) => s in y.subs
    case UnsubscribeSet(s, _) => s in y.subs
    case UnsubscribeAll(s) => s in y.subs
    case Notify(_) => y.up
    case Destroy(s) => s in y.subs
    case Dispose => y.up
    case DestroyEngine => y.up
  }

  function Forget(y: System, s: nat, sets: Sets, ids: set<nat>): System {
    y.(subs := y.subs[s := sets], lists := if y.up then RemoveIds(y.lists, ids) else y.lists)
  }

  function After(y: System, a: Step): System
    requires Enabled(y, a)
  {
    match a
    case Create => y.(subs := y.subs[y.born := map[]], born := y.born + 1)
    case Subscribe(s, g, key, tid) =>
      if !y.up || Has(y.subs[s], g, key) then y
      else y.(subs := y.subs[s := Subscribed(y.subs[s], g, key, y.next)],
              lists := Appended(y.lists, key, Node(y.next, tid, g, s)),
              next := y.next + 1)
    case UnsubscribeKey(s, g, key) =>
      if !Has(y.subs[s], g, key) then y
      else Forget(y, s, y.subs[s][g := y.subs[s][g] - {key}], {y.subs[s][g][key]})
    case UnsubscribeSet(s, g) => Forget(y, s, y.subs[s] - {g}, Positions(y.subs[s], {g}))
    case UnsubscribeAll(s) => Forget(y, s, map[], Positions(y.subs[s], y.subs[s].Keys))
    case Notify(key) => y.(lists := Purged(y.lists, y.dispatching, key, y.subs.Keys))
    case Destroy(s) => y.(subs := y.subs - {s})
    case Dispose => y.(dispatching := false)
    case DestroyEngine => y.(up := false, lists := map[])
  }

  // ---------- the invariant ----------

  ghost predicate Inv(y: System) {
    && WellFormed(y.lists, y.next)
    && (forall k, n :: At(y.lists, k, n) ==> n.owner < y.born)
    && (forall s :: s in y.subs ==> s < y.born)
    && (y.up ==> forall s :: s in y.subs ==> Matched(y.lists, y.subs[s], s))
    && (!y.up ==> y.lists == map[])
  }

  /** A change that leaves an owner's nodes and entries alone keeps them matched. */
  lemma OthersMatched(lists: Lists, after: Lists, sets: Sets, s: nat)
    requires Matched(lists, sets, s)
    requires forall k, n: Node :: n.owner == s ==> (At(after, k, n) <==> At(lists, k, n))
    ensures Matched(after, sets, s)
  {
    forall g, k | Has(sets, g, k)
      ensures Backed(after, sets, s, g, k)
    {
      assert Backed(lists, sets, s, g, k);
      var n :| At(lists, k, n) && n.id == sets[g][k] && n.setId == g && n.owner == s;
      assert At(after, k, n);
    }
  }

  lemma SubscribeMatches(lists: Lists, next: nat, sets: Sets, s: nat, g: SetId, key: EventKey, tid: nat)
    requires WellFormed(lists, next) && Matched(lists, sets, s) && !Has(sets, g, key)
    ensures Matched(Appended(lists, key, Node(next, tid, g, s)), Subscribed(sets, g, key, next), s)
  {
    var m := Node(next, tid, g, s);
    var after, sets' := Appended(lists, key, m), Subscribed(sets, g, key, next);
    forall k, n
      ensures At(after, k, n) <==> At(lists, k, n) || (k == key && n == m)
    {
      AppendHolds(lists, key, m, k, n);
    }
    forall g', k | Has(sets', g', k)
      ensures Backed(after, sets', s, g', k)
    {
      if g' == g && k == key {
        assert At(after, key, m);
      } else {
        assert Has(sets, g', k) && Backed(lists, sets, s, g', k);
        var n :| At(lists, k, n) && n.id == sets[g'][k] && n.setId == g' && n.owner == s;
        assert At(after, k, n);
      }
    }
  }

  /** Which of a subscriber's entries an unsubscribe call drops. */
  ghost predicate Drops(sets: Sets, sets': Sets, ids: set<nat>) {
    && (forall g, k :: Has(sets', g, k) <==> Has(sets, g, k) && sets[g][k] !in ids)
    && (forall g, k :: Has(sets', g, k) ==> sets'[g][k] == sets[g][k])
    && (forall id :: id in ids ==> exists g, k :: Has(sets, g, k) && sets[g][k] == id)
  }

  lemma DropMatches(lists: Lists, sets: Sets, sets': Sets, s: nat, ids: set<nat>)
    requires Matched(lists, sets, s) && Drops(sets, sets', ids)
    ensures Matched(RemoveIds(lists, ids), sets', s)
  {
    var after := RemoveIds(lists, ids);
    forall g, k | Has(sets', g, k)
      ensures Backed(after, sets', s, g, k)
    {
      assert Backed(lists, sets, s, g, k);
      var n :| At(lists, k, n) && n.id == sets[g][k] && n.setId == g && n.owner == s;
      RemoveHolds(lists, ids, k, n);
    }
    forall k, n | At(after, k, n) && n.owner == s
      ensures Has(sets', n.setId, k) && sets'[n.setId][k] == n.id
    {
      RemoveHolds(lists, ids, k, n);
    }
  }

  /** A subscriber's positions belong to no one else's nodes. */
  lemma DropSpares(lists: Lists, sets: Sets, sets': Sets, s: nat, ids: set<nat>, k: EventKey, n: Node)
    requires Distinct(lists) && AllBacked(lists, sets, s) && Drops(sets, sets', ids) && n.owner != s
    ensures At(RemoveIds(lists, ids), k, n) <==> At(lists, k, n)
  {
    RemoveHolds(lists, ids, k, n);
  }

  lemma KeyDrops(lists: Lists, sets: Sets, s: nat, g: SetId, key: EventKey)
    requires Distinct(lists) && AllBacked(lists, sets, s) && Has(sets, g, key)
    ensures Drops(sets, sets[g := sets[g] - {key}], {sets[g][key]})
  {
    forall g', k | Has(sets, g', k) && sets[g'][k] == sets[g][key]
      ensures g' == g && k == key
    {
      PositionsDiffer(lists, sets, s, g', k, g, key);
    }
  }

  lemma SetDrops(lists: Lists, sets: Sets, s: nat, g: SetId)
    requires Distinct(lists) && AllBacked(lists, sets, s)
    ensures Drops(sets, sets - {g}, Positions(sets, {g}))
  {
    var ids := Positions(sets, {g});
    forall g', k | Has(sets, g', k)
      ensures sets[g'][k] in ids <==> g' == g
    {
      if sets[g'][k] in ids {
        var k' :| Has(sets, g, k') && sets[g][k'] == sets[g'][k];
        PositionsDiffer(lists, sets, s, g', k, g, k');
      }
    }
    forall id | id in ids
      ensures exists g', k :: Has(sets, g', k) && sets[g'][k] == id
    {
      var g', k :| g' in {g} && g' in sets && k in sets[g'] && sets[g'][k] == id;
      assert Has(sets, g', k);
    }
  }

  lemma AllDrops(sets: Sets)
    ensures Drops(sets, map[], Positions(sets, sets.Keys))
  {
    var ids := Positions(sets, sets.Keys);
    forall id | id in ids
      ensures exists g, k :: Has(sets, g, k) && sets[g][k] == id
    {
      var g, k :| g in sets && k in sets[g] && sets[g][k] == id;
      assert Has(sets, g, k);
    }
  }

  // ---------- every step keeps it ----------

  lemma ForgetKeepsInv(y: System, s: nat, sets: Sets, ids: set<nat>)
    requires Inv(y) && s in y.subs && (y.up ==> Drops(y.subs[s], sets, ids))
    ensures Inv(Forget(y, s, sets, ids))
  {
    var y' := Forget(y, s, sets, ids);
    if y.up {
      RemoveKeepsForm(y.lists, y.next, ids);
      forall k, n
        ensures At(y'.lists, k, n) ==> At(y.lists, k, n)
      {
        RemoveHolds(y.lists, ids, k, n);
      }
      forall s' | s' in y'.subs
        ensures Matched(y'.lists, y'.subs[s'], s')
      {
        if s' == s {
          DropMatches(y.lists, y.subs[s], sets, s, ids);
        } else {
          forall k, n: Node | n.owner == s'
            ensures At(y'.lists, k, n) <==> At(y.lists, k, n)
          {
            DropSpares(y.lists, y.subs[s], sets, s, ids, k, n);
          }
          OthersMatched(y.lists, y'.lists, y.subs[s'], s');
        }
      }
    }
  }

  lemma SubscribeKeepsInv(y: System, s: nat, g: SetId, key: EventKey, tid: nat)
    requires Inv(y) && y.up && s in y.subs && !Has(y.subs[s], g, key)
    ensures Inv(After(y, Subscribe(s, g, key, tid)))
  {
    var y', m := After(y, Subscribe(s, g, key, tid)), Node(y.next, tid, g, s);
    AppendKeepsForm(y.lists, y.next, key, m);
    forall k, n
      ensures At(y'.lists, k, n) <==> At(y.lists, k, n) || (k == key && n == m)
    {
      AppendHolds(y.lists, key, m, k, n);
    }
    forall s' | s' in y'.subs
      ensures Matched(y'.lists, y'.subs[s'], s')
    {
      if s' == s {
        SubscribeMatches(y.lists, y.next, y.subs[s], s, g, key, tid);
      } else {
        OthersMatched(y.lists, y'.lists, y.subs[s'], s');
      }
    }
  }

  lemma NotifyKeepsInv(y: System, key: EventKey)
    requires Inv(y) && y.up
    ensures Inv(After(y, Notify(key)))
  {
    var y' := After(y, Notify(key));
    PurgeKeepsForm(y.lists, y.next, y.dispatching, key, y.subs.Keys);
    forall k, n
      ensures At(y'.lists, k, n) <==> At(y.lists, k, n) && (y.dispatching && k == key ==> n.owner in y.subs)
    {
      PurgeHolds(y.lists, y.dispatching, key, y.subs.Keys, k, n);
    }
    forall s | s in y.subs
      ensures Matched(y'.lists, y.subs[s], s)
    {
      OthersMatched(y.lists, y'.lists, y.subs[s], s);
    }
  }

  lemma CreateKeepsInv(y: System)
    requires Inv(y) && y.up
    ensures Inv(After(y, Create))
  {
  }

  lemma StepKeepsInv(y: System, a: Step)
    requires Inv(y) && Enabled(y, a)
    ensures Inv(After(y, a))
  {
    match a
    case Create => CreateKeepsInv(y);
    case Subscribe(s, g, key, tid) =>
      if y.up && !Has(y.subs[s], g, key) {
        SubscribeKeepsInv(y, s, g, key, tid);
      }
    case UnsubscribeKey(s, g, key) =>
      if Has(y.subs[s], g, key) {
        if y.up {
          KeyDrops(y.lists, y.subs[s], s, g, key);
        }
        ForgetKeepsInv(y, s, y.subs[s][g := y.subs[s][g] - {key}], {y.subs[s][g][key]});
      }
    case UnsubscribeSet(s, g) =>
      if y.up {
        SetDrops(y.lists, y.subs[s], s, g);
      }
      ForgetKeepsInv(y, s, y.subs[s] - {g}, Positions(y.subs[s], {g}));
    case UnsubscribeAll(s) =>
      AllDrops(y.subs[s]);
      ForgetKeepsInv(y, s, map[], Positions(y.subs[s], y.subs[s].Keys));
    case Notify(key) => NotifyKeepsInv(y, key);
    case Destroy(s) =>
    case Dispose =>
    case DestroyEngine =>
  }

  // ---------- runs ----------

  ghost predicate IsRun(run: seq<System>, steps: seq<Step>) {
    && |run| == |steps| + 1 && run[0] == START
    && forall i :: 0 <= i < |steps| ==> StepsTo(run, steps, i)
  }

  ghost predicate StepsTo(run: seq<System>, steps: seq<Step>, i: nat)
    requires |run| == |steps| + 1 && i < |steps|
  {
    Enabled(run[i], steps[i]) && run[i + 1] == After(run[i], steps[i])
  }

  lemma {:induction false} AlwaysInv(run: seq<System>, steps: seq<Step>, i: nat)
    requires IsRun(run, steps) && i < |run|
    ensures Inv(run[i])
  {
    if i > 0 {
      AlwaysInv(run, steps, i - 1);
      assert StepsTo(run, steps, i - 1);
      StepKeepsInv(run[i - 1], steps[i - 1]);
    }
  }

  /** While the engine exists, every live subscriber's entries match its nodes one to one. */
  lemma AlwaysMatched(run: seq<System>, steps: seq<Step>, i: nat, s: nat)
    requires IsRun(run, steps) && i < |run| && run[i].up && s in run[i].subs
    ensures Distinct(run[i].lists)
    ensures forall g, k :: Has(run[i].subs[s], g, k) ==> Backed(run[i].lists, run[i].subs[s], s, g, k)
    ensures forall k, n :: At(run[i].lists, k, n) && n.owner == s ==>
      Has(run[i].subs[s], n.setId, k) && run[i].subs[s][n.setId][k] == n.id
  {
    AlwaysInv(run, steps, i);
    assert Matched(run[i].lists, run[i].subs[s], s);
  }

  /** Which nodes an unsubscribe call is about. */
  ghost predicate IsAbout(a: Step, k: EventKey, n: Node) {
    match a
    case UnsubscribeKey(s, g, key) => n.owner == s && n.setId == g && k == key
    case UnsubscribeSet(s, g) => n.owner == s && n.setId == g
    case UnsubscribeAll(s) => n.owner == s
    case _ => false
  }

  lemma UnsubscribeIds(y: System, a: Step, k: EventKey, n: Node) returns (ids: set<nat>)
    requires Inv(y) && y.up && Enabled(y, a) && (a.UnsubscribeKey? || a.UnsubscribeSet? || a.UnsubscribeAll?)
    requires At(y.lists, k, n)
    ensures After(y, a).lists == RemoveIds(y.lists, ids)
    ensures n.id in ids <==> IsAbout(a, k, n)
  {
    var sets: Sets := y.subs[a.owner];
    assert Matched(y.lists, sets, a.owner);
    match a
    case UnsubscribeKey(s, g, key) =>
      if Has(sets, g, key) {
        ids := {sets[g][key]};
        assert Backed(y.lists, sets, s, g, key);
      } else {
        ids := {};
        RemoveNone(y.lists);
      }
    case UnsubscribeSet(s, g) =>
      ids := Positions(sets, {g});
      if n.id in ids {
        var k' :| Has(sets, g, k') && sets[g][k'] == n.id;
        assert Backed(y.lists, sets, s, g, k');
      }
    case UnsubscribeAll(s) =>
      ids := Positions(sets, sets.Keys);
      if n.id in ids {
        var g', k' :| Has(sets, g', k') && sets[g'][k'] == n.id;
        assert Backed(y.lists, sets, s, g', k');
      }
  }

  /** In every reachable state an unsubscribe call removes exactly its own nodes. */
  lemma UnsubscribeRemovesOwn(y: System, a: Step, k: EventKey, n: Node)
    requires Inv(y) && y.up && Enabled(y, a) && (a.UnsubscribeKey? || a.UnsubscribeSet? || a.UnsubscribeAll?)
    ensures At(After(y, a).lists, k, n) <==> At(y.lists, k, n) && !IsAbout(a, k, n)
  {
    if At(y.lists, k, n) {
      var ids := UnsubscribeIds(y, a, k, n);
      RemoveHolds(y.lists, ids, k, n);
    } else if At(After(y, a).lists, k, n) {
      NothingAppears(y, a, k, n);
    }
  }

  lemma NothingAppears(y: System, a: Step, k: EventKey, n: Node)
    requires Enabled(y, a) && (a.UnsubscribeKey? || a.UnsubscribeSet? || a.UnsubscribeAll?)
    requires At(After(y, a).lists, k, n)
    ensures At(y.lists, k, n)
  {
    match a
    case UnsubscribeKey(s, g, key) =>
      if Has(y.subs[s], g, key) {
        RemoveHolds(y.lists, {y.subs[s][g][key]}, k, n);
      }
    case UnsubscribeSet(s, g) => RemoveHolds(y.lists, Positions(y.subs[s], {g}), k, n);
    case UnsubscribeAll(s) => RemoveHolds(y.lists, Positions(y.subs[s], y.subs[s].Keys), k, n);
  }

  /** A notification schedules one task per live subscription of the key, in subscription order. */
  lemma NotifySchedulesEach(y: System, key: EventKey, s: nat, g: SetId)
    requires Inv(y) && y.up && y.dispatching && s in y.subs
    ensures var l := Scheduled(y.lists, y.dispatching, key, y.subs.Keys);
            && Ascending(l)
            && (forall n :: n in l ==> n.owner in y.subs)
            && (Has(y.subs[s], g, key) <==> exists i :: 0 <= i < |l| && l[i].owner == s && l[i].setId == g)
            && (forall i, j | 0 <= i < |l| && 0 <= j < |l| ::
                  l[i].owner == l[j].owner == s && l[i].setId == l[j].setId == g ==> i == j)
  {
    var l := Scheduled(y.lists, y.dispatching, key, y.subs.Keys);
    var sets := y.subs[s];
    assert Matched(y.lists, sets, s);
    if key in y.lists {
      LiveAscends(y.lists[key], y.subs.Keys);
    }
    forall n
      ensures n in l <==> At(y.lists, key, n) && n.owner in y.subs
    {
      if key in y.lists {
        LiveMembers(y.lists[key], y.subs.Keys, n);
      }
    }
    if Has(sets, g, key) {
      assert Backed(y.lists, sets, s, g, key);
      var n :| At(y.lists, key, n) && n.id == sets[g][key] && n.setId == g && n.owner == s;
      assert n in l;
    }
    forall i | 0 <= i < |l| && l[i].owner == s && l[i].setId == g
      ensures Has(sets, g, key) && l[i].id == sets[g][key]
    {
      assert l[i] in l;
    }
  }
}
