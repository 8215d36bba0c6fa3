/** The subscription engine's lists of nodes by event key, and the subscribers that hold positions in
    them. A list position is named by the number of the subscription that created it. */
module Subscription {

  type EventKey = nat
  type SetId = nat

  /** One element of an engine list: which subscriber, under which set, on which thread. */
  datatype Node = Node(id: nat, tid: nat, setId: SetId, owner: nat)

  type Lists = map<EventKey, seq<Node>>

  /** A subscriber's own index: set id, then event key, then list position. */
  type Sets = map<SetId, map<EventKey, nat>>

  // ---------- lists ----------

  /** In the order of subscription. */
  ghost predicate Ascending(l: seq<Node>) {
    forall i, j :: 0 <= i < j < |l| ==> l[i].id < l[j].id
  }

  /** The nodes whose position is not in `ids`. */
  function Keep(l: seq<Node>, ids: set<nat>): seq<Node> {
    if l == [] then [] else (if l[0].id in ids then [] else [l[0]]) + Keep(l[1..], ids)
  }

  /** The nodes whose owner is alive. */
  function Live(l: seq<Node>, alive: set<nat>): seq<Node> {
    if l == [] then [] else (if l[0].owner in alive then [l[0]] else []) + Live(l[1..], alive)
  }

  lemma {:induction false} KeepMembers(l: seq<Node>, ids: set<nat>, n: Node)
    ensures n in Keep(l, ids) <==> n in l && n.id !in ids
  {
    if l != [] {
      KeepMembers(l[1..], ids, n);
      assert l == [l[0]] + l[1..];
    }
  }

  lemma {:induction false} KeepAscends(l: seq<Node>, ids: set<nat>)
    requires Ascending(l)
    ensures Ascending(Keep(l, ids))
  {
    if l != [] {
      KeepAscends(l[1..], ids);
      forall i | 0 <= i < |Keep(l[1..], ids)|
        ensures l[0].id < Keep(l[1..], ids)[i].id
      {
        KeepMembers(l[1..], ids, Keep(l[1..], ids)[i]);
      }
    }
  }

  lemma {:induction false} KeepTwice(l: seq<Node>, a: set<nat>, b: set<nat>)
    ensures Keep(Keep(l, a), b) == Keep(l, a + b)
  {
    if l != [] {
      KeepTwice(l[1..], a, b);
      var rest := Keep(l[1..], a);
      if l[0].id !in a {
        assert ([l[0]] + rest)[1..] == rest;
      } else {
        assert [] + rest == rest;
      }
    }
  }

  lemma {:induction false} KeepAll(l: seq<Node>, ids: set<nat>)
    requires forall n :: n in l ==> n.id !in ids
    ensures Keep(l, ids) == l
  {
    if l != [] {
      KeepAll(l[1..], ids);
    }
  }

  lemma {:induction false} LiveMembers(l: seq<Node>, alive: set<nat>, n: Node)
    ensures n in Live(l, alive) <==> n in l && n.owner in alive
  {
    if l != [] {
      LiveMembers(l[1..], alive, n);
      assert l == [l[0]] + l[1..];
    }
  }

  lemma {:induction false} LiveAscends(l: seq<Node>, alive: set<nat>)
    requires Ascending(l)
    ensures Ascending(Live(l, alive))
  {
    if l != [] {
      LiveAscends(l[1..], alive);
      forall i | 0 <= i < |Live(l[1..], alive)|
        ensures l[0].id < Live(l[1..], alive)[i].id
      {
        LiveMembers(l[1..], alive, Live(l[1..], alive)[i]);
      }
    }
  }

  // ---------- all the lists ----------

  predicate At(lists: Lists, k: EventKey, n: Node) {
    k in lists && n in lists[k]
  }

  ghost predicate Ordered(lists: Lists) {
    forall k :: k in lists ==> Ascending(lists[k])
  }

  /** Positions are below `next`. */
  ghost predicate Below(lists: Lists, next: nat) {
    forall k, n :: At(lists, k, n) ==> n.id < next
  }

  /** No position is used twice. */
  ghost predicate Distinct(lists: Lists) {
    forall k, n, k', n' :: At(lists, k, n) && At(lists, k', n') && n.id == n'.id ==> k == k' && n == n'
  }

  ghost predicate WellFormed(lists: Lists, next: nat) {
    Ordered(lists) && Below(lists, next) && Distinct(lists)
  }

  function Appended(lists: Lists, key: EventKey, n: Node): Lists {
    lists[key := (if key in lists then lists[key] else []) + [n]]
  }

  /** The lists without the positions `ids`; a key goes when its list loses its last node. */
  function RemoveIds(lists: Lists, ids: set<nat>): Lists {
    map k | k in lists && (Keep(lists[k], ids) != [] || lists[k] == []) :: Keep(lists[k], ids)
  }

  lemma RemoveTwice(lists: Lists, a: set<nat>, b: set<nat>)
    ensures RemoveIds(RemoveIds(lists, a), b) == RemoveIds(lists, a + b)
  {
    forall k | k in lists
      ensures Keep(Keep(lists[k], a), b) == Keep(lists[k], a + b)
      ensures lists[k] == [] ==> Keep(lists[k], a) == []
    {
      KeepTwice(lists[k], a, b);
    }
  }

  lemma RemoveNone(lists: Lists)
    ensures RemoveIds(lists, {}) == lists
  {
    forall k | k in lists
      ensures Keep(lists[k], {}) == lists[k]
    {
      KeepAll(lists[k], {});
    }
  }

  /** After removal a key holds exactly its nodes at other positions, in their order. */
  lemma RemoveHolds(lists: Lists, ids: set<nat>, k: EventKey, n: Node)
    ensures At(RemoveIds(lists, ids), k, n) <==> At(lists, k, n) && n.id !in ids
  {
    if k in lists {
      KeepMembers(lists[k], ids, n);
    }
  }

  /** Fewer nodes in the same order keep the form. */
  lemma FewerKeepForm(lists: Lists, after: Lists, next: nat)
    requires WellFormed(lists, next) && Ordered(after)
    requires forall k, n :: At(after, k, n) ==> At(lists, k, n)
    ensures WellFormed(after, next)
  {
  }

  lemma RemoveKeepsForm(lists: Lists, next: nat, ids: set<nat>)
    requires WellFormed(lists, next)
    ensures WellFormed(RemoveIds(lists, ids), next)
  {
    var after := RemoveIds(lists, ids);
    forall k | k in after
      ensures Ascending(after[k])
    {
      KeepAscends(lists[k], ids);
    }
    forall k, n | At(after, k, n)
      ensures At(lists, k, n)
    {
      RemoveHolds(lists, ids, k, n);
    }
    FewerKeepForm(lists, after, next);
  }

  lemma AppendHolds(lists: Lists, key: EventKey, m: Node, k: EventKey, n: Node)
    ensures At(Appended(lists, key, m), k, n) <==> At(lists, k, n) || (k == key && n == m)
  {
  }

  lemma AppendKeepsForm(lists: Lists, next: nat, key: EventKey, m: Node)
    requires WellFormed(lists, next) && m.id == next
    ensures WellFormed(Appended(lists, key, m), next + 1)
  {
    var after: Lists := Appended(lists, key, m);
    var l: seq<Node> := after[key];
    forall i | 0 <= i < |l| - 1
      ensures l[i].id < next
    {
      assert At(lists, key, l[i]);
    }
    forall k, n
      ensures At(after, k, n) <==> At(lists, k, n) || (k == key && n == m)
    {
      AppendHolds(lists, key, m, k, n);
    }
  }

  // ---------- the engine ----------

  /** Erasing at a list position. */
  function EraseNode(l: seq<Node>, id: nat): seq<Node> {
    if l == [] then []
    else if l[0].id == id then l[1..]
    else [l[0]] + EraseNode(l[1..], id)
  }

  lemma {:induction false} EraseIsKeep(l: seq<Node>, id: nat)
    requires Ascending(l)
    ensures EraseNode(l, id) == Keep(l, {id})
  {
    if l != [] {
      if l[0].id == id {
        KeepAll(l[1..], {id});
      } else {
        EraseIsKeep(l[1..], id);
      }
    }
  }

  ghost predicate HasPosition(lists: Lists, key: EventKey, id: nat) {
    exists n :: At(lists, key, n) && n.id == id
  }

  class Engine {
    var lists: Lists
    var next: nat
    var dispatching: bool

    ghost predicate Valid()
      reads this
    {
      WellFormed(lists, next)
    }

    constructor ()
      ensures Valid() && lists == map[] && next == 0 && dispatching
    {
      lists, next, dispatching := map[], 0, true;
    }

    method Dispose()
      modifies this`dispatching
      ensures !dispatching
    {
      dispatching := false;
    }

    method Subscribe(tid: nat, setId: SetId, key: EventKey, owner: nat) returns (position: nat)
      requires Valid()
      modifies this`lists, this`next
      ensures Valid()
      ensures position == old(next) && next == old(next) + 1
      ensures lists == Appended(old(lists), key, Node(position, tid, setId, owner))
    {
      position := next;
      AppendKeepsForm(lists, next, key, Node(position, tid, setId, owner));
      next := next + 1;
      if key !in lists {
        lists := lists[key := []];
      }
      lists := lists[key := lists[key] + [Node(position, tid, setId, owner)]];
      assert lists == Appended(old(lists), key, Node(position, tid, setId, owner));
    }

    /** The position must be one that `Subscribe` gave out for this key and that is still there,
        unless the key has no list at all. */
    method Unsubscribe(key: EventKey, position: nat)
      requires Valid() && (key in lists ==> HasPosition(lists, key, position))
      modifies this`lists
      ensures Valid()
      ensures lists == if key in old(lists) then RemoveIds(old(lists), {position}) else old(lists)
    {
      if key in lists {
        RemoveOne(lists, key, position);
        RemoveKeepsForm(lists, next, {position});
        var l := EraseNode(lists[key], position);
        if l == [] {
          lists := lists - {key};
        } else {
          lists := lists[key := l];
        }
      }
    }

    /** Schedules every live node of the key once, in order, and drops the dead ones. */
    method Notify(key: EventKey, alive: set<nat>) returns (scheduled: seq<Node>)
      requires Valid()
      modifies this`lists
      ensures Valid()
      ensures scheduled == Scheduled(old(lists), dispatching, key, alive)
      ensures lists == Purged(old(lists), dispatching, key, alive)
    {
      scheduled := [];
      if !dispatching || key !in lists {
        return;
      }
      PurgeKeepsForm(lists, next, dispatching, key, alive);
      var l;
      l, scheduled := Sweep(lists[key], alive);
      lists := lists[key := l];
    }
  }

  /** The notification loop over one list: it erases in place and schedules what it passes. */
  method Sweep(before: seq<Node>, alive: set<nat>) returns (l: seq<Node>, scheduled: seq<Node>)
    ensures l == scheduled == Live(before, alive)
  {
    scheduled := [];
    l := before;
    var i := 0;
    while i < |l|
      invariant i <= |l| && scheduled == l[..i]
      invariant scheduled + Live(l[i..], alive) == Live(before, alive)
      decreases |l| - i
    {
      ghost var rest := l[i..];
      if l[i].owner in alive {
        scheduled := scheduled + [l[i]];
        i := i + 1;
        assert l[i..] == rest[1..];
      } else {
        l := l[..i] + l[i + 1..];
        assert l[i..] == rest[1..];
      }
    }
  }

  function Scheduled(lists: Lists, dispatching: bool, key: EventKey, alive: set<nat>): seq<Node> {
    if dispatching && key in lists then Live(lists[key], alive) else []
  }

  function Purged(lists: Lists, dispatching: bool, key: EventKey, alive: set<nat>): Lists {
    if dispatching && key in lists then lists[key := Live(lists[key], alive)] else lists
  }

  lemma KeepOthers(lists: Lists, key: EventKey, id: nat, k: EventKey)
    requires Distinct(lists) && HasPosition(lists, key, id) && k in lists && k != key
    ensures Keep(lists[k], {id}) == lists[k]
  {
    forall n | n in lists[k]
      ensures n.id !in {id}
    {
      assert At(lists, k, n);
    }
    KeepAll(lists[k], {id});
  }

  lemma RemoveOne(lists: Lists, key: EventKey, id: nat)
    requires Ordered(lists) && Distinct(lists) && HasPosition(lists, key, id)
    ensures key in lists && EraseNode(lists[key], id) == Keep(lists[key], {id})
    ensures RemoveIds(lists, {id}) ==
            if Keep(lists[key], {id}) == [] then lists - {key} else lists[key := Keep(lists[key], {id})]
  {
    EraseIsKeep(lists[key], id);
    forall k | k in lists && k != key
      ensures Keep(lists[k], {id}) == lists[k]
    {
      KeepOthers(lists, key, id, k);
    }
  }

  lemma PurgeHolds(lists: Lists, dispatching: bool, key: EventKey, alive: set<nat>, k: EventKey, n: Node)
    ensures At(Purged(lists, dispatching, key, alive), k, n)
       <==> At(lists, k, n) && (dispatching && k == key ==> n.owner in alive)
  {
    if key in lists {
      LiveMembers(lists[key], alive, n);
    }
  }

  lemma PurgeKeepsForm(lists: Lists, next: nat, dispatching: bool, key: EventKey, alive: set<nat>)
    requires WellFormed(lists, next)
    ensures WellFormed(Purged(lists, dispatching, key, alive), next)
  {
    var after := Purged(lists, dispatching, key, alive);
    if key in lists {
      LiveAscends(lists[key], alive);
    }
    forall k, n | At(after, k, n)
      ensures At(lists, k, n)
    {
      PurgeHolds(lists, dispatching, key, alive, k, n);
    }
    FewerKeepForm(lists, after, next);
  }

  // ---------- subscribers ----------

  predicate Has(sets: Sets, g: SetId, k: EventKey) {
    g in sets && k in sets[g]
  }

  /** The node that a subscriber's entry points at is there, under the same key, set and owner. */
  ghost predicate Backed(lists: Lists, sets: Sets, owner: nat, g: SetId, k: EventKey)
    requires Has(sets, g, k)
  {
    exists n :: At(lists, k, n) && n.id == sets[g][k] && n.setId == g && n.owner == owner
  }

  ghost predicate AllBacked(lists: Lists, sets: Sets, owner: nat) {
    forall g, k :: Has(sets, g, k) ==> Backed(lists, sets, owner, g, k)
  }

  /** Every node of the owner is pointed at by the entry for its set and key. */
  ghost predicate AllIndexed(lists: Lists, sets: Sets, owner: nat) {
    forall k, n :: At(lists, k, n) && n.owner == owner ==> Has(sets, n.setId, k) && sets[n.setId][k] == n.id
  }

  /** The subscriber's entries and its nodes in the engine match one to one. */
  ghost predicate Matched(lists: Lists, sets: Sets, owner: nat) {
    AllBacked(lists, sets, owner) && AllIndexed(lists, sets, owner)
  }

  function Positions(sets: Sets, among: set<SetId>): set<nat> {
    set g, k | g in among && g in sets && k in sets[g] :: sets[g][k]
  }

  function Subscribed(sets: Sets, g: SetId, key: EventKey, position: nat): Sets {
    sets[g := (if g in sets then sets[g] else map[])[key := position]]
  }

  lemma BackedPosition(lists: Lists, sets: Sets, owner: nat, g: SetId, k: EventKey)
    requires AllBacked(lists, sets, owner) && Has(sets, g, k)
    ensures HasPosition(lists, k, sets[g][k])
  {
    assert Backed(lists, sets, owner, g, k);
  }

  /** Different entries point at different nodes. */
  lemma PositionsDiffer(lists: Lists, sets: Sets, owner: nat, g: SetId, k: EventKey, g': SetId, k': EventKey)
    requires Distinct(lists) && AllBacked(lists, sets, owner)
    requires Has(sets, g, k) && Has(sets, g', k') && sets[g][k] == sets[g'][k']
    ensures g == g' && k == k'
  {
    assert Backed(lists, sets, owner, g, k) && Backed(lists, sets, owner, g', k');
  }

  class Subscriber {
    const id: nat
    const engine: Engine
    var sets: Sets

    constructor (engine: Engine, id: nat)
      ensures this.engine == engine && this.id == id && sets == map[]
    {
      this.engine, this.id, sets := engine, id, map[];
    }

    /** `up` says whether the engine behind the weak pointer still exists. */
    method Subscribe(up: bool, g: SetId, key: EventKey, tid: nat)
      requires engine.Valid()
      modifies this, engine`lists, engine`next
      ensures engine.Valid()
      ensures if !up || Has(old(sets), g, key) then
                sets == old(sets) && engine.lists == old(engine.lists) && engine.next == old(engine.next)
              else
                && sets == Subscribed(old(sets), g, key, old(engine.next))
                && engine.lists == Appended(old(engine.lists), key, Node(old(engine.next), tid, g, id))
                && engine.next == old(engine.next) + 1
    {
      if up {
        if g !in sets {
          sets := sets[g := map[]];
        }
        if key !in sets[g] {
          var position := engine.Subscribe(tid, g, key, id);
          var subscriptions: map<EventKey, nat> := sets[g][key := position];
          sets := sets[g := subscriptions];
        }
      }
    }

    method UnsubscribeKey(up: bool, g: SetId, key: EventKey) returns (r: bool)
      requires engine.Valid() && (up ==> AllBacked(engine.lists, sets, id))
      modifies this, engine`lists
      ensures engine.Valid()
      ensures r == Has(old(sets), g, key)
      ensures sets == if r then old(sets)[g := old(sets)[g] - {key}] else old(sets)
      ensures engine.lists == if r && up then RemoveIds(old(engine.lists), {old(sets)[g][key]}) else old(engine.lists)
    {
      if g in sets {
        var subscriptions: map<EventKey, nat> := sets[g];
        if key in subscriptions {
          if up {
            BackedPosition(engine.lists, sets, id, g, key);
            engine.Unsubscribe(key, subscriptions[key]);
          }
          subscriptions := subscriptions - {key};
          sets := sets[g := subscriptions];
          return true;
        }
      }
      return false;
    }

    /** Takes one set's nodes out of the engine, in any order of the keys. */
    method RemoveSet(g: SetId)
      requires engine.Valid() && g in sets
      requires Distinct(engine.lists)
      requires forall k :: k in sets[g] ==> HasPosition(engine.lists, k, sets[g][k])
      modifies engine`lists
      ensures engine.Valid()
      ensures engine.lists == RemoveIds(old(engine.lists), sets[g].Values)
    {
      var subscriptions: map<EventKey, nat> := sets[g];
      var left := subscriptions.Keys;
      ghost var was := engine.lists;
      RemoveNone(was);
      assert Taken(subscriptions, {}) == {} && subscriptions.Keys - left == {};
      while left != {}
        invariant engine.Valid() && left <= subscriptions.Keys
        invariant engine.lists == RemoveIds(was, Taken(subscriptions, subscriptions.Keys - left))
        decreases |left|
      {
        var k :| k in left;
        StillThere(was, subscriptions, left, k);
        engine.Unsubscribe(k, subscriptions[k]);
        TakenGrows(was, subscriptions, left, k);
        left := left - {k};
      }
      TakenAll(subscriptions);
    }

    method UnsubscribeSet(up: bool, g: SetId) returns (r: bool)
      requires engine.Valid() && (up ==> AllBacked(engine.lists, sets, id))
      modifies this, engine`lists
      ensures engine.Valid()
      ensures r == (g in old(sets))
      ensures sets == old(sets) - {g}
      ensures engine.lists == if up then RemoveIds(old(engine.lists), Positions(old(sets), {g})) else old(engine.lists)
    {
      RemoveNone(engine.lists);
      if g in sets {
        if up {
          forall k | k in sets[g]
            ensures HasPosition(engine.lists, k, sets[g][k])
          {
            BackedPosition(engine.lists, sets, id, g, k);
          }
          RemoveSet(g);
          assert Positions(sets, {g}) == sets[g].Values;
        }
        sets := sets - {g};
        return true;
      }
      assert Positions(sets, {g}) == {};
      return false;
    }

    method UnsubscribeAll(up: bool)
      requires engine.Valid() && (up ==> AllBacked(engine.lists, sets, id))
      modifies this, engine`lists
      ensures engine.Valid()
      ensures sets == map[]
      ensures engine.lists ==
        if up then RemoveIds(old(engine.lists), Positions(old(sets), old(sets).Keys)) else old(engine.lists)
    {
      if up {
        var left := sets.Keys;
        RemoveNone(engine.lists);
        assert Positions(sets, {}) == {} && sets.Keys - left == {};
        while left != {}
          invariant engine.Valid() && left <= sets.Keys && sets == old(sets)
          invariant engine.lists == RemoveIds(old(engine.lists), Positions(sets, sets.Keys - left))
          decreases |left|
        {
          var g :| g in left;
          SetStillThere(old(engine.lists), sets, id, left, g);
          RemoveSet(g);
          RemoveTwice(old(engine.lists), Positions(sets, sets.Keys - left), sets[g].Values);
          PositionsGrow(sets, sets.Keys - left, g);
          assert sets.Keys - left + {g} == sets.Keys - (left - {g});
          left := left - {g};
        }
        assert sets.Keys - {} == sets.Keys;
      }
      sets := map[];
    }
  }

  lemma PositionsGrow(sets: Sets, among: set<SetId>, g: SetId)
    requires g in sets
    ensures Positions(sets, among + {g}) == Positions(sets, among) + sets[g].Values
  {
  }

  /** The positions that `m` gives to the keys in `done`. */
  ghost function Taken(m: map<EventKey, nat>, done: set<EventKey>): set<nat> {
    set k | k in done && k in m :: m[k]
  }

  lemma TakenGrows(lists: Lists, m: map<EventKey, nat>, left: set<EventKey>, k: EventKey)
    requires k in left && left <= m.Keys
    ensures RemoveIds(RemoveIds(lists, Taken(m, m.Keys - left)), {m[k]})
         == RemoveIds(lists, Taken(m, m.Keys - (left - {k})))
  {
    RemoveTwice(lists, Taken(m, m.Keys - left), {m[k]});
    assert Taken(m, m.Keys - left) + {m[k]} == Taken(m, m.Keys - (left - {k}));
  }

  lemma TakenAll(m: map<EventKey, nat>)
    ensures Taken(m, m.Keys - {}) == m.Values
  {
  }

  /** A position that has not been removed yet is still in its list. */
  lemma StillThere(lists: Lists, m: map<EventKey, nat>, left: set<EventKey>, k: EventKey)
    requires Distinct(lists) && k in left && left <= m.Keys
    requires forall x :: x in m ==> HasPosition(lists, x, m[x])
    ensures HasPosition(RemoveIds(lists, Taken(m, m.Keys - left)), k, m[k])
  {
    var gone := Taken(m, m.Keys - left);
    var n :| At(lists, k, n) && n.id == m[k];
    RemoveHolds(lists, gone, k, n);
  }

  lemma SetStillThere(lists: Lists, sets: Sets, owner: nat, left: set<SetId>, g: SetId)
    requires Distinct(lists) && AllBacked(lists, sets, owner) && g in left && left <= sets.Keys
    ensures forall k :: k in sets[g] ==>
      HasPosition(RemoveIds(lists, Positions(sets, sets.Keys - left)), k, sets[g][k])
  {
    var gone := Positions(sets, sets.Keys - left);
    forall k | k in sets[g]
      ensures HasPosition(RemoveIds(lists, gone), k, sets[g][k])
    {
      assert Has(sets, g, k) && Backed(lists, sets, owner, g, k);
      var n :| At(lists, k, n) && n.id == sets[g][k];
      if n.id in gone {
        var g', k' :| g' in sets.Keys - left && k' in sets[g'] && sets[g'][k'] == n.id;
        assert Has(sets, g', k');
        PositionsDiffer(lists, sets, owner, g, k, g', k');
        assert false;
      }
      RemoveHolds(lists, gone, k, n);
    }
  }
}
