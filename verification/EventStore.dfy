/** The plugin event store (internal/server/plugin_event.go): recent event bodies under a
    byte cap and a time to live, kept in a queue of ids that may point at events
    already dropped. It refines a plain list of events. */
module EventStore {
  import opened Common

  type Id = nat
  type Plugin = nat

  datatype Event = Event(id: Id, hook: string, at: Time, payload: seq<int>, allowed: set<Plugin>)

  // ---------------------------------------------------------------- the simple list

  function Total(l: seq<Event>): nat {
    if l == [] then 0 else |l[0].payload| + Total(l[1..])
  }

  function Unexpired(l: seq<Event>, now: Time, ttl: int): seq<Event> {
    if l == [] then []
    else if now - l[0].at <= ttl then [l[0]] + Unexpired(l[1..], now, ttl)
    else Unexpired(l[1..], now, ttl)
  }

  /** Drop from the front until the rest fits. */
  function Fit(l: seq<Event>, cap: int): seq<Event> {
    if l == [] || Total(l) <= cap then l else Fit(l[1..], cap)
  }

  /** Fit keeps the longest suffix that fits: the most recent events, as many as possible. */
  lemma {:induction false} FitIsLongestSuffix(l: seq<Event>, cap: int) returns (k: nat)
    ensures k <= |l| && Fit(l, cap) == l[k..]
    ensures cap >= 0 ==> Total(Fit(l, cap)) <= cap
    ensures forall j :: 0 <= j < k ==> Total(l[j..]) > cap
    decreases |l|
  {
    if l == [] || Total(l) <= cap {
      k := 0;
      assert l[0..] == l;
    } else {
      var i := FitIsLongestSuffix(l[1..], cap);
      k := i + 1;
      assert l[k..] == l[1..][i..];
      forall j | 0 <= j < k ensures Total(l[j..]) > cap {
        if j == 0 {
          assert l[0..] == l;
        } else {
          assert l[j..] == l[1..][j - 1..];
        }
      }
    }
  }

  function Without(l: seq<Event>, id: Id): seq<Event> {
    if l == [] then []
    else if l[0].id == id then Without(l[1..], id)
    else [l[0]] + Without(l[1..], id)
  }

  function Permit(l: seq<Event>, id: Id, plugin: Plugin): seq<Event> {
    if l == [] then []
    else [if l[0].id == id then l[0].(allowed := l[0].allowed + {plugin}) else l[0]] + Permit(l[1..], id, plugin)
  }

  /** Exactly the events no older than ttl stay. */
  lemma {:induction false} UnexpiredExactly(l: seq<Event>, now: Time, ttl: int)
    ensures forall e :: e in Unexpired(l, now, ttl) <==> e in l && now - e.at <= ttl
    decreases |l|
  {
    if l != [] {
      UnexpiredExactly(l[1..], now, ttl);
      assert l == [l[0]] + l[1..];
    }
  }

  /** Exactly the events under other ids stay. */
  lemma {:induction false} WithoutExactly(l: seq<Event>, id: Id)
    ensures forall e :: e in Without(l, id) <==> e in l && e.id != id
    decreases |l|
  {
    if l != [] {
      WithoutExactly(l[1..], id);
      assert l == [l[0]] + l[1..];
    }
  }

  /** The plugin joins those allowed to see that one event, and nothing else changes. */
  lemma {:induction false} PermitExactly(l: seq<Event>, id: Id, plugin: Plugin, i: nat)
    requires i < |l|
    ensures |Permit(l, id, plugin)| == |l|
    ensures var e, e' := l[i], Permit(l, id, plugin)[i];
      && e'.id == e.id && e'.hook == e.hook && e'.at == e.at && e'.payload == e.payload
      && (forall p :: p in e'.allowed <==> p in e.allowed || (e.id == id && p == plugin))
    decreases |l|
  {
    if |l| > 1 {
      PermitExactly(l[1..], id, plugin, if i > 0 then i - 1 else 0);
    }
  }

  predicate InOrder(l: seq<Event>, clock: Time) {
    && (forall i, j :: 0 <= i < j < |l| ==> l[i].at <= l[j].at)
    && (forall i :: 0 <= i < |l| ==> l[i].at <= clock)
  }

  /** In a list in order, once the first is fresh enough, all are. */
  lemma {:induction false} AllUnexpired(l: seq<Event>, now: Time, ttl: int)
    requires forall i :: 0 <= i < |l| ==> now - l[i].at <= ttl
    ensures Unexpired(l, now, ttl) == l
    decreases |l|
  {
    if l != [] {
      AllUnexpired(l[1..], now, ttl);
    }
  }

  lemma TailInOrder(l: seq<Event>, clock: Time)
    requires InOrder(l, clock) && l != []
    ensures InOrder(l[1..], clock)
  {}

  lemma Cons<T>(x: T, l: seq<T>)
    ensures ([x] + l)[0] == x && ([x] + l)[1..] == l
  {}

  lemma {:induction false} TotalAppend(l: seq<Event>, e: Event)
    ensures Total(l + [e]) == Total(l) + |e.payload|
    decreases |l|
  {
    if l == [] {
      assert l + [e] == [e] && [e][1..] == [];
    } else {
      assert (l + [e])[1..] == l[1..] + [e];
      TotalAppend(l[1..], e);
    }
  }

  // ---------------------------------------------------------------- what the queue and the map stand for

  /** The events behind the ids of the queue, skipping slots whose event is gone. */
  function Live(order: seq<Id>, byId: map<Id, Event>): seq<Event> {
    if order == [] then []
    else if order[0] in byId then [byId[order[0]]] + Live(order[1..], byId)
    else Live(order[1..], byId)
  }

  predicate Distinct(order: seq<Id>) { forall i, j :: 0 <= i < j < |order| ==> order[i] != order[j] }

  predicate Keyed(byId: map<Id, Event>) { forall id :: id in byId ==> byId[id].id == id }

  lemma {:induction false} LiveSame(order: seq<Id>, m: map<Id, Event>, m': map<Id, Event>)
    requires forall id :: id in order ==> (id in m <==> id in m') && (id in m ==> m[id] == m'[id])
    ensures Live(order, m) == Live(order, m')
    decreases |order|
  {
    if order != [] {
      LiveSame(order[1..], m, m');
    }
  }

  lemma {:induction false} LiveAppend(order: seq<Id>, m: map<Id, Event>, id: Id)
    requires id in m
    ensures Live(order + [id], m) == Live(order, m) + [m[id]]
    decreases |order|
  {
    if order == [] {
      assert order + [id] == [id] && [id][1..] == [];
    } else {
      assert (order + [id])[0] == order[0] && (order + [id])[1..] == order[1..] + [id];
      LiveAppend(order[1..], m, id);
      if order[0] in m {
        assert [m[order[0]]] + (Live(order[1..], m) + [m[id]]) == [m[order[0]]] + Live(order[1..], m) + [m[id]];
      }
    }
  }

  lemma {:induction false} LiveMember(order: seq<Id>, m: map<Id, Event>, id: Id)
    requires Keyed(m)
    ensures (exists e :: e in Live(order, m) && e.id == id) <==> id in order && id in m
    ensures forall e :: e in Live(order, m) ==> e.id in m && m[e.id] == e
    decreases |order|
  {
    if order != [] {
      LiveMember(order[1..], m, id);
      if order[0] == id && id in m {
        assert Live(order, m)[0] == m[id];
      }
      if id in order && id in m && order[0] != id {
        assert id in order[1..];
        var e :| e in Live(order[1..], m) && e.id == id;
        assert e in Live(order, m);
      }
    }
  }

  /** Removing one event from the map removes it from the list, and takes its bytes with it. */
  lemma {:induction false} LiveDrop(order: seq<Id>, m: map<Id, Event>, id: Id)
    requires Distinct(order) && Keyed(m) && id in m
    ensures Live(order, m - {id}) == Without(Live(order, m), id)
    ensures Total(Live(order, m)) == Total(Live(order, m - {id})) + (if id in order then |m[id].payload| else 0)
    decreases |order|
  {
    if order != [] {
      var tail := order[1..];
      assert Distinct(tail);
      LiveDrop(tail, m, id);
      if order[0] in m {
        Cons(m[order[0]], Live(tail, m));
        Cons(m[order[0]], Live(tail, m - {id}));
      }
      assert id in order <==> id == order[0] || id in tail;
      assert order[0] == id ==> id !in tail;
    }
  }

  lemma {:induction false} NothingToDrop(order: seq<Id>, m: map<Id, Event>, id: Id)
    requires Keyed(m) && id !in m
    ensures Without(Live(order, m), id) == Live(order, m)
    decreases |order|
  {
    if order != [] {
      NothingToDrop(order[1..], m, id);
      if order[0] in m {
        Cons(m[order[0]], Live(order[1..], m));
      }
    }
  }

  lemma {:induction false} LivePermit(order: seq<Id>, m: map<Id, Event>, id: Id, plugin: Plugin)
    requires Keyed(m) && id in m
    ensures Live(order, m[id := m[id].(allowed := m[id].allowed + {plugin})]) == Permit(Live(order, m), id, plugin)
    ensures Total(Permit(Live(order, m), id, plugin)) == Total(Live(order, m))
    decreases |order|
  {
    if order != [] {
      LivePermit(order[1..], m, id, plugin);
      if order[0] in m {
        var e := m[order[0]];
        var e' := if e.id == id then e.(allowed := e.allowed + {plugin}) else e;
        Cons(e, Live(order[1..], m));
        Cons(e', Permit(Live(order[1..], m), id, plugin));
      }
    }
  }

  lemma {:induction false} WithoutKeepsOrder(l: seq<Event>, id: Id, clock: Time)
    requires InOrder(l, clock)
    ensures InOrder(Without(l, id), clock)
    ensures forall e :: e in Without(l, id) ==> e in l
    decreases |l|
  {
    if l != [] {
      var rest := Without(l[1..], id);
      WithoutKeepsOrder(l[1..], id, clock);
      forall i | 0 <= i < |rest| ensures l[0].at <= rest[i].at {
        assert rest[i] in l[1..];
      }
    }
  }

  lemma {:induction false} PermitKeepsOrder(l: seq<Event>, id: Id, plugin: Plugin)
    ensures |Permit(l, id, plugin)| == |l|
    ensures forall i :: 0 <= i < |l| ==> Permit(l, id, plugin)[i].at == l[i].at
    decreases |l|
  {
    if l != [] {
      PermitKeepsOrder(l[1..], id, plugin);
    }
  }

  /** Taking the first slot off the queue, with its event if that is still there. */
  lemma PopFront(order: seq<Id>, m: map<Id, Event>)
    requires order != [] && Distinct(order) && Keyed(m)
    ensures Distinct(order[1..]) && order[0] !in order[1..]
    ensures Live(order[1..], m - {order[0]}) == if order[0] in m then Live(order, m)[1..] else Live(order, m)
    ensures order[0] in m ==> Live(order, m) != [] && Live(order, m)[0] == m[order[0]]
  {
    LiveSame(order[1..], m, m - {order[0]});
  }

  // ---------------------------------------------------------------- the object

  datatype Lookup = NotFound | Found(payload: seq<int>)

  class Store {
    const ttl: int
    const maxBytes: int
    var bytes: int
    var order: seq<Id>
    var byId: map<Id, Event>
    ghost var clock: Time

    /** The list this store stands for. */
    ghost function List(): seq<Event>
      reads this
    {
      Live(order, byId)
    }

    ghost predicate Valid()
      reads this
    {
      && Distinct(order) && Keyed(byId)
      && (forall id :: id in byId ==> id in order)
      && bytes == Total(List())
      && InOrder(List(), clock)
    }

    constructor (ttl: int, maxBytes: int, ghost now: Time)
      ensures Valid() && List() == [] && clock == now && this.ttl == ttl && this.maxBytes == maxBytes
    {
      this.ttl, this.maxBytes := ttl, maxBytes;
      bytes, order, byId, clock := 0, [], map[], now;
    }

    method EvictExpired(now: Time)
      requires Valid() && clock <= now
      modifies this`bytes, this`order, this`byId
      ensures Valid()
      ensures List() == Unexpired(old(List()), now, ttl)
      ensures forall id :: id in order ==> id in old(order)
    {
      while |order| > 0
        invariant Valid()
        invariant Unexpired(List(), now, ttl) == Unexpired(old(List()), now, ttl)
        invariant forall id :: id in order ==> id in old(order)
        decreases |order|
      {
        var id := order[0];
        PopFront(order, byId);
        if id in byId && now - byId[id].at <= ttl {
          AllUnexpired(List(), now, ttl);
          return;
        }
        PopOldest();
      }
    }

    /** Take the first slot off the queue, and its event with it. */
    method PopOldest()
      requires Valid() && |order| > 0
      modifies this`bytes, this`order, this`byId
      ensures Valid() && order == old(order)[1..]
      ensures List() == if old(order)[0] in old(byId) then old(List())[1..] else old(List())
    {
      PopFront(order, byId);
      ghost var l := List();
      var id := order[0];
      order := order[1..];
      if id in byId {
        bytes := bytes - |byId[id].payload|;
        byId := byId - {id};
        TailInOrder(l, clock);
      } else {
        assert byId - {id} == byId;
      }
    }

    /** DropLocked: the event goes, its slot in the queue stays. */
    method Drop(id: Id)
      requires Valid()
      modifies this`bytes, this`byId
      ensures Valid()
      ensures List() == Without(old(List()), id)
    {
      if id !in byId {
        NothingToDrop(order, byId, id);
        return;
      }
      LiveDrop(order, byId, id);
      WithoutKeepsOrder(List(), id, clock);
      bytes := bytes - |byId[id].payload|;
      byId := byId - {id};
    }

    method EvictOverCap()
      requires Valid()
      modifies this`bytes, this`order, this`byId
      ensures Valid()
      ensures List() == Fit(old(List()), maxBytes)
    {
      while bytes > maxBytes && |order| > 0
        invariant Valid()
        invariant Fit(List(), maxBytes) == Fit(old(List()), maxBytes)
        decreases |order|
      {
        PopFront(order, byId);
        PopOldest();
      }
    }

    /** Store a payload under an id not in the queue. */
    method Add(id: Id, hook: string, payload: seq<int>, now: Time)
      requires Valid() && clock <= now && id !in order
      modifies this
      ensures Valid() && clock == now
      ensures List() == Fit(Unexpired(old(List()), now, ttl) + [Event(id, hook, now, payload, {})], maxBytes)
      ensures maxBytes >= 0 ==> bytes <= maxBytes
    {
      EvictExpired(now);
      Append(Event(id, hook, now, payload, {}));
      var k := FitIsLongestSuffix(List(), maxBytes);
      EvictOverCap();
    }

    method Append(e: Event)
      requires Valid() && clock <= e.at && e.id !in order
      modifies this
      ensures Valid() && clock == e.at
      ensures List() == old(List()) + [e]
    {
      ghost var l, m := List(), byId;
      byId := byId[e.id := e];
      LiveSame(order, m, byId);
      LiveAppend(order, byId, e.id);
      TotalAppend(l, e);
      order := order + [e.id];
      bytes := bytes + |e.payload|;
      clock := e.at;
    }

    method Allow(id: Id, plugin: Plugin)
      requires Valid()
      modifies this`byId
      ensures Valid()
      ensures List() == if id in old(byId) then Permit(old(List()), id, plugin) else old(List())
    {
      if id in byId {
        LivePermit(order, byId, id, plugin);
        PermitKeepsOrder(List(), id, plugin);
        byId := byId[id := byId[id].(allowed := byId[id].allowed + {plugin})];
      }
    }

    /** A plugin sees an event exactly while it is in the list, fresh enough, and handed
        to that plugin; looking at one that is too old drops it. */
    method Get(id: Id, plugin: Plugin, now: Time) returns (r: Lookup)
      requires Valid() && clock <= now
      modifies this
      ensures Valid() && clock == now
      ensures forall e :: e in old(List()) && e.id == id ==>
        && List() == (if now - e.at > ttl then Without(old(List()), id) else old(List()))
        && r == (if now - e.at <= ttl && plugin in e.allowed then Found(e.payload) else NotFound)
      ensures (forall e :: e in old(List()) ==> e.id != id) ==> r == NotFound && List() == old(List())
    {
      LiveMember(order, byId, id);
      clock := now;
      if id !in byId {
        return NotFound;
      }
      var ev := byId[id];
      if now - ev.at > ttl {
        Drop(id);
        return NotFound;
      }
      if plugin !in ev.allowed {
        return NotFound;
      }
      return Found(ev.payload);
    }
  }
}
