/**
 The in-process message bus of core/shared/pkg/pubsub/pubsub.go: its critical sections as methods of a mutable
 bus. The interleaving of whole operations is in PubSubRuns.dfy.
 */
module PubSub {

  datatype Message = Message(topic: string, data: int)

  datatype PublishMode = Blocking | NonBlocking | OtherMode

  datatype Channel = Channel(buffer: seq<Message>, open: bool)

  /** A subscription: `readers` are the threads inside deliver, which hold its stateMu for reading. */
  datatype Subscription = Subscription(id: nat, topic: string, closed: bool, ch: Channel, readers: set<nat>)

  datatype BusError = TopicRequired | BusClosed
  datatype BusResult<T> = Ok(value: T) | Err(error: BusError)

  /** The bus and all subscriptions ever made; a subscription is named by its place in `subs`. */
  datatype BusState = BusState(
    closed: bool, topics: map<string, map<nat, nat>>, nextSubID: nat, capacity: nat, subs: seq<Subscription>)

  /** The map of one topic, empty if the topic has none. */
  function SubsOf(b: BusState, topic: string): map<nat, nat> { if topic in b.topics then b.topics[topic] else map[] }

  predicate Registered(b: BusState, i: nat)
    requires i < |b.subs|
  {
    b.subs[i].id in SubsOf(b, b.subs[i].topic) && SubsOf(b, b.subs[i].topic)[b.subs[i].id] == i
  }

  /** The table is in order: each entry is under its subscription's own topic and id, and no topic is left empty. */
  ghost predicate Table(b: BusState) {
    && b.capacity > 0 && b.nextSubID == |b.subs|
    && (forall i | 0 <= i < |b.subs| :: b.subs[i].id == i + 1 && b.subs[i].topic != "")
    && (forall t | t in b.topics :: b.topics[t] != map[])
    && (forall t, id | id in SubsOf(b, t) ::
          SubsOf(b, t)[id] < |b.subs| && b.subs[SubsOf(b, t)[id]].id == id && b.subs[SubsOf(b, t)[id]].topic == t)
    && (b.closed ==> b.topics == map[])
  }

  // ---------------------------------------------------------------- the critical sections as functions

  /** What Subscribe does inside its lock. */
  function Subscribed(b: BusState, topic: string): (BusState, BusResult<nat>) {
    if topic == "" then (b, Err(TopicRequired))
    else if b.closed then (b, Err(BusClosed))
    else
      var id := b.nextSubID + 1;
      (b.(nextSubID := id,
          topics := b.topics[topic := SubsOf(b, topic)[id := |b.subs|]],
          subs := b.subs + [Subscription(id, topic, false, Channel([], true), {})]),
       Ok(|b.subs|))
  }

  /** removeSubscription */
  function Removed(b: BusState, topic: string, id: nat): BusState {
    var rest := SubsOf(b, topic) - {id};
    if SubsOf(b, topic) == map[] then b
    else b.(topics := if rest == map[] then b.topics - {topic} else b.topics[topic := rest])
  }

  /** Close's critical section: the table is taken away. */
  function Emptied(b: BusState): BusState { b.(closed := true, topics := map[]) }

  /** All subscriptions in the table. */
  function AllRegistered(b: BusState): set<nat> { set t, id | t in b.topics && id in b.topics[t] :: b.topics[t][id] }

  lemma SubscribedTable(b: BusState, topic: string)
    requires Table(b)
    ensures Table(Subscribed(b, topic).0)
  {
    var (after, r) := Subscribed(b, topic);
    if r.Ok? {
      var id := b.nextSubID + 1;
      assert SubsOf(after, topic) == SubsOf(b, topic)[id := |b.subs|];
      assert forall t | t != topic :: SubsOf(after, t) == SubsOf(b, t);
      assert id in after.topics[topic];
      forall t, k | k in SubsOf(after, t)
        ensures SubsOf(after, t)[k] < |after.subs| && after.subs[SubsOf(after, t)[k]].id == k
                && after.subs[SubsOf(after, t)[k]].topic == t
      {
        if t != topic || k != id { assert k in SubsOf(b, t) && SubsOf(after, t)[k] == SubsOf(b, t)[k] < |b.subs|; }
      }
    }
  }

  /** A new subscription is open and registered, and the others stay as they were. */
  lemma SubscribedKeepsTable(b: BusState, topic: string)
    requires Table(b)
    ensures var (after, r) := Subscribed(b, topic);
            && Table(after)
            && (r.Ok? <==> topic != "" && !b.closed)
            && (r.Ok? ==> r.value == |b.subs| && |after.subs| == |b.subs| + 1 && Registered(after, r.value)
                          && !after.subs[r.value].closed && after.subs[r.value].topic == topic)
            && forall i | 0 <= i < |b.subs| :: after.subs[i] == b.subs[i] && (Registered(after, i) <==> Registered(b, i))
  {
    SubscribedTable(b, topic);
    var (after, r) := Subscribed(b, topic);
    if r.Ok? {
      var id := b.nextSubID + 1;
      assert SubsOf(after, topic) == SubsOf(b, topic)[id := |b.subs|];
      assert forall t | t != topic :: SubsOf(after, t) == SubsOf(b, t);
      forall i | 0 <= i < |b.subs| ensures Registered(after, i) <==> Registered(b, i) { assert b.subs[i].id != id; }
    }
  }

  lemma RemovedKeepsTable(b: BusState, i: nat)
    requires Table(b) && i < |b.subs|
    ensures var after := Removed(b, b.subs[i].topic, b.subs[i].id);
            && Table(after) && after.subs == b.subs && !Registered(after, i)
            && forall j | 0 <= j < |b.subs| && j != i :: Registered(after, j) <==> Registered(b, j)
  {
    var topic, id := b.subs[i].topic, b.subs[i].id;
    var after := Removed(b, topic, id);
    assert after.subs == b.subs;
    assert forall t | t != topic :: SubsOf(after, t) == SubsOf(b, t);
    assert SubsOf(after, topic) == SubsOf(b, topic) - {id};
  }

  lemma EmptiedKeepsTable(b: BusState)
    requires Table(b)
    ensures Table(Emptied(b)) && forall i | 0 <= i < |b.subs| :: !Registered(Emptied(b), i)
  {
  }

  lemma AllRegisteredMeans(b: BusState, i: nat)
    requires Table(b) && i < |b.subs|
    ensures i in AllRegistered(b) <==> Registered(b, i)
  {
    if i in AllRegistered(b) {
      var t, id :| t in b.topics && id in b.topics[t] && b.topics[t][id] == i;
      assert id in SubsOf(b, t);
    }
    if Registered(b, i) {
      assert b.subs[i].topic in b.topics && b.subs[i].id in b.topics[b.subs[i].topic];
    }
  }

  // ---------------------------------------------------------------- the bus itself

  class Bus {
    var closed: bool
    var topics: map<string, map<nat, nat>>
    var nextSubID: nat
    const bufferSize: nat
    var subs: seq<Subscription>

    ghost function State(): BusState
      reads this
    {
      BusState(closed, topics, nextSubID, bufferSize, subs)
    }

    /** New */
    constructor (bufferSize: int)
      ensures State() == BusState(false, map[], 0, if bufferSize <= 0 then 16 else bufferSize, []) && Table(State())
    {
      closed, topics, nextSubID, subs := false, map[], 0, [];
      this.bufferSize := if bufferSize <= 0 then 16 else bufferSize;
    }

    method Subscribe(topic: string) returns (r: BusResult<nat>)
      requires Table(State())
      modifies this
      ensures (State(), r) == Subscribed(old(State()), topic) && Table(State())
      ensures r.Ok? ==> r.value < |subs| && Registered(State(), r.value) && subs[r.value].topic == topic && !subs[r.value].closed
    {
      hide Table, Registered;
      SubscribedKeepsTable(State(), topic);
      if topic == "" { return Err(TopicRequired); }
      if closed { return Err(BusClosed); }
      nextSubID := nextSubID + 1;
      if topic !in topics {
        topics := topics[topic := map[]];
      }
      var inner: map<nat, nat> := topics[topic][nextSubID := |subs|];
      topics := topics[topic := inner];
      subs := subs + [Subscription(nextSubID, topic, false, Channel([], true), {})];
      assert topics == Subscribed(old(State()), topic).0.topics;
      return Ok(|subs| - 1);
    }

    /** The first half of publish: whom the message goes to. */
    method Recipients(topic: string) returns (r: BusResult<seq<nat>>)
      requires Table(State())
      ensures r.Ok? <==> topic != "" && !closed
      ensures r.Ok? ==>
                && (forall i: nat :: i in r.value <==> i < |subs| && Registered(State(), i) && subs[i].topic == topic)
                && (forall j, k | 0 <= j < k < |r.value| :: r.value[j] != r.value[k])
    {
      if topic == "" { return Err(TopicRequired); }
      if closed { return Err(BusClosed); }
      var subsMap := if topic in topics then topics[topic] else map[];
      assert subsMap == SubsOf(State(), topic);
      var found: seq<nat> := [];
      var left := subsMap.Keys;
      while left != {}
        invariant left <= subsMap.Keys
        invariant forall i :: i in found <==> exists id :: id in subsMap.Keys && id !in left && subsMap[id] == i
        invariant forall j, k | 0 <= j < k < |found| :: found[j] != found[k]
        decreases |left|
      {
        var id :| id in left;
        assert subsMap[id] !in found by {
          assert forall other | other in subsMap.Keys && other !in left :: subs[subsMap[other]].id == other;
          assert subs[subsMap[id]].id == id;
        }
        found := found + [subsMap[id]];
        left := left - {id};
      }
      forall i: nat ensures i in found <==> i < |subs| && Registered(State(), i) && subs[i].topic == topic {
        if i in found { assert exists id :: id in subsMap.Keys && subsMap[id] == i; }
        if i < |subs| && Registered(State(), i) && subs[i].topic == topic { assert subs[i].id in subsMap.Keys; }
      }
      return Ok(found);
    }

    /** removeSubscription, for the subscription at place i */
    method RemoveSubscription(i: nat)
      requires Table(State()) && i < |subs|
      modifies this`topics
      ensures State() == Removed(old(State()), subs[i].topic, subs[i].id)
      ensures Table(State()) && !Registered(State(), i)
    {
      hide Registered;
      RemovedKeepsTable(State(), i);
      var topic, id := subs[i].topic, subs[i].id;
      if topic !in topics { return; }
      var rest := topics[topic] - {id};
      topics := topics[topic := rest];
      if rest == map[] {
        topics := topics - {topic};
      }
      assert topics == Removed(old(State()), topic, id).topics;
    }
  }
}
