/**
 Whole operations on the bus, by any number of threads and interleaved step by step: subscribe, publish,
 unsubscribe and close, with Go's panics on a closed channel modelled rather than excluded.
 */
module PubSubRuns {
  import opened PubSub

  /** Where a thread is between two critical sections. */
  datatype Thread =
    | Idle
    | Publishing(note: Note, rest: seq<nat>)             // has read the table, and has still to deliver to these
    | Sending(note: Note, sub: nat, rest: seq<nat>)      // in deliver, with stateMu read-locked
    | Unsubscribing(sub: nat)                                                // has not removed it from the table yet
    | Closing(subs: seq<nat>)                                                // has still to close these

  /** What became of the message at one recipient's turn. */
  datatype Handled = Delivered(sub: nat) | WasClosed(sub: nat) | WasFull(sub: nat, length: nat) | Failed(sub: nat)

  /** One publish: its message, whom it goes to in which order, and what it has done so far. */
  datatype Note = Note(id: nat, msg: Message, mode: PublishMode, order: seq<nat>, log: seq<Handled>)

  /** A message put into a buffer, and by which publish. */
  datatype Sent = Sent(publish: nat, msg: Message)

  /**
   What has happened, which no step looks at: how many publishes have begun, what was put into and taken out of each
   subscription's buffer, and the publishes that ended normally.
   */
  datatype History = History(begun: nat, sent: map<nat, seq<Sent>>, taken: map<nat, seq<Message>>, finished: seq<Note>) {
    function SentTo(i: nat): seq<Sent> { if i in sent then sent[i] else [] }
    function TakenFrom(i: nat): seq<Message> { if i in taken then taken[i] else [] }
  }

  const NO_HISTORY := History(0, map[], map[], [])

  datatype System = System(bus: BusState, threads: seq<Thread>, panicked: bool, past: History)

  datatype Action =
    | Subscribe(topic: string)
    | StartPublish(c: nat, msg: Message, mode: PublishMode, order: seq<nat>)
    | BeginDeliver(c: nat)
    | Send(c: nat)
    | Abort(c: nat)
    | FinishPublish(c: nat)
    | StartUnsubscribe(c: nat, sub: nat)
    | Remove(c: nat)
    | StartClose(c: nat, order: seq<nat>)
    | CloseOne(c: nat)
    | FinishClose(c: nat)
    | Receive(sub: nat)

  ghost predicate Enumerates(order: seq<nat>, subs: set<nat>) {
    (forall i :: i in order <==> i in subs) && forall j, k | 0 <= j < k < |order| :: order[j] != order[k]
  }

  function SubsFor(b: BusState, topic: string): set<nat> { set id | id in SubsOf(b, topic) :: SubsOf(b, topic)[id] }

  ghost predicate Enabled(s: System, a: Action) {
    match a
    case Subscribe(_) => true
    case StartPublish(c, msg, _, order) => c < |s.threads| && s.threads[c].Idle? && Enumerates(order, SubsFor(s.bus, msg.topic))
    case BeginDeliver(c) => c < |s.threads| && s.threads[c].Publishing? && s.threads[c].rest != [] && s.threads[c].rest[0] < |s.bus.subs|
    case Send(c) =>
      && c < |s.threads| && s.threads[c].Sending? && s.threads[c].sub < |s.bus.subs| && !s.threads[c].note.mode.OtherMode?
      && |s.bus.subs[s.threads[c].sub].ch.buffer| < s.bus.capacity
    case Abort(c) =>
      && c < |s.threads| && s.threads[c].Sending? && s.threads[c].sub < |s.bus.subs|
      && (s.threads[c].note.mode.NonBlocking? ==> |s.bus.subs[s.threads[c].sub].ch.buffer| >= s.bus.capacity)
    case FinishPublish(c) => c < |s.threads| && s.threads[c].Publishing? && s.threads[c].rest == []
    case StartUnsubscribe(c, sub) => c < |s.threads| && s.threads[c].Idle? && sub < |s.bus.subs|
    case Remove(c) => c < |s.threads| && s.threads[c].Unsubscribing? && s.threads[c].sub < |s.bus.subs|
    case StartClose(c, order) => c < |s.threads| && s.threads[c].Idle? && Enumerates(order, AllRegistered(s.bus))
    case CloseOne(c) =>
      && c < |s.threads| && s.threads[c].Closing? && s.threads[c].subs != [] && s.threads[c].subs[0] < |s.bus.subs|
      && s.bus.subs[s.threads[c].subs[0]].readers == {}    // the write lock of stateMu
    case FinishClose(c) => c < |s.threads| && s.threads[c].Closing? && s.threads[c].subs == []
    case Receive(sub) => sub < |s.bus.subs| && s.bus.subs[sub].ch.buffer != []
  }

  function Put(b: BusState, i: nat, sub: Subscription): BusState
    requires i < |b.subs|
  {
    b.(subs := b.subs[i := sub])
  }

  function Adds(note: Note, h: Handled): Note { note.(log := note.log + [h]) }

  /** A publisher that is not blocking passes over a full buffer, or fails for its unknown mode. */
  function Skipped(s: System, t: Thread): Handled
    requires t.Sending? && t.sub < |s.bus.subs|
  {
    if t.note.mode.NonBlocking? then WasFull(t.sub, |s.bus.subs[t.sub].ch.buffer|) else Failed(t.sub)
  }

  function Next(s: System, a: Action): System
    requires Enabled(s, a)
  {
    match a
    case Subscribe(topic) => s.(bus := Subscribed(s.bus, topic).0)
    case StartPublish(c, msg, mode, order) =>
      if msg.topic == "" || s.bus.closed then s else 
        s.(threads := s.threads[c := Publishing(Note(s.past.begun, msg, mode, order, []), order)],
           past := s.past.(begun := s.past.begun + 1))
    case BeginDeliver(c) =>
      var t := s.threads[c];
      var i, sub := t.rest[0], s.bus.subs[t.rest[0]];
      if sub.closed then s.(threads := s.threads[c := Publishing(Adds(t.note, WasClosed(i)), t.rest[1..])])
      else s.(bus := Put(s.bus, i, sub.(readers := sub.readers + {c})),
              threads := s.threads[c := Sending(t.note, i, t.rest[1..])])
    case Send(c) =>
      var t := s.threads[c];
      var sub := s.bus.subs[t.sub];
      s.(bus := Put(s.bus, t.sub, sub.(ch := sub.ch.(buffer := sub.ch.buffer + [t.note.msg]), readers := sub.readers - {c})),
         threads := s.threads[c := Publishing(Adds(t.note, Delivered(t.sub)), t.rest)],
         panicked := s.panicked || !sub.ch.open,
         past := s.past.(sent := s.past.sent[t.sub := s.past.SentTo(t.sub) + [Sent(t.note.id, t.note.msg)]]))
    case Abort(c) =>
      var t := s.threads[c];
      var sub := s.bus.subs[t.sub];
      s.(bus := Put(s.bus, t.sub, sub.(readers := sub.readers - {c})),
         threads := s.threads[c := if t.note.mode.Blocking? then Idle else Publishing(Adds(t.note, Skipped(s, t)), t.rest)])
    case FinishPublish(c) => s.(threads := s.threads[c := Idle], past := s.past.(finished := s.past.finished + [s.threads[c].note]))
    case StartUnsubscribe(c, sub) => s.(threads := s.threads[c := Unsubscribing(sub)])
    case Remove(c) =>
      var i := s.threads[c].sub;
      s.(bus := Removed(s.bus, s.bus.subs[i].topic, s.bus.subs[i].id), threads := s.threads[c := Closing([i])])
    case StartClose(c, order) =>
      if s.bus.closed then s else s.(bus := Emptied(s.bus), threads := s.threads[c := Closing(order)])
    case CloseOne(c) =>
      var t := s.threads[c];
      var sub := s.bus.subs[t.subs[0]];
      if sub.closed then s.(threads := s.threads[c := Closing(t.subs[1..])])
      else s.(bus := Put(s.bus, t.subs[0], sub.(closed := true, ch := sub.ch.(open := false))),
              threads := s.threads[c := Closing(t.subs[1..])],
              panicked := s.panicked || !sub.ch.open)
    case FinishClose(c) => s.(threads := s.threads[c := Idle])
    case Receive(i) =>
      var sub := s.bus.subs[i];
      s.(bus := Put(s.bus, i, sub.(ch := sub.ch.(buffer := sub.ch.buffer[1..]))),
         past := s.past.(taken := s.past.taken[i := s.past.TakenFrom(i) + [sub.ch.buffer[0]]]))
  }

  // ---------------------------------------------------------------- the invariant

  /** One subscription: its flag and its channel agree, its messages are of its topic and fit. */
  ghost predicate GoodSub(capacity: nat, sub: Subscription) {
    && (sub.closed <==> !sub.ch.open) && (sub.closed ==> sub.readers == {})
    && |sub.ch.buffer| <= capacity && forall m | m in sub.ch.buffer :: m.topic == sub.topic
  }

  ghost predicate GoodSubs(b: BusState) { forall i | 0 <= i < |b.subs| :: GoodSub(b.capacity, b.subs[i]) }

  /** These are subscriptions, all to one topic. */
  ghost predicate OfTopic(b: BusState, subs: seq<nat>, topic: string) {
    forall i | i in subs :: i < |b.subs| && b.subs[i].topic == topic
  }

  /** One thread: what it works on exists, is of its message's topic, is read-locked while it sends, and off the table once it is to be closed. */
  ghost predicate GoodThread(b: BusState, c: nat, t: Thread) {
    match t
    case Idle => true
    case Publishing(note, rest) => OfTopic(b, rest, note.msg.topic)
    case Sending(note, i, rest) =>
      i < |b.subs| && b.subs[i].topic == note.msg.topic && c in b.subs[i].readers && OfTopic(b, rest, note.msg.topic)
    case Unsubscribing(i) => i < |b.subs|
    case Closing(subs) => forall i | i in subs :: i < |b.subs| && !Registered(b, i)
  }

  ghost predicate GoodThreads(s: System) { forall c | 0 <= c < |s.threads| :: GoodThread(s.bus, c, s.threads[c]) }

  ghost predicate AreSending(threads: seq<Thread>, readers: set<nat>, i: nat) {
    forall c | c in readers :: c < |threads| && threads[c].Sending? && threads[c].sub == i
  }

  /** Only threads inside deliver hold a read lock. */
  ghost predicate ReadersSend(s: System) {
    forall i | 0 <= i < |s.bus.subs| :: AreSending(s.threads, s.bus.subs[i].readers, i)
  }

  ghost predicate Held(s: System, i: nat) { exists c :: 0 <= c < |s.threads| && s.threads[c].Closing? && i in s.threads[c].subs }

  /** An open subscription is registered, or an Unsubscribe or Close is still due to close it; a registered one is open. */
  ghost predicate NoneForgotten(s: System) {
    forall i | 0 <= i < |s.bus.subs| ::
      && (!s.bus.subs[i].closed ==> Registered(s.bus, i) || Held(s, i))
      && (Registered(s.bus, i) ==> !s.bus.subs[i].closed)
  }

  ghost predicate Inv(s: System) {
    Table(s.bus) && GoodSubs(s.bus) && GoodThreads(s) && ReadersSend(s) && NoneForgotten(s) && !s.panicked
  }

  ghost predicate Initial(s: System) {
    && s.bus == BusState(false, map[], 0, s.bus.capacity, []) && s.bus.capacity > 0 && !s.panicked
    && s.past == NO_HISTORY
    && forall c | 0 <= c < |s.threads| :: s.threads[c].Idle?
  }

  lemma InitialInv(s: System)
    requires Initial(s)
    ensures Inv(s)
  {
  }

  // ---------------------------------------------------------------- one step

  /** Replacing one thread and leaving the bus. */
  lemma ThreadMoves(s: System, c: nat, t: Thread, past: History)
    requires Inv(s) && c < |s.threads| && GoodThread(s.bus, c, t)
    requires !s.threads[c].Sending? && (s.threads[c].Closing? ==> forall i | i in s.threads[c].subs :: i < |s.bus.subs| && (s.bus.subs[i].closed || (t.Closing? && i in t.subs)))
    ensures Inv(s.(threads := s.threads[c := t], past := past))
  {
    hide Table, GoodSubs, GoodThread, Registered;
    var after := s.(threads := s.threads[c := t], past := past);
    forall i | 0 <= i < |s.bus.subs| && !s.bus.subs[i].closed && Held(s, i) ensures Held(after, i) {
      var d :| 0 <= d < |s.threads| && s.threads[d].Closing? && i in s.threads[d].subs;
      assert after.threads[d].Closing? && i in after.threads[d].subs;
    }
  }

  /** Replacing a subscription by one with the same name leaves the table alone. */
  lemma PutKeepsTable(b: BusState, i: nat, sub: Subscription)
    requires Table(b) && i < |b.subs| && sub.id == b.subs[i].id && sub.topic == b.subs[i].topic
    ensures Table(Put(b, i, sub))
    ensures forall j | 0 <= j < |b.subs| :: Registered(Put(b, i, sub), j) <==> Registered(b, j)
  {
    var after := Put(b, i, sub);
    assert forall t :: SubsOf(after, t) == SubsOf(b, t);
  }

  /** Another thread stays good when a subscription changes but keeps its name and that thread's read lock. */
  lemma PutKeepsThread(b: BusState, i: nat, sub: Subscription, d: nat, t: Thread)
    requires Table(b) && i < |b.subs| && sub.id == b.subs[i].id && sub.topic == b.subs[i].topic
    requires d in b.subs[i].readers ==> d in sub.readers
    requires GoodThread(b, d, t)
    ensures GoodThread(Put(b, i, sub), d, t)
  {
    hide Table, Registered;
    PutKeepsTable(b, i, sub);
  }

  lemma PutKeepsTopics(b: BusState, i: nat, sub: Subscription, subs: seq<nat>, topic: string)
    requires i < |b.subs| && sub.topic == b.subs[i].topic && OfTopic(b, subs, topic)
    ensures OfTopic(Put(b, i, sub), subs, topic)
  {
  }

  lemma Tail(subs: seq<nat>)
    requires subs != []
    ensures forall i :: i in subs <==> i == subs[0] || i in subs[1..]
  {
    assert subs == [subs[0]] + subs[1..];
  }

  /** One thread and one subscription change together, the other threads' read locks staying as they are. */
  lemma BothMove(s: System, c: nat, t: Thread, i: nat, sub: Subscription, past: History)
    requires Inv(s) && c < |s.threads| && i < |s.bus.subs|
    requires sub.id == s.bus.subs[i].id && sub.topic == s.bus.subs[i].topic && GoodSub(s.bus.capacity, sub)
    requires GoodThread(Put(s.bus, i, sub), c, t)
    requires forall d | d != c :: d in sub.readers <==> d in s.bus.subs[i].readers
    requires c in sub.readers <==> t.Sending?
    requires t.Sending? ==> t.sub == i && !s.threads[c].Sending?
    requires s.threads[c].Sending? ==> s.threads[c].sub == i
    requires sub.closed ==> s.bus.subs[i].closed || !Registered(s.bus, i)
    requires s.bus.subs[i].closed ==> sub.closed
    requires s.threads[c].Closing? ==>
               forall j | j in s.threads[c].subs :: (j == i && sub.closed) || (t.Closing? && j in t.subs)
    ensures Inv(s.(bus := Put(s.bus, i, sub), threads := s.threads[c := t], past := past))
  {
    hide Table, GoodThread, Registered, GoodSub;
    var after := s.(bus := Put(s.bus, i, sub), threads := s.threads[c := t], past := past);
    PutKeepsTable(s.bus, i, sub);
    forall d | 0 <= d < |after.threads| ensures GoodThread(after.bus, d, after.threads[d]) {
      if d != c { PutKeepsThread(s.bus, i, sub, d, s.threads[d]); }
    }
    forall j | 0 <= j < |after.bus.subs| && !after.bus.subs[j].closed && Held(s, j) ensures Held(after, j) {
      var d :| 0 <= d < |s.threads| && s.threads[d].Closing? && j in s.threads[d].subs;
      assert after.threads[d].Closing? && j in after.threads[d].subs;
    }
    assert after.threads[c] == t;
  }

  lemma SubscribeKeepsInv(s: System, topic: string)
    requires Inv(s)
    ensures Inv(Next(s, Subscribe(topic)))
  {
    hide Table, GoodSub, Registered;
    SubscribedKeepsTable(s.bus, topic);
    var after := Next(s, Subscribe(topic));
    assert after.bus.capacity == s.bus.capacity;
    forall i | 0 <= i < |after.bus.subs| ensures GoodSub(after.bus.capacity, after.bus.subs[i]) { NewSubIsGood(s.bus, topic, i); }
    forall i | 0 <= i < |s.bus.subs| && Held(s, i) ensures Held(after, i) {
      var d :| 0 <= d < |s.threads| && s.threads[d].Closing? && i in s.threads[d].subs;
      assert after.threads[d].Closing? && i in after.threads[d].subs;
    }
    forall c | 0 <= c < |s.threads| ensures GoodThread(after.bus, c, after.threads[c]) {
      assert GoodThread(s.bus, c, s.threads[c]);
    }
    NewSubHasNoReaders(s.bus, topic);
  }

  lemma NewSubIsGood(b: BusState, topic: string, i: nat)
    requires GoodSubs(b) && i < |Subscribed(b, topic).0.subs|
    ensures GoodSub(b.capacity, Subscribed(b, topic).0.subs[i])
  {
  }

  lemma NewSubHasNoReaders(b: BusState, topic: string)
    ensures forall i | |b.subs| <= i < |Subscribed(b, topic).0.subs| :: Subscribed(b, topic).0.subs[i].readers == {}
  {
  }

  lemma RemoveKeepsInv(s: System, c: nat)
    requires Inv(s) && Enabled(s, Remove(c))
    ensures Inv(Next(s, Remove(c)))
  {
    hide Table, GoodSub, Registered;
    var i := s.threads[c].sub;
    RemovedKeepsTable(s.bus, i);
    var after := Next(s, Remove(c));
    assert after.bus.subs == s.bus.subs && after.bus.capacity == s.bus.capacity;
    forall j | 0 <= j < |s.bus.subs| && Held(s, j) ensures Held(after, j) {
      var d :| 0 <= d < |s.threads| && s.threads[d].Closing? && j in s.threads[d].subs;
      assert after.threads[d].Closing? && j in after.threads[d].subs;
    }
    assert Held(after, i) by { assert after.threads[c].Closing? && i in after.threads[c].subs; }
    forall d | 0 <= d < |s.threads| ensures GoodThread(after.bus, d, after.threads[d]) {
      assert GoodThread(s.bus, d, s.threads[d]);
    }
  }

  lemma CloseKeepsInv(s: System, c: nat, order: seq<nat>)
    requires Inv(s) && Enabled(s, StartClose(c, order))
    ensures Inv(Next(s, StartClose(c, order)))
  {
    hide Table, GoodSub, Registered, AllRegistered;
    if !s.bus.closed {
      EmptiedKeepsTable(s.bus);
      var after := Next(s, StartClose(c, order));
      forall i | i in order ensures i < |s.bus.subs| { InTable(s.bus, i); }
      forall i | 0 <= i < |s.bus.subs| && !s.bus.subs[i].closed ensures Held(after, i) {
        if Registered(s.bus, i) {
          AllRegisteredMeans(s.bus, i);
          assert after.threads[c].Closing? && i in after.threads[c].subs;
        } else {
          var d :| 0 <= d < |s.threads| && s.threads[d].Closing? && i in s.threads[d].subs;
          assert after.threads[d].Closing? && i in after.threads[d].subs;
        }
      }
      forall d | 0 <= d < |s.threads| ensures GoodThread(after.bus, d, after.threads[d]) {
        assert GoodThread(s.bus, d, s.threads[d]);
      }
    }
  }

  lemma InTable(b: BusState, i: nat)
    requires Table(b) && i in AllRegistered(b)
    ensures i < |b.subs|
  {
    var t, id :| t in b.topics && id in b.topics[t] && b.topics[t][id] == i;
    assert id in SubsOf(b, t);
  }

  lemma RecipientsAreOfTopic(b: BusState, topic: string, order: seq<nat>)
    requires Table(b) && Enumerates(order, SubsFor(b, topic))
    ensures OfTopic(b, order, topic)
  {
  }

  lemma DeliverKeepsInv(s: System, c: nat)
    requires Inv(s) && Enabled(s, BeginDeliver(c))
    ensures Inv(Next(s, BeginDeliver(c)))
  {
    hide Table, Registered;
    var t := s.threads[c];
    Tail(t.rest);
    assert GoodThread(s.bus, c, t);
    var i, sub := t.rest[0], s.bus.subs[t.rest[0]];
    if sub.closed {
      ThreadMoves(s, c, Publishing(Adds(t.note, WasClosed(i)), t.rest[1..]), s.past);
    } else {
      PutKeepsTopics(s.bus, i, sub.(readers := sub.readers + {c}), t.rest[1..], t.note.msg.topic);
      BothMove(s, c, Sending(t.note, i, t.rest[1..]), i, sub.(readers := sub.readers + {c}), s.past);
    }
  }

  lemma SendKeepsInv(s: System, c: nat)
    requires Inv(s) && Enabled(s, Send(c))
    ensures Inv(Next(s, Send(c)))
  {
    hide Table, Registered;
    var t := s.threads[c];
    assert GoodThread(s.bus, c, t);
    var sub := s.bus.subs[t.sub];
    assert GoodSub(s.bus.capacity, sub);
    var sent := sub.(ch := sub.ch.(buffer := sub.ch.buffer + [t.note.msg]), readers := sub.readers - {c});
    PutKeepsTopics(s.bus, t.sub, sent, t.rest, t.note.msg.topic);
    BothMove(s, c, Publishing(Adds(t.note, Delivered(t.sub)), t.rest), t.sub, sent, Next(s, Send(c)).past);
  }

  lemma AbortKeepsInv(s: System, c: nat)
    requires Inv(s) && Enabled(s, Abort(c))
    ensures Inv(Next(s, Abort(c)))
  {
    hide Table, Registered;
    var t := s.threads[c];
    assert GoodThread(s.bus, c, t);
    var sub := s.bus.subs[t.sub];
    assert GoodSub(s.bus.capacity, sub);
    PutKeepsTopics(s.bus, t.sub, sub.(readers := sub.readers - {c}), t.rest, t.note.msg.topic);
    BothMove(s, c, if t.note.mode.Blocking? then Idle else Publishing(Adds(t.note, Skipped(s, t)), t.rest), t.sub,
             sub.(readers := sub.readers - {c}), s.past);
  }

  lemma CloseOneKeepsInv(s: System, c: nat)
    requires Inv(s) && Enabled(s, CloseOne(c))
    ensures Inv(Next(s, CloseOne(c)))
  {
    hide Table;
    var t := s.threads[c];
    Tail(t.subs);
    assert GoodThread(s.bus, c, t);
    var i, sub := t.subs[0], s.bus.subs[t.subs[0]];
    assert GoodSub(s.bus.capacity, sub);
    if sub.closed {
      ThreadMoves(s, c, Closing(t.subs[1..]), s.past);
    } else {
      var shut := sub.(closed := true, ch := sub.ch.(open := false));
      PutKeepsThread(s.bus, i, shut, c, t);
      BothMove(s, c, Closing(t.subs[1..]), i, shut, s.past);
    }
  }

  lemma ReceiveKeepsInv(s: System, i: nat)
    requires Inv(s) && Enabled(s, Receive(i))
    ensures Inv(Next(s, Receive(i)))
  {
    hide Table, Registered, GoodThread;
    var sub := s.bus.subs[i];
    assert GoodSub(s.bus.capacity, sub);
    var taken := sub.(ch := sub.ch.(buffer := sub.ch.buffer[1..]));
    var after := Next(s, Receive(i));
    PutKeepsTable(s.bus, i, taken);
    forall d | 0 <= d < |s.threads| ensures GoodThread(after.bus, d, after.threads[d]) {
      PutKeepsThread(s.bus, i, taken, d, s.threads[d]);
    }
    forall j | 0 <= j < |s.bus.subs| && Held(s, j) ensures Held(after, j) {
      var d :| 0 <= d < |s.threads| && s.threads[d].Closing? && j in s.threads[d].subs;
      assert after.threads[d].Closing? && j in after.threads[d].subs;
    }
  }

  /** Every step keeps the invariant; in particular none panics. */
  lemma NextKeepsInv(s: System, a: Action)
    requires Inv(s) && Enabled(s, a)
    ensures Inv(Next(s, a))
  {
    hide Table, Registered, GoodSubs, ReadersSend, NoneForgotten, Enumerates;
    match a {
      case Subscribe(topic) => SubscribeKeepsInv(s, topic);
      case StartPublish(c, msg, mode, order) =>
        if !(msg.topic == "" || s.bus.closed) {
          RecipientsAreOfTopic(s.bus, msg.topic, order);
          ThreadMoves(s, c, Publishing(Note(s.past.begun, msg, mode, order, []), order), s.past.(begun := s.past.begun + 1));
        }
      case BeginDeliver(c) => DeliverKeepsInv(s, c);
      case Send(c) => SendKeepsInv(s, c);
      case Abort(c) => AbortKeepsInv(s, c);
      case FinishPublish(c) => ThreadMoves(s, c, Idle, s.past.(finished := s.past.finished + [s.threads[c].note]));
      case StartUnsubscribe(c, sub) => ThreadMoves(s, c, Unsubscribing(sub), s.past);
      case Remove(c) => RemoveKeepsInv(s, c);
      case StartClose(c, order) => CloseKeepsInv(s, c, order);
      case CloseOne(c) => CloseOneKeepsInv(s, c);
      case FinishClose(c) => ThreadMoves(s, c, Idle, s.past);
      case Receive(i) => ReceiveKeepsInv(s, i);
    }
  }

  // ---------------------------------------------------------------- every run

  ghost predicate Reaches(s: System, actions: seq<Action>, t: System)
    decreases |actions|
  {
    if actions == [] then s == t
    else Enabled(s, actions[0]) && Reaches(Next(s, actions[0]), actions[1..], t)
  }

  lemma {:induction false} RunKeepsInv(s: System, actions: seq<Action>, t: System)
    requires Inv(s) && Reaches(s, actions, t)
    ensures Inv(t)
    decreases |actions|
  {
    hide Inv, Next, Enabled;
    if actions != [] {
      NextKeepsInv(s, actions[0]);
      RunKeepsInv(Next(s, actions[0]), actions[1..], t);
    }
  }

  /**
   In every interleaving: no message is sent on a closed channel and no channel is closed twice; every open
   subscription is registered under its own topic and id or still due to be closed; buffers hold only messages
   of their own topic and never more than their capacity.
   */
  lemma EveryInterleaving(s: System, actions: seq<Action>, t: System)
    requires Initial(s) && Reaches(s, actions, t)
    ensures !t.panicked
    ensures forall i | 0 <= i < |t.bus.subs| ::
              && (!t.bus.subs[i].closed ==> Registered(t.bus, i) || Held(t, i))
              && (Registered(t.bus, i) ==> !t.bus.subs[i].closed && t.bus.subs[i].ch.open)
              && |t.bus.subs[i].ch.buffer| <= t.bus.capacity
              && forall m | m in t.bus.subs[i].ch.buffer :: m.topic == t.bus.subs[i].topic
  {
    hide Table, GoodThreads, ReadersSend, Reaches, Registered, Held;
    InitialInv(s);
    RunKeepsInv(s, actions, t);
    assert forall i | 0 <= i < |t.bus.subs| :: GoodSub(t.bus.capacity, t.bus.subs[i]);
  }

  /** Once the bus is closed and every operation has returned, every channel ever handed out is closed. */
  lemma ClosedBusForgetsNobody(s: System, actions: seq<Action>, t: System, i: nat)
    requires Initial(s) && Reaches(s, actions, t) && t.bus.closed && i < |t.bus.subs|
    requires forall c | 0 <= c < |t.threads| :: t.threads[c].Idle?
    ensures t.bus.subs[i].closed && !t.bus.subs[i].ch.open
  {
    hide GoodThreads, ReadersSend, Reaches;
    InitialInv(s);
    RunKeepsInv(s, actions, t);
    assert GoodSub(t.bus.capacity, t.bus.subs[i]);
  }

  // ---------------------------------------------------------------- progress

  /** Thread c can take a step of its own, short of its context being cancelled. */
  ghost predicate CanStep(s: System, c: nat) {
    || Enabled(s, BeginDeliver(c)) || Enabled(s, Send(c)) || Enabled(s, FinishPublish(c)) || Enabled(s, Remove(c))
    || Enabled(s, CloseOne(c)) || Enabled(s, FinishClose(c))
    || (Enabled(s, Abort(c)) && !s.threads[c].note.mode.Blocking?)
  }

  /** A blocking publisher on a full buffer; it holds the subscription's state lock for reading. */
  ghost predicate BlockedSender(s: System, c: nat) {
    && c < |s.threads| && s.threads[c].Sending? && s.threads[c].note.mode.Blocking? && s.threads[c].sub < |s.bus.subs|
    && |s.bus.subs[s.threads[c].sub].ch.buffer| >= s.bus.capacity
  }

  /** An Unsubscribe or Close whose next subscription is locked by a thread inside deliver. */
  ghost predicate WaitingCloser(s: System, c: nat) {
    && c < |s.threads| && s.threads[c].Closing? && s.threads[c].subs != [] && s.threads[c].subs[0] < |s.bus.subs|
    && s.bus.subs[s.threads[c].subs[0]].readers != {}
  }

  /** An operation in progress is stuck exactly when it is one of these two. */
  lemma StuckExactly(s: System, actions: seq<Action>, t: System, c: nat)
    requires Initial(s) && Reaches(s, actions, t) && c < |t.threads| && !t.threads[c].Idle?
    ensures !CanStep(t, c) <==> BlockedSender(t, c) || WaitingCloser(t, c)
  {
    hide Table, Reaches, Registered, GoodSubs, ReadersSend, NoneForgotten;
    InitialInv(s);
    RunKeepsInv(s, actions, t);
    var x := t.threads[c];
    assert GoodThread(t.bus, c, x);
    match x {
      case Publishing(_, rest) => if rest != [] { assert rest[0] in rest; }
      case Closing(subs) => if subs != [] { assert subs[0] in subs; }
      case _ =>
    }
  }

  /** What a waiting closer waits for is inside deliver on its subscription: able to go on, or blocked on a full buffer. */
  lemma CloserWaitsForSender(s: System, actions: seq<Action>, t: System, c: nat)
    requires Initial(s) && Reaches(s, actions, t) && WaitingCloser(t, c)
    ensures exists d :: 0 <= d < |t.threads| && t.threads[d].Sending? && t.threads[d].sub == t.threads[c].subs[0]
                        && (CanStep(t, d) || BlockedSender(t, d))
  {
    hide Table, Reaches, Registered, GoodSubs, NoneForgotten, CanStep, BlockedSender, Enabled;
    InitialInv(s);
    RunKeepsInv(s, actions, t);
    var i := t.threads[c].subs[0];
    var d :| d in t.bus.subs[i].readers;
    assert AreSending(t.threads, t.bus.subs[i].readers, i);
    StuckExactly(s, actions, t, d);
    if WaitingCloser(t, d) { assert false; }
  }

  /**
   Every stuck state is of one kind. If operations are in progress and none can take a step, a blocking publisher waits on
   a full buffer; taking one message out of that buffer lets it go on.
   */
  lemma StuckOnFullBuffer(s: System, actions: seq<Action>, t: System, c: nat)
    requires Initial(s) && Reaches(s, actions, t) && c < |t.threads| && !t.threads[c].Idle?
    requires forall d | 0 <= d < |t.threads| :: !CanStep(t, d)
    ensures exists d | 0 <= d < |t.threads| ::
              BlockedSender(t, d) && Enabled(t, Receive(t.threads[d].sub)) && Enabled(Next(t, Receive(t.threads[d].sub)), Send(d))
  {
    hide Reaches, GoodThreads, ReadersSend, NoneForgotten, CanStep, Table, GoodSubs, Enabled, Next;
    InitialInv(s);
    RunKeepsInv(s, actions, t);
    StuckExactly(s, actions, t, c);
    var d := c;
    if WaitingCloser(t, c) {
      CloserWaitsForSender(s, actions, t, c);
      d :| 0 <= d < |t.threads| && t.threads[d].Sending? && (CanStep(t, d) || BlockedSender(t, d));
    }
    ReceiveUnblocks(t, d);
  }

  lemma ReceiveUnblocks(t: System, d: nat)
    requires Table(t.bus) && GoodSubs(t.bus) && BlockedSender(t, d)
    ensures Enabled(t, Receive(t.threads[d].sub)) && Enabled(Next(t, Receive(t.threads[d].sub)), Send(d))
  {
    assert GoodSub(t.bus.capacity, t.bus.subs[t.threads[d].sub]);
  }

  const MESSAGE := Message("t", 1)

  /** One subscription to topic t on a bus with room for one message, and two threads: a publisher and the reader. */
  function OneReader(buffer: seq<Message>, readers: set<nat>, registered: bool, publisher: Thread, reader: Thread, past: History): System {
    System(BusState(false, if registered then map["t" := map[1 := 0]] else map[], 1, 1,
                    [Subscription(1, "t", false, Channel(buffer, true), readers)]),
           [publisher, reader], false, past)
  }

  /** The note of a publish of the message to the one subscription. */
  function NoteOf(id: nat, log: seq<Handled>): Note { Note(id, MESSAGE, Blocking, [0], log) }

  lemma StepThen(s: System, a: Action, t: System, rest: seq<Action>, u: System)
    requires Enabled(s, a) && Next(s, a) == t && Reaches(t, rest, u)
    ensures Reaches(s, [a] + rest, u)
  {
    hide Enabled, Next;
    assert ([a] + rest)[0] == a && ([a] + rest)[1..] == rest;
  }

  lemma OneRecipient(b: BusState)
    requires b.topics == map["t" := map[1 := 0]]
    ensures SubsFor(b, "t") == {0}
  {
    assert 1 in SubsOf(b, "t") && SubsOf(b, "t")[1] == 0;
  }

  /** A publisher that has just begun to publish comes to be inside deliver. */
  lemma PublisherEnters(buffer: seq<Message>, past: History, rest: seq<Action>, u: System)
    requires Reaches(OneReader(buffer, {0}, true, Sending(NoteOf(past.begun, []), 0, []), Idle, past.(begun := past.begun + 1)), rest, u)
    ensures Reaches(OneReader(buffer, {}, true, Idle, Idle, past),
                    [StartPublish(0, MESSAGE, Blocking, [0])] + ([BeginDeliver(0)] + rest), u)
  {
    hide Reaches;
    var later := past.(begun := past.begun + 1);
    var s, p := OneReader(buffer, {}, true, Idle, Idle, past),
                OneReader(buffer, {}, true, Publishing(NoteOf(past.begun, []), [0]), Idle, later);
    var q := OneReader(buffer, {0}, true, Sending(NoteOf(past.begun, []), 0, []), Idle, later);
    OneRecipient(s.bus);
    assert Enumerates([0], {0});
    assert Next(s, StartPublish(0, MESSAGE, Blocking, [0])) == p;
    assert [0][1..] == [] && {} + {0} == {0};
    assert Next(p, BeginDeliver(0)) == q;
    StepThen(p, BeginDeliver(0), q, rest, u);
    StepThen(s, StartPublish(0, MESSAGE, Blocking, [0]), p, [BeginDeliver(0)] + rest, u);
  }

  /** The history after the first message was put in. */
  const ONE_SENT := History(1, map[0 := [Sent(0, MESSAGE)]], map[], [NoteOf(0, [Delivered(0)])])

  /** The message goes into the buffer and the publisher returns. */
  lemma PublisherSends(rest: seq<Action>, u: System)
    requires Reaches(OneReader([MESSAGE], {}, true, Idle, Idle, ONE_SENT), rest, u)
    ensures Reaches(OneReader([], {0}, true, Sending(NoteOf(0, []), 0, []), Idle, NO_HISTORY.(begun := 1)),
                    [Send(0)] + ([FinishPublish(0)] + rest), u)
  {
    hide Reaches;
    var between := NO_HISTORY.(begun := 1, sent := map[0 := [Sent(0, MESSAGE)]]);
    var q, p := OneReader([], {0}, true, Sending(NoteOf(0, []), 0, []), Idle, NO_HISTORY.(begun := 1)),
                OneReader([MESSAGE], {}, true, Publishing(NoteOf(0, [Delivered(0)]), []), Idle, between);
    var s := OneReader([MESSAGE], {}, true, Idle, Idle, ONE_SENT);
    assert [] + [MESSAGE] == [MESSAGE] && {0} - {0} == {} && [] + [Delivered(0)] == [Delivered(0)];
    assert [] + [Sent(0, MESSAGE)] == [Sent(0, MESSAGE)];
    var none: map<nat, seq<Sent>> := map[];
    assert none[0 := [Sent(0, MESSAGE)]] == map[0 := [Sent(0, MESSAGE)]];
    assert Next(q, Send(0)) == p;
    assert [] + [NoteOf(0, [Delivered(0)])] == [NoteOf(0, [Delivered(0)])];
    assert Next(p, FinishPublish(0)) == s;
    StepThen(p, FinishPublish(0), s, rest, u);
    StepThen(q, Send(0), p, [FinishPublish(0)] + rest, u);
  }

  /** The reader unsubscribes: its subscription is off the table, and it has to close it. */
  lemma ReaderLeaves(q: Thread, past: History)
    ensures Reaches(OneReader([MESSAGE], {0}, true, q, Idle, past), [StartUnsubscribe(1, 0)] + ([Remove(1)] + []),
                    OneReader([MESSAGE], {0}, false, q, Closing([0]), past))
  {
    hide Reaches;
    var s, r, u := OneReader([MESSAGE], {0}, true, q, Idle, past), OneReader([MESSAGE], {0}, true, q, Unsubscribing(0), past),
                   OneReader([MESSAGE], {0}, false, q, Closing([0]), past);
    assert Next(s, StartUnsubscribe(1, 0)) == r;
    assert map[1 := 0] - {1} == map[];
    assert map["t" := map[1 := 0]] - {"t"} == map[];
    assert Next(r, Remove(1)) == u;
    assert Reaches(u, [], u) by { NoSteps(u); }
    StepThen(r, Remove(1), u, [], u);
    StepThen(s, StartUnsubscribe(1, 0), r, [Remove(1)] + [], u);
  }

  lemma NoSteps(s: System)
    ensures Reaches(s, [], s)
  {
  }

  /**
   The only reader of a subscription may be the one that waits: it unsubscribes while a publisher blocks on the full
   buffer, and neither thread can take a step.
   */
  lemma UnsubscribingReaderWaits()
    ensures exists s, actions, t ::
              && Initial(s) && Reaches(s, actions, t) && |t.threads| == 2
              && t.threads[1] == Closing([0]) && !CanStep(t, 0) && !CanStep(t, 1)
  {
    hide Reaches, Enabled, Next, CanStep, Initial;
    var s := System(BusState(false, map[], 0, 1, []), [Idle, Idle], false, NO_HISTORY);
    var q, past := Sending(NoteOf(1, []), 0, []), ONE_SENT.(begun := 2);
    var t := OneReader([MESSAGE], {0}, false, q, Closing([0]), past);
    var leave := [StartUnsubscribe(1, 0)] + ([Remove(1)] + []);
    ReaderLeaves(q, past);
    PublisherEnters([MESSAGE], ONE_SENT, leave, t);
    var second := [StartPublish(0, MESSAGE, Blocking, [0])] + ([BeginDeliver(0)] + leave);
    PublisherSends(second, t);
    var first := [Send(0)] + ([FinishPublish(0)] + second);
    PublisherEnters([], NO_HISTORY, first, t);
    var all := [StartPublish(0, MESSAGE, Blocking, [0])] + ([BeginDeliver(0)] + first);
    ReaderSubscribes(s);
    StepThen(s, Subscribe("t"), OneReader([], {}, true, Idle, Idle, NO_HISTORY), all, t);
    BothWait(t);
  }

  lemma BothWait(t: System)
    requires t == OneReader([MESSAGE], {0}, false, Sending(NoteOf(1, []), 0, []), Closing([0]), ONE_SENT.(begun := 2))
    ensures !CanStep(t, 0) && !CanStep(t, 1)
  {
    assert 0 in t.bus.subs[0].readers;
  }

  lemma ReaderSubscribes(s: System)
    requires s == System(BusState(false, map[], 0, 1, []), [Idle, Idle], false, NO_HISTORY)
    ensures Initial(s) && Enabled(s, Subscribe("t")) && Next(s, Subscribe("t")) == OneReader([], {}, true, Idle, Idle, NO_HISTORY)
  {
    var inner: map<nat, nat> := map[][1 := 0];
    assert inner == map[1 := 0];
    assert [] + [Subscription(1, "t", false, Channel([], true), {})] == [Subscription(1, "t", false, Channel([], true), {})];
    assert Subscribed(s.bus, "t").0 == OneReader([], {}, true, Idle, Idle, NO_HISTORY).bus;
  }
}
