/**
 That messages arrive: a publish that ends normally has, in its order and once each, put its message into the buffer of
 every recipient that was not closed when its turn came (or, not blocking, not full); and every buffer is received
 first in, first out.
 */
module PubSubDelivery {
  import opened PubSub
  import opened PubSubRuns

  /** How many of the entries are of the publish. */
  function Puts(sent: seq<Sent>, id: nat): nat {
    if sent == [] then 0 else Puts(sent[..|sent| - 1], id) + if sent[|sent| - 1].publish == id then 1 else 0
  }

  /** How many of the entries say that the message was delivered to subscription i. */
  function Deliveries(log: seq<Handled>, i: nat): nat {
    if log == [] then 0 else Deliveries(log[..|log| - 1], i) + if log[|log| - 1] == Delivered(i) then 1 else 0
  }

  /** Whose turns the log records. */
  function Turns(log: seq<Handled>): (subs: seq<nat>)
    ensures |subs| == |log| && forall k | 0 <= k < |log| :: subs[k] == log[k].sub
  {
    seq(|log|, k requires 0 <= k < |log| => log[k].sub)
  }

  function Messages(sent: seq<Sent>): (messages: seq<Message>)
    ensures |messages| == |sent| && forall k | 0 <= k < |sent| :: messages[k] == sent[k].msg
  {
    seq(|sent|, k requires 0 <= k < |sent| => sent[k].msg)
  }

  /** An entry of the log is justified: who was passed over was closed (and still is) or full, by a publish that may do so. */
  ghost predicate Justified(b: BusState, mode: PublishMode, h: Handled) {
    match h
    case Delivered(_) => mode.Blocking? || mode.NonBlocking?
    case WasClosed(i) => i < |b.subs| && b.subs[i].closed
    case WasFull(_, length) => mode.NonBlocking? && length >= b.capacity
    case Failed(_) => mode.OtherMode?
  }

  /** The note of a publish tells the truth: what it says was delivered is what was put in, of its message, once for once. */
  ghost predicate True(s: System, n: Note) {
    && n.id < s.past.begun
    && (forall h | h in n.log :: Justified(s.bus, n.mode, h))
    && (forall i: nat :: Puts(s.past.SentTo(i), n.id) == Deliveries(n.log, i))
    && (forall i: nat, p | p in s.past.SentTo(i) && p.publish == n.id :: p.msg == n.msg)
  }

  /** A publish in progress has dealt with the front of its order and has the rest before it. */
  ghost predicate OnCourse(t: Thread) {
    match t
    case Publishing(n, rest) => Turns(n.log) + rest == n.order
    case Sending(n, i, rest) => Turns(n.log) + [i] + rest == n.order
    case _ => true
  }

  predicate Live(t: Thread) { t.Publishing? || t.Sending? }

  ghost predicate LiveNotes(s: System) {
    forall c | 0 <= c < |s.threads| && Live(s.threads[c]) :: True(s, s.threads[c].note) && OnCourse(s.threads[c])
  }

  ghost predicate FinishedNotes(s: System) {
    forall n | n in s.past.finished :: True(s, n) && Turns(n.log) == n.order
  }

  /** No two publishes share an id. */
  ghost predicate OwnIDs(s: System) {
    && (forall c, d | 0 <= c < d < |s.threads| && Live(s.threads[c]) && Live(s.threads[d]) ::
          s.threads[c].note.id != s.threads[d].note.id)
    && (forall c, n | 0 <= c < |s.threads| && Live(s.threads[c]) && n in s.past.finished :: s.threads[c].note.id != n.id)
    && (forall i: nat, p | p in s.past.SentTo(i) :: p.publish < s.past.begun)
  }

  function BufferOf(b: BusState, i: nat): seq<Message> { if i < |b.subs| then b.subs[i].ch.buffer else [] }

  /** Each buffer holds what was put in and not yet taken out, in that order. */
  ghost predicate InOrder(s: System) {
    forall i: nat :: Messages(s.past.SentTo(i)) == s.past.TakenFrom(i) + BufferOf(s.bus, i)
  }

  ghost predicate Delivery(s: System) { LiveNotes(s) && FinishedNotes(s) && OwnIDs(s) && InOrder(s) }

  lemma InitialDelivery(s: System)
    requires Initial(s)
    ensures Delivery(s)
  {
    assert forall i: nat :: s.past.SentTo(i) == [] && s.past.TakenFrom(i) == [];
  }

  /** The bus after a step: it has the subscriptions it had, what was closed is closed, and the capacity is the same. */
  ghost predicate Later(b: BusState, later: BusState) {
    && b.capacity == later.capacity && |b.subs| <= |later.subs|
    && forall i | 0 <= i < |b.subs| :: b.subs[i].closed ==> later.subs[i].closed
  }

  /** A true note stays true as long as nothing is put in under its id. */
  lemma NoteStays(s: System, t: System, n: Note)
    requires True(s, n) && Later(s.bus, t.bus) && s.past.begun <= t.past.begun
    requires forall i: nat :: Puts(t.past.SentTo(i), n.id) == Puts(s.past.SentTo(i), n.id)
    requires forall i: nat, p | p in t.past.SentTo(i) && p.publish == n.id :: p in s.past.SentTo(i)
    ensures True(t, n)
  {
    hide Puts, Deliveries;
    forall h | h in n.log ensures Justified(t.bus, n.mode, h) { assert Justified(s.bus, n.mode, h); }
  }

  /** A step that puts nothing in and takes nothing out, by a thread that is not publishing before or after. */
  lemma QuietStep(s: System, t: System)
    requires Delivery(s) && t.past == s.past && Later(s.bus, t.bus)
    requires forall i: nat :: BufferOf(t.bus, i) == BufferOf(s.bus, i)
    requires |t.threads| == |s.threads|
    requires forall c | 0 <= c < |t.threads| :: t.threads[c] == s.threads[c] || !Live(t.threads[c])
    ensures Delivery(t)
  {
    hide True, OnCourse, Later, BufferOf, Puts;
    forall n | True(s, n) ensures True(t, n) { NoteStays(s, t, n); }
  }

  /** A publisher's step that puts nothing in: it records a turn, or goes from one half of a turn to the other. */
  lemma TurnStep(s: System, t: System, c: nat)
    requires Delivery(s) && t.past == s.past && Later(s.bus, t.bus)
    requires forall i: nat :: BufferOf(t.bus, i) == BufferOf(s.bus, i)
    requires c < |s.threads| == |t.threads| && forall d | 0 <= d < |t.threads| && d != c :: t.threads[d] == s.threads[d]
    requires Live(s.threads[c])
    requires Live(t.threads[c]) ==>
               && t.threads[c].note.id == s.threads[c].note.id && OnCourse(t.threads[c]) && True(t, t.threads[c].note)
    ensures Delivery(t)
  {
    hide True, OnCourse, Later, BufferOf, Puts;
    forall n | True(s, n) ensures True(t, n) { NoteStays(s, t, n); }
  }

  /** Recording a turn at which nothing was delivered. */
  lemma TurnRecorded(s: System, t: System, n: Note, h: Handled)
    requires True(s, n) && Later(s.bus, t.bus) && t.past == s.past && !h.Delivered? && Justified(t.bus, n.mode, h)
    ensures True(t, Adds(n, h))
  {
    hide Puts;
    NoteStays(s, t, n);
    assert Adds(n, h).log[..|n.log|] == n.log;
  }

  lemma StartPublishDelivery(s: System, c: nat, msg: Message, mode: PublishMode, order: seq<nat>)
    requires Delivery(s) && Enabled(s, StartPublish(c, msg, mode, order))
    ensures Delivery(Next(s, StartPublish(c, msg, mode, order)))
  {
    hide True, Puts, Enumerates;
    var t := Next(s, StartPublish(c, msg, mode, order));
    SameBuffers(s, t);
    if t != s {
      forall n | True(s, n) ensures True(t, n) { NoteStays(s, t, n); }
      forall n | n in s.past.finished ensures n.id < s.past.begun { assert True(s, n); IDsBegun(s, n); }
      forall d | 0 <= d < |s.threads| && Live(s.threads[d]) ensures s.threads[d].note.id < s.past.begun { IDsBegun(s, s.threads[d].note); }
      NewNote(s, t, Note(s.past.begun, msg, mode, order, []));
      assert Turns([]) + order == order;
    }
  }

  /** When nothing is put in or taken out, the order of what there is stays. */
  lemma SameBuffers(s: System, t: System)
    requires InOrder(s) && t.past.sent == s.past.sent && t.past.taken == s.past.taken && t.bus == s.bus
    ensures InOrder(t) && forall i: nat :: t.past.SentTo(i) == s.past.SentTo(i)
  {
    hide Messages;
    forall i: nat ensures Messages(t.past.SentTo(i)) == t.past.TakenFrom(i) + BufferOf(t.bus, i) {
      assert Messages(s.past.SentTo(i)) == s.past.TakenFrom(i) + BufferOf(s.bus, i);
    }
  }

  lemma IDsBegun(s: System, n: Note)
    requires True(s, n)
    ensures n.id < s.past.begun
  {
    hide Puts;
  }

  lemma NewNote(s: System, t: System, n: Note)
    requires OwnIDs(s) && n.id == s.past.begun && n.log == [] && t.past == s.past.(begun := s.past.begun + 1)
    ensures True(t, n)
  {
    hide Live, Puts;
    forall i: nat ensures Puts(t.past.SentTo(i), n.id) == 0 && forall p | p in t.past.SentTo(i) :: p.publish != n.id {
      assert t.past.SentTo(i) == s.past.SentTo(i);
      assert forall p | p in s.past.SentTo(i) :: p.publish < s.past.begun;
      NoPuts(s.past.SentTo(i), n.id);
    }
    assert forall i: nat :: Deliveries(n.log, i) == 0;
  }

  lemma {:induction false} NoPuts(sent: seq<Sent>, id: nat)
    requires forall p | p in sent :: p.publish != id
    ensures Puts(sent, id) == 0
  {
    if sent != [] { NoPuts(sent[..|sent| - 1], id); }
  }

  lemma BeginDeliverDelivery(s: System, c: nat)
    requires Delivery(s) && Enabled(s, BeginDeliver(c))
    ensures Delivery(Next(s, BeginDeliver(c)))
  {
    hide True, Puts;
    var t, x := Next(s, BeginDeliver(c)), s.threads[c];
    var i := x.rest[0];
    assert x.rest == [i] + x.rest[1..];
    if s.bus.subs[i].closed {
      TurnRecorded(s, t, x.note, WasClosed(i));
      TurnsAdd(x.note.log, WasClosed(i));
    } else {
      NoteStays(s, t, x.note);
    }
    TurnStep(s, t, c);
  }

  lemma TurnsAdd(log: seq<Handled>, h: Handled)
    ensures Turns(log + [h]) == Turns(log) + [h.sub]
  {
  }

  lemma AbortDelivery(s: System, c: nat)
    requires Delivery(s) && Enabled(s, Abort(c))
    ensures Delivery(Next(s, Abort(c)))
  {
    hide True, Puts;
    var t, x := Next(s, Abort(c)), s.threads[c];
    if !x.note.mode.Blocking? {
      var h := Skipped(s, x);
      TurnRecorded(s, t, x.note, h);
      TurnsAdd(x.note.log, h);
      assert Turns(x.note.log) + [x.sub] + x.rest == x.note.order;
    }
    TurnStep(s, t, c);
  }

  lemma FinishDelivery(s: System, c: nat)
    requires Delivery(s) && Enabled(s, FinishPublish(c))
    ensures Delivery(Next(s, FinishPublish(c)))
  {
    hide True, Puts;
    var t, n := Next(s, FinishPublish(c)), s.threads[c].note;
    SameBuffers(s, t);
    forall m | True(s, m) ensures True(t, m) { NoteStays(s, t, m); }
    assert OnCourse(s.threads[c]);
    assert Turns(n.log) + [] == n.order;
    assert forall m | m in t.past.finished :: m in s.past.finished || m == n;
  }

  lemma SendDelivery(s: System, c: nat)
    requires Delivery(s) && Enabled(s, Send(c))
    ensures Delivery(Next(s, Send(c)))
  {
    hide True, Puts, Messages;
    var t, x := Next(s, Send(c)), s.threads[c];
    var n := x.note;
    var put := Sent(n.id, n.msg);
    assert forall i: nat :: t.past.SentTo(i) == if i == x.sub then s.past.SentTo(i) + [put] else s.past.SentTo(i);
    forall m | True(s, m) && m.id != n.id ensures True(t, m) { OtherNoteStays(s, t, m, x.sub, put); }
    OwnNoteGrows(s, t, n, x.sub, put);
    TurnsAdd(n.log, Delivered(x.sub));
    assert Turns(n.log) + [x.sub] + x.rest == n.order;
    IDsBegun(s, n);
    MessagesAdd(s.past.SentTo(x.sub), put);
    assert InOrder(t) by {
      forall i: nat ensures Messages(t.past.SentTo(i)) == t.past.TakenFrom(i) + BufferOf(t.bus, i) {
        assert Messages(s.past.SentTo(i)) == s.past.TakenFrom(i) + BufferOf(s.bus, i);
      }
    }
  }

  lemma MessagesAdd(sent: seq<Sent>, put: Sent)
    ensures Messages(sent + [put]) == Messages(sent) + [put.msg]
  {
  }

  lemma PutsAdd(sent: seq<Sent>, put: Sent, id: nat)
    ensures Puts(sent + [put], id) == Puts(sent, id) + if put.publish == id then 1 else 0
  {
    assert (sent + [put])[..|sent|] == sent;
  }

  lemma OtherNoteStays(s: System, t: System, m: Note, i: nat, put: Sent)
    requires True(s, m) && Later(s.bus, t.bus) && t.past.begun == s.past.begun && put.publish != m.id
    requires forall j: nat :: t.past.SentTo(j) == if j == i then s.past.SentTo(j) + [put] else s.past.SentTo(j)
    ensures True(t, m)
  {
    hide True, Puts;
    PutsAdd(s.past.SentTo(i), put, m.id);
    NoteStays(s, t, m);
  }

  lemma OwnNoteGrows(s: System, t: System, n: Note, i: nat, put: Sent)
    requires True(s, n) && Later(s.bus, t.bus) && t.past.begun == s.past.begun && put == Sent(n.id, n.msg) && !n.mode.OtherMode?
    requires forall j: nat :: t.past.SentTo(j) == if j == i then s.past.SentTo(j) + [put] else s.past.SentTo(j)
    ensures True(t, Adds(n, Delivered(i)))
  {
    hide Puts;
    var m := Adds(n, Delivered(i));
    assert m.log[..|n.log|] == n.log;
    forall h | h in m.log ensures Justified(t.bus, m.mode, h) { if h in n.log { assert Justified(s.bus, n.mode, h); } }
    forall j: nat ensures Puts(t.past.SentTo(j), m.id) == Deliveries(m.log, j) { PutsAdd(s.past.SentTo(j), put, n.id); }
  }

  lemma ReceiveDelivery(s: System, i: nat)
    requires Delivery(s) && Enabled(s, Receive(i))
    ensures Delivery(Next(s, Receive(i)))
  {
    hide True, Puts, Messages, OnCourse;
    var t := Next(s, Receive(i));
    ReceiveKeepsNotes(s, i);
    forall j: nat ensures Messages(t.past.SentTo(j)) == t.past.TakenFrom(j) + BufferOf(t.bus, j) {
      assert Messages(s.past.SentTo(j)) == s.past.TakenFrom(j) + BufferOf(s.bus, j);
      if j == i {
        var buffer := s.bus.subs[i].ch.buffer;
        assert buffer == [buffer[0]] + buffer[1..];
      }
    }
  }

  lemma ReceiveKeepsNotes(s: System, i: nat)
    requires Delivery(s) && Enabled(s, Receive(i))
    ensures var t := Next(s, Receive(i)); LiveNotes(t) && FinishedNotes(t) && OwnIDs(t)
    ensures forall j: nat :: Next(s, Receive(i)).past.SentTo(j) == s.past.SentTo(j)
  {
    hide True, Puts, Messages, OnCourse, InOrder;
    var t := Next(s, Receive(i));
    assert forall j: nat :: t.past.SentTo(j) == s.past.SentTo(j);
    forall n | True(s, n) ensures True(t, n) { NoteStays(s, t, n); }
  }

  lemma QuietDelivery(s: System, a: Action)
    requires Delivery(s) && Enabled(s, a)
    requires a.Subscribe? || a.StartUnsubscribe? || a.Remove? || a.StartClose? || a.CloseOne? || a.FinishClose?
    ensures Delivery(Next(s, a))
  {
    hide Delivery, Enumerates;
    QuietStep(s, Next(s, a));
  }

  lemma NextKeepsDelivery(s: System, a: Action)
    requires Delivery(s) && Enabled(s, a)
    ensures Delivery(Next(s, a))
  {
    hide Delivery, Enabled, Next;
    match a {
      case StartPublish(c, msg, mode, order) => StartPublishDelivery(s, c, msg, mode, order);
      case BeginDeliver(c) => BeginDeliverDelivery(s, c);
      case Send(c) => SendDelivery(s, c);
      case Abort(c) => AbortDelivery(s, c);
      case FinishPublish(c) => FinishDelivery(s, c);
      case Receive(i) => ReceiveDelivery(s, i);
      case _ => QuietDelivery(s, a);
    }
  }

  lemma {:induction false} RunKeepsDelivery(s: System, actions: seq<Action>, t: System)
    requires Delivery(s) && Reaches(s, actions, t)
    ensures Delivery(t)
    decreases |actions|
  {
    hide Delivery, Next, Enabled;
    if actions != [] {
      NextKeepsDelivery(s, actions[0]);
      RunKeepsDelivery(Next(s, actions[0]), actions[1..], t);
    }
  }

  // ---------------------------------------------------------------- what it comes to

  /** A publish stops by finishing, or, if it is blocking, by being cancelled while it waits; and it is nobody else's doing. */
  lemma PublisherStops(s: System, a: Action, c: nat)
    requires Enabled(s, a) && c < |s.threads| && Live(s.threads[c])
    ensures |Next(s, a).threads| == |s.threads|
    ensures !Live(Next(s, a).threads[c]) ==>
              || (a == FinishPublish(c) && s.threads[c].Publishing? && s.threads[c].rest == []
                  && Next(s, a).past.finished == s.past.finished + [s.threads[c].note])
              || (a == Abort(c) && s.threads[c].Sending? && s.threads[c].note.mode.Blocking?)
    ensures Live(Next(s, a).threads[c]) ==> Next(s, a).threads[c].note.id == s.threads[c].note.id
                                            && s.threads[c].note.log <= Next(s, a).threads[c].note.log
  {
    hide Enumerates, AllRegistered, Subscribed, Removed;
  }

  /** A publish that begins is addressed to exactly the subscriptions registered for its topic, each once. */
  lemma PublishAddressesAll(s: System, c: nat, msg: Message, mode: PublishMode, order: seq<nat>)
    requires Inv(s) && Enabled(s, StartPublish(c, msg, mode, order)) && msg.topic != "" && !s.bus.closed
    ensures var x := Next(s, StartPublish(c, msg, mode, order)).threads[c];
            && x.Publishing? && x.note.order == order && x.rest == order && x.note.msg == msg && x.note.mode == mode
            && (forall i: nat :: i in order <==> i < |s.bus.subs| && Registered(s.bus, i) && s.bus.subs[i].topic == msg.topic)
            && forall j, k | 0 <= j < k < |order| :: order[j] != order[k]
  {
    forall i: nat ensures i in order <==> i < |s.bus.subs| && Registered(s.bus, i) && s.bus.subs[i].topic == msg.topic {
      if i < |s.bus.subs| && Registered(s.bus, i) && s.bus.subs[i].topic == msg.topic {
        assert s.bus.subs[i].id in SubsOf(s.bus, msg.topic);
      }
    }
  }

  /**
   Delivery, in every reachable state. A publish that ended normally has had its turn with every recipient in its order. A
   recipient it delivered to had the message put into its buffer, and nobody else did; one it did not deliver to was
   closed, or, for a publish that does not block, had a full buffer (or the mode was unknown). And every subscription receives
   what was put into its buffer, first in, first out.
   */
  lemma EveryPublishDelivers(s: System, actions: seq<Action>, t: System)
    requires Initial(s) && Reaches(s, actions, t)
    ensures forall n | n in t.past.finished ::
              && |n.log| == |n.order|
              && (forall k | 0 <= k < |n.order| ::
                    && n.log[k].sub == n.order[k]
                    && match n.log[k]
                       case Delivered(i) => true
                       case WasClosed(i) => i < |t.bus.subs| && t.bus.subs[i].closed
                       case WasFull(_, length) => n.mode.NonBlocking? && length >= t.bus.capacity
                       case Failed(_) => n.mode.OtherMode?)
              && (forall i: nat :: Puts(t.past.SentTo(i), n.id) == Deliveries(n.log, i))
              && forall i: nat, p | p in t.past.SentTo(i) && p.publish == n.id :: p.msg == n.msg
    ensures forall i: nat :: Messages(t.past.SentTo(i)) == t.past.TakenFrom(i) + BufferOf(t.bus, i)
  {
    hide LiveNotes, OwnIDs, Reaches, Puts, Deliveries, Messages;
    InitialDelivery(s);
    RunKeepsDelivery(s, actions, t);
    forall n | n in t.past.finished ensures True(t, n) && Turns(n.log) == n.order {}
    forall n, k | n in t.past.finished && 0 <= k < |n.order| ensures n.log[k].sub == n.order[k] && Justified(t.bus, n.mode, n.log[k]) {
      assert Turns(n.log)[k] == n.log[k].sub && n.log[k] in n.log;
    }
  }

  /** To a recipient that occurs once in the order, a blocking publish that ended normally has delivered once, unless it is closed. */
  lemma OpenRecipientGotIt(s: System, actions: seq<Action>, t: System, n: Note, i: nat)
    requires Initial(s) && Reaches(s, actions, t) && n in t.past.finished && n.mode.Blocking?
    requires i in n.order && (forall j, k | 0 <= j < k < |n.order| :: n.order[j] != n.order[k])
    requires i < |t.bus.subs| && !t.bus.subs[i].closed
    ensures Puts(t.past.SentTo(i), n.id) == 1
  {
    hide Reaches, Puts, Deliveries, Messages;
    EveryPublishDelivers(s, actions, t);
    var k :| 0 <= k < |n.order| && n.order[k] == i;
    assert n.log[k].sub == i && n.log[k] == Delivered(i);
    DeliveredOnce(n.log, i, k);
  }

  lemma {:induction false} DeliveredOnce(log: seq<Handled>, i: nat, k: nat)
    requires k < |log| && log[k] == Delivered(i) && forall j | 0 <= j < |log| && j != k :: log[j].sub != i
    ensures Deliveries(log, i) == 1
  {
    var m := |log| - 1;
    if k < m {
      DeliveredOnce(log[..m], i, k);
    } else {
      NeverDelivered(log[..m], i);
    }
  }

  lemma {:induction false} NeverDelivered(log: seq<Handled>, i: nat)
    requires forall h | h in log :: h.sub != i
    ensures Deliveries(log, i) == 0
  {
    if log != [] { NeverDelivered(log[..|log| - 1], i); }
  }
}
