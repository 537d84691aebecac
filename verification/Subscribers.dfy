/** Live event subscribers: what every interleaving of joining, leaving,
    broadcasting and reading keeps.

    Actions are as fine as the locks and atomics allow: registering, the counter
    update after it, the three parts of leaving, and each send of a broadcast are
    separate, and readers run between any two of them. */
module Subscribers {
  import opened Basics

  const CAPACITY: nat := 32

  datatype Event = Event(command: Bytes, args: seq<Bytes>, client: Bytes, micros: int)

  /** What became of one broadcast offered to one subscriber. A dropped one keeps
      the unread events that filled the buffer. */
  datatype Fate = Kept | Dropped(unread: seq<Event>)

  /** Where a subscriber's Subscribe or unsubscribe call stands. */
  datatype Call = Joining | Idle | Removing | Uncounting | Closing

  /** `joined` and `left` are how many broadcasts had begun when the subscriber
      entered the table and when it was taken out. */
  datatype Sub = Sub(
    joined: nat, left: Option<nat>, fates: seq<Fate>, received: seq<Event>, buffer: seq<Event>,
    closed: bool, unsubscribed: bool, call: Call)

  /** A broadcast under way, and the subscribers it has still to reach. */
  datatype Delivery = Delivery(evt: Event, left: set<nat>)

  /** `subs` holds every channel ever made, `registered` the identifiers in the
      recorder's table. `sending` is the broadcast that holds the table's lock.
      `log` is every broadcast begun. */
  datatype State = State(
    subs: map<nat, Sub>, registered: set<nat>, nextId: nat, subCount: int,
    log: seq<Event>, sending: Option<Delivery>, panicked: bool)

  datatype Action =
    | Register | Count(id: nat)
    | Unsubscribe(id: nat) | Remove(id: nat) | Uncount(id: nat) | Close(id: nat)
    | Begin(evt: Event) | Send(id: nat) | End
    | Receive(id: nat)

  const START := State(map[], {}, 0, 0, [], None, false)

  /** A select with a default: sends when there is room, else drops. */
  function Offered(buffer: seq<Event>, evt: Event): seq<Event> {
    if |buffer| < CAPACITY then buffer + [evt] else buffer
  }

  predicate Pending(s: State, id: nat) {
    s.sending.Some? && id in s.sending.value.left
  }

  /** Whether the action's turn can come: its call has reached it and the lock it
      needs is free. */
  predicate Enabled(s: State, a: Action) {
    match a
    case Register => s.sending.None?
    case Begin(_) => s.sending.None?
    case End => s.sending.Some? && s.sending.value.left == {}
    case Send(id) => Pending(s, id) && id in s.subs
    case Count(id) => id in s.subs && s.subs[id].call == Joining
    case Unsubscribe(id) => id in s.subs && s.subs[id].call == Idle
    case Remove(id) => id in s.subs && s.subs[id].call == Removing && s.sending.None?
    case Uncount(id) => id in s.subs && s.subs[id].call == Uncounting
    case Close(id) => id in s.subs && s.subs[id].call == Closing
    case Receive(id) => id in s.subs && s.subs[id].buffer != []
  }

  function Sent(sub: Sub, evt: Event): Sub {
    sub.(buffer := Offered(sub.buffer, evt),
         fates := sub.fates + [if |sub.buffer| < CAPACITY then Kept else Dropped(sub.buffer)])
  }

  /** One action; a blocked one changes nothing. Sending on a closed channel and
      closing one twice panic. */
  function Step(s: State, a: Action): State {
    if !Enabled(s, a) then s else
    match a
    case Register =>
      s.(subs := s.subs[s.nextId := Sub(|s.log|, None, [], [], [], false, false, Joining)],
         registered := s.registered + {s.nextId}, nextId := s.nextId + 1)
    case Count(id) => s.(subs := s.subs[id := s.subs[id].(call := Idle)], subCount := s.subCount + 1)
    case Unsubscribe(id) =>
      if s.subs[id].unsubscribed then s
      else s.(subs := s.subs[id := s.subs[id].(unsubscribed := true, call := Removing)])
    case Remove(id) =>
      s.(subs := s.subs[id := s.subs[id].(call := Uncounting, left := Some(|s.log|))],
         registered := s.registered - {id})
    case Uncount(id) => s.(subs := s.subs[id := s.subs[id].(call := Closing)], subCount := s.subCount - 1)
    case Close(id) =>
      if s.subs[id].closed then s.(panicked := true)
      else s.(subs := s.subs[id := s.subs[id].(closed := true, call := Idle)])
    case Begin(evt) => s.(log := s.log + [evt], sending := Some(Delivery(evt, s.registered)))
    case Send(id) =>
      var d := s.sending.value;
      if s.subs[id].closed then s.(panicked := true)
      else s.(subs := s.subs[id := Sent(s.subs[id], d.evt)], sending := Some(d.(left := d.left - {id})))
    case End => s.(sending := None)
    case Receive(id) =>
      var sub := s.subs[id];
      s.(subs := s.subs[id := sub.(received := sub.received + [sub.buffer[0]], buffer := sub.buffer[1..])])
  }

  function Run(actions: seq<Action>): State {
    if actions == [] then START else Step(Run(actions[..|actions| - 1]), actions[|actions| - 1])
  }

  /** Positions in the log of the broadcasts a subscriber kept. */
  function KeptAt(joined: nat, fates: seq<Fate>): (at: seq<nat>)
    ensures forall k :: 0 <= k < |at| ==> joined <= at[k] < joined + |fates|
    ensures forall k, l :: 0 <= k < l < |at| ==> at[k] < at[l]
  {
    if fates == [] then []
    else
      var before := KeptAt(joined, fates[..|fates| - 1]);
      if fates[|fates| - 1].Kept? then before + [joined + |fates| - 1] else before
  }

  /** The events are those the log holds at these positions. */
  ghost predicate Named(log: seq<Event>, at: seq<nat>, events: seq<Event>) {
    |events| == |at| && forall k :: 0 <= k < |at| ==> at[k] < |log| && events[k] == log[at[k]]
  }

  /** A subscriber's stream: exactly the broadcasts it kept, in order, and each
      one it missed was offered while the 32 before it were all unread. */
  ghost predicate Streams(log: seq<Event>, sub: Sub) {
    && |sub.buffer| <= CAPACITY && sub.joined + |sub.fates| <= |log|
    && Named(log, KeptAt(sub.joined, sub.fates), sub.received + sub.buffer)
    && forall p :: 0 <= p < |sub.fates| && sub.fates[p].Dropped? ==>
         Filled(log, KeptAt(sub.joined, sub.fates[..p]), sub.fates[p].unread)
  }

  /** A full buffer: the events at the last 32 positions. */
  ghost predicate Filled(log: seq<Event>, at: seq<nat>, unread: seq<Event>) {
    |unread| == CAPACITY <= |at| && Named(log, at[|at| - CAPACITY..], unread)
  }

  /** Which calls go with which flags. */
  ghost predicate CallFits(sub: Sub) {
    match sub.call
    case Joining => !sub.unsubscribed && !sub.closed
    case Idle => sub.unsubscribed == sub.closed
    case _ => sub.unsubscribed && !sub.closed
  }

  ghost predicate InTable(sub: Sub) {
    sub.call in {Joining, Removing} || (sub.call == Idle && !sub.unsubscribed)
  }

  ghost predicate IsCounted(sub: Sub) {
    sub.call in {Removing, Uncounting} || (sub.call == Idle && !sub.unsubscribed)
  }

  ghost function Counted(s: State): set<nat> {
    set id | id in s.subs && IsCounted(s.subs[id])
  }

  /** A subscriber in the table has been offered every broadcast since it joined,
      but for the one now on its way to it; one that left, every one until then. */
  ghost predicate SubFits(s: State, id: nat, sub: Sub) {
    && id < s.nextId && CallFits(sub) && Streams(s.log, sub)
    && (id in s.registered <==> InTable(sub))
    && (sub.left.None? <==> InTable(sub))
    && (match sub.left
        case None => |s.log| == sub.joined + |sub.fates| + if Pending(s, id) then 1 else 0
        case Some(end) => end == sub.joined + |sub.fates|)
  }

  ghost predicate Inv(s: State) {
    && !s.panicked && s.registered <= s.subs.Keys
    && s.subCount == |Counted(s)|
    && (s.sending.Some? ==> s.sending.value.left <= s.registered
                            && s.log != [] && s.log[|s.log| - 1] == s.sending.value.evt)
    && forall id :: id in s.subs ==> SubFits(s, id, s.subs[id])
  }

  lemma GrowStreams(log: seq<Event>, evt: Event, sub: Sub)
    requires Streams(log, sub)
    ensures Streams(log + [evt], sub)
  {
  }

  /** Only the stream's own fields matter. */
  lemma SameStream(log: seq<Event>, a: Sub, b: Sub)
    requires Streams(log, a) && a.joined == b.joined && a.fates == b.fates
    requires a.received == b.received && a.buffer == b.buffer
    ensures Streams(log, b)
  {
  }

  /** The stream after one more fate. */
  lemma SentNamed(log: seq<Event>, sub: Sub)
    requires Streams(log, sub) && sub.joined + |sub.fates| + 1 == |log|
    ensures var more := Sent(sub, log[|log| - 1]);
      Named(log, KeptAt(more.joined, more.fates), more.received + more.buffer)
  {
    var more := Sent(sub, log[|log| - 1]);
    assert more.fates[..|more.fates| - 1] == sub.fates;
    if |sub.buffer| < CAPACITY {
      assert more.received + more.buffer == sub.received + sub.buffer + [log[|log| - 1]];
    }
  }

  /** A full buffer is the last 32 kept events. */
  lemma UnreadFilled(log: seq<Event>, at: seq<nat>, received: seq<Event>, buffer: seq<Event>)
    requires Named(log, at, received + buffer) && |buffer| == CAPACITY
    ensures Filled(log, at, buffer)
  {
    var all, from := received + buffer, |received|;
    assert |at| - CAPACITY == from;
    forall k | 0 <= k < |buffer| ensures buffer[k] == log[at[from + k]] {
      assert all[from + k] == buffer[k];
    }
  }

  lemma SentStreams(log: seq<Event>, sub: Sub)
    requires Streams(log, sub) && sub.joined + |sub.fates| + 1 == |log|
    ensures Streams(log, Sent(sub, log[|log| - 1]))
  {
    hide Named, Filled, KeptAt;
    var more := Sent(sub, log[|log| - 1]);
    SentNamed(log, sub);
    forall p | 0 <= p < |more.fates| && more.fates[p].Dropped?
      ensures Filled(log, KeptAt(more.joined, more.fates[..p]), more.fates[p].unread)
    {
      if p < |sub.fates| {
        assert more.fates[..p] == sub.fates[..p];
      } else {
        assert more.fates[..p] == sub.fates;
        UnreadFilled(log, KeptAt(sub.joined, sub.fates), sub.received, sub.buffer);
      }
    }
  }

  lemma ReceivedStreams(log: seq<Event>, sub: Sub)
    requires Streams(log, sub) && sub.buffer != []
    ensures Streams(log, sub.(received := sub.received + [sub.buffer[0]], buffer := sub.buffer[1..]))
  {
    assert sub.received + [sub.buffer[0]] + sub.buffer[1..] == sub.received + sub.buffer;
  }

  /** Changing one subscriber moves the count by its own share. */
  lemma CountMoves(s: State, t: State, id: nat)
    requires id in t.subs && t.subs == s.subs[id := t.subs[id]]
    ensures |Counted(t)| - |Counted(s)|
         == (if IsCounted(t.subs[id]) then 1 else 0) - (if id in s.subs && IsCounted(s.subs[id]) then 1 else 0)
  {
    hide IsCounted;
    SetAside(Counted(t), id);
    SetAside(Counted(s), id);
    assert Counted(t) - {id} == Counted(s) - {id};
  }

  lemma SetAside(a: set<nat>, x: nat)
    ensures |a| == |a - {x}| + if x in a then 1 else 0
  {
    if x in a { assert a == (a - {x}) + {x}; } else { assert a == a - {x}; }
  }

  lemma OtherFits(s: State, t: State, id: nat, other: nat)
    requires other != id && other in s.subs && SubFits(s, other, s.subs[other])
    requires t.log == s.log && s.nextId <= t.nextId
    requires t.registered - {id} == s.registered - {id}
    requires t.sending == s.sending
          || (s.sending.Some? && t.sending == Some(s.sending.value.(left := s.sending.value.left - {id})))
    ensures SubFits(t, other, s.subs[other])
  {
    hide Streams, CallFits, InTable;
    assert other in t.registered <==> other in t.registered - {id};
    assert other in s.registered <==> other in s.registered - {id};
  }

  /** Changing one subscriber keeps the invariant when that one still fits. */
  lemma OneSub(s: State, t: State, id: nat)
    requires Inv(s) && id in t.subs && t.subs == s.subs[id := t.subs[id]]
    requires t.log == s.log && s.nextId <= t.nextId && !t.panicked
    requires t.registered - {id} == s.registered - {id} && t.registered <= t.subs.Keys
    requires t.sending == s.sending
          || (s.sending.Some? && t.sending == Some(s.sending.value.(left := s.sending.value.left - {id})))
    requires t.sending.Some? ==> t.sending.value.left <= t.registered
    requires SubFits(t, id, t.subs[id])
    requires t.subCount - s.subCount
          == (if IsCounted(t.subs[id]) then 1 else 0) - (if id in s.subs && IsCounted(s.subs[id]) then 1 else 0)
    ensures Inv(t)
  {
    hide SubFits, IsCounted;
    CountMoves(s, t, id);
    forall other | other in t.subs && other != id ensures SubFits(t, other, t.subs[other]) {
      OtherFits(s, t, id, other);
    }
  }

  lemma RegisterKeeps(s: State)
    requires Inv(s) && Enabled(s, Register)
    ensures Inv(Step(s, Register))
  {
    OneSub(s, Step(s, Register), s.nextId);
  }

  /** Joining's and leaving's own steps. */
  lemma CallKeeps(s: State, a: Action, id: nat)
    requires Inv(s) && Enabled(s, a) && a in {Count(id), Unsubscribe(id), Remove(id), Uncount(id), Close(id)}
    ensures Inv(Step(s, a))
  {
    hide Streams;
    var t := Step(s, a);
    assert SubFits(s, id, s.subs[id]);
    SameStream(s.log, s.subs[id], t.subs[id]);
    if t != s { OneSub(s, t, id); }
  }

  lemma BeginKeeps(s: State, evt: Event)
    requires Inv(s) && Enabled(s, Begin(evt))
    ensures Inv(Step(s, Begin(evt)))
  {
    hide Streams;
    var t := Step(s, Begin(evt));
    assert Counted(t) == Counted(s);
    forall id | id in t.subs ensures SubFits(t, id, t.subs[id]) {
      assert SubFits(s, id, s.subs[id]);
      GrowStreams(s.log, evt, s.subs[id]);
    }
  }

  lemma SendKeeps(s: State, id: nat)
    requires Inv(s) && Enabled(s, Send(id))
    ensures Inv(Step(s, Send(id)))
  {
    hide Streams;
    assert SubFits(s, id, s.subs[id]);
    SentStreams(s.log, s.subs[id]);
    OneSub(s, Step(s, Send(id)), id);
  }

  lemma EndKeeps(s: State)
    requires Inv(s) && Enabled(s, End)
    ensures Inv(Step(s, End))
  {
    hide Streams;
    var t := Step(s, End);
    assert Counted(t) == Counted(s);
    forall id | id in t.subs ensures SubFits(t, id, t.subs[id]) {
      assert SubFits(s, id, s.subs[id]);
    }
  }

  lemma ReceiveKeeps(s: State, id: nat)
    requires Inv(s) && Enabled(s, Receive(id))
    ensures Inv(Step(s, Receive(id)))
  {
    hide Streams;
    assert SubFits(s, id, s.subs[id]);
    ReceivedStreams(s.log, s.subs[id]);
    OneSub(s, Step(s, Receive(id)), id);
  }

  lemma StepKeepsInv(s: State, a: Action)
    requires Inv(s)
    ensures Inv(Step(s, a))
  {
    if !Enabled(s, a) { return; }
    match a
    case Register => RegisterKeeps(s);
    case Begin(evt) => BeginKeeps(s, evt);
    case Send(id) => SendKeeps(s, id);
    case End => EndKeeps(s);
    case Receive(id) => ReceiveKeeps(s, id);
    case Count(id) => CallKeeps(s, a, id);
    case Unsubscribe(id) => CallKeeps(s, a, id);
    case Remove(id) => CallKeeps(s, a, id);
    case Uncount(id) => CallKeeps(s, a, id);
    case Close(id) => CallKeeps(s, a, id);
  }

  lemma {:induction false} RunKeepsInv(actions: seq<Action>)
    ensures Inv(Run(actions))
  {
    if actions == [] {
      assert Counted(START) == {};
    } else {
      RunKeepsInv(actions[..|actions| - 1]);
      StepKeepsInv(Run(actions[..|actions| - 1]), actions[|actions| - 1]);
    }
  }

  lemma {:induction false} KeptIff(joined: nat, fates: seq<Fate>, p: nat)
    requires p < |fates|
    ensures joined + p in KeptAt(joined, fates) <==> fates[p].Kept?
  {
    var n := |fates| - 1;
    if p < n {
      KeptIff(joined, fates[..n], p);
      assert fates[..n][p] == fates[p];
    } else {
      assert joined + p !in KeptAt(joined, fates[..n]);
    }
  }

  /** In every run: no panic, a count that is never negative, and for each
      subscriber a fate for every broadcast while it was in the table, and a
      stream that is the broadcasts it kept in order, each missed one having found
      32 unread events in the buffer. */
  lemma EveryRunIsSafe(actions: seq<Action>, id: nat, i: nat)
    ensures var s := Run(actions);
      && !s.panicked && s.subCount >= 0
      && (id in s.subs ==>
            var sub := s.subs[id];
            var at := KeptAt(sub.joined, sub.fates);
            && (id in s.registered <==> sub.left.None?)
            && sub.joined + |sub.fates|
               == (if sub.left.Some? then sub.left.value else |s.log| - if Pending(s, id) then 1 else 0)
            && Named(s.log, at, sub.received + sub.buffer)
            && (sub.joined <= i < sub.joined + |sub.fates| && i !in at ==>
                  var p := i - sub.joined;
                  && sub.fates[p].Dropped?
                  && Filled(s.log, KeptAt(sub.joined, sub.fates[..p]), sub.fates[p].unread)))
  {
    hide Run, KeptAt, Named, Filled;
    RunKeepsInv(actions);
    var s := Run(actions);
    if id in s.subs {
      var sub := s.subs[id];
      assert SubFits(s, id, sub);
      if sub.joined <= i < sub.joined + |sub.fates| { KeptIff(sub.joined, sub.fates, i - sub.joined); }
    }
  }

  /** A broadcast does reach: once begun, each subscriber in the table can be sent to, in
      any order, and has the event at the end of its buffer, unless 32 are unread. */
  lemma BroadcastReaches(s: State, evt: Event, id: nat)
    requires Inv(s) && s.sending.None? && id in s.registered
    ensures var begun := Step(s, Begin(evt));
      var sent := Step(begun, Send(id));
      && begun.log == s.log + [evt] && Enabled(begun, Send(id)) && !Enabled(begun, End)
      && sent.subs[id].buffer == (if |s.subs[id].buffer| < 32 then s.subs[id].buffer + [evt] else s.subs[id].buffer)
      && sent.sending.value.left == s.registered - {id}
      && forall other :: other in s.subs && other != id ==> sent.subs[other] == s.subs[other]
  {
    assert SubFits(s, id, s.subs[id]);
  }

  /** A reader takes the events in the order they were sent. */
  lemma ReaderTakesFirst(s: State, id: nat)
    requires id in s.subs && s.subs[id].buffer != []
    ensures var sub, after := s.subs[id], Step(s, Receive(id)).subs[id];
      && after.received == sub.received + [sub.buffer[0]] && [sub.buffer[0]] + after.buffer == sub.buffer
  {
  }

  /** The first unsubscribe goes all the way: out of the table, out of the count, and the
      channel is closed. A second one does nothing. */
  lemma UnsubscribeCompletes(s: State, id: nat)
    requires Inv(s) && s.sending.None? && id in s.registered && s.subs[id].call == Idle
    ensures var s4 := Step(Step(Step(Step(s, Unsubscribe(id)), Remove(id)), Uncount(id)), Close(id));
      && s4.registered == s.registered - {id} && s4.subCount == s.subCount - 1
      && s4.subs[id].closed && s4.subs[id].unsubscribed && !s4.panicked
      && Step(s4, Unsubscribe(id)) == s4
  {
    hide Streams;
    assert SubFits(s, id, s.subs[id]);
  }

  /** Subscribing puts a new channel in the table and then counts it. */
  lemma SubscribeCompletes(s: State)
    requires Inv(s) && s.sending.None?
    ensures var id, s2 := s.nextId, Step(Step(s, Register), Count(s.nextId));
      && id !in s.subs && s2.registered == s.registered + {id} && s2.subCount == s.subCount + 1
      && s2.subs[id] == Sub(|s.log|, None, [], [], [], false, false, Idle)
  {
    hide Streams;
    if s.nextId in s.subs { NoSuchId(s); }
  }

  lemma NoSuchId(s: State)
    requires Inv(s)
    ensures s.nextId !in s.subs
  {
    hide Streams;
  }

  lemma CountSees(s: State, id: nat)
    requires id in s.subs && IsCounted(s.subs[id])
    ensures |Counted(s)| > 0
  {
    assert id in Counted(s);
  }

  /** Skipping a broadcast while the counter is zero leaves out only those still
      inside Subscribe. */
  lemma ZeroCountMeansNobodyWaits(actions: seq<Action>, id: nat)
    requires Run(actions).subCount == 0 && id in Run(actions).registered
    ensures id in Run(actions).subs && Run(actions).subs[id].call == Joining
  {
    hide Run;
    RunKeepsInv(actions);
    var s := Run(actions);
    assert SubFits(s, id, s.subs[id]);
    if IsCounted(s.subs[id]) { CountSees(s, id); }
  }

  /** A buffered channel: sending on it when closed, or closing it again, panics. */
  class Channel {
    var buffer: seq<Event>
    var closed: bool

    constructor ()
      ensures buffer == [] && !closed
    {
      buffer, closed := [], false;
    }

    method TrySend(evt: Event)
      requires !closed
      modifies `buffer
      ensures buffer == Offered(old(buffer), evt)
    {
      if |buffer| < CAPACITY { buffer := buffer + [evt]; }
    }

    method Close()
      requires !closed
      modifies `closed
      ensures closed
    {
      closed := true;
    }
  }

  /** What Subscribe hands back: a channel, and the state its unsubscribe closes over. */
  class Subscription {
    const id: nat
    const ch: Channel
    var unsubscribed: bool

    constructor (id: nat, ch: Channel)
      ensures this.id == id && this.ch == ch && !unsubscribed
    {
      this.id, this.ch, unsubscribed := id, ch, false;
    }
  }

  class Recorder {
    var subs: map<nat, Channel>
    var nextId: nat
    var subCount: int

    /** Every channel in the table is open and has one identifier. */
    ghost predicate Valid()
      reads this, subs.Values
    {
      && subCount == |subs|
      && (forall id :: id in subs ==> id < nextId && !subs[id].closed)
      && forall a, b :: a in subs && b in subs && a != b ==> subs[a] != subs[b]
    }

    /** A subscription and the table agree until the first unsubscribe. */
    ghost predicate Holds(sub: Subscription)
      reads this, sub
    {
      if sub.unsubscribed then sub.id !in subs && sub.id < nextId
      else sub.id in subs && subs[sub.id] == sub.ch
    }

    constructor ()
      ensures Valid() && subs == map[]
    {
      subs, nextId, subCount := map[], 0, 0;
    }

    method Subscribe() returns (sub: Subscription)
      requires Valid()
      modifies this
      ensures Valid() && fresh(sub) && fresh(sub.ch) && Holds(sub) && !sub.unsubscribed
      ensures sub.id !in old(subs) && subs == old(subs)[sub.id := sub.ch] && sub.ch.buffer == []
      ensures forall other: Subscription | old(allocated(other)) ::
                old(Holds(other)) ==> Holds(other)
    {
      var ch := new Channel();
      var id := nextId;
      nextId := nextId + 1;
      subs := subs[id := ch];
      subCount := subCount + 1;
      sub := new Subscription(id, ch);
    }

    /** The first call takes the channel out of the table and closes it; later
        ones do nothing. */
    method Unsubscribe(sub: Subscription)
      requires Valid() && Holds(sub)
      modifies this, sub`unsubscribed, sub.ch`closed
      ensures Valid() && Holds(sub) && sub.unsubscribed
      ensures subs == old(subs) - {sub.id}
      ensures sub.ch.closed == (!old(sub.unsubscribed) || old(sub.ch.closed))
      ensures old(sub.unsubscribed) ==> subCount == old(subCount) && subs == old(subs)
      ensures forall other: Subscription | old(allocated(other)) && other.id != sub.id ::
                old(Holds(other)) ==> Holds(other)
    {
      if sub.unsubscribed { return; }
      sub.unsubscribed := true;
      subs := subs - {sub.id};
      assert subs.Keys == old(subs).Keys - {sub.id};
      subCount := subCount - 1;
      sub.ch.Close();
    }

    /** Offers the event to every channel in the table, in any order, and waits for
        none of them. */
    method Broadcast(evt: Event)
      requires Valid()
      modifies subs.Values
      ensures Valid()
      ensures forall id :: id in subs ==> subs[id].buffer == Offered(old(subs[id].buffer), evt)
    {
      var left := subs.Keys;
      while left != {}
        invariant left <= subs.Keys && Valid()
        invariant forall id :: id in subs ==>
          subs[id].buffer == if id in left then old(subs[id].buffer) else Offered(old(subs[id].buffer), evt)
      {
        var id :| id in left;
        subs[id].TrySend(evt);
        left := left - {id};
      }
    }
  }
}
