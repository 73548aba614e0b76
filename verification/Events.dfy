/** The event bus: internal/events/events.go.

  One sequence counter, one replay ring, one bounded queue per subscriber. The
  ghost `history` is everything ever emitted; `Valid` says that what each client
  has received, followed by what is queued for it, is a contiguous stretch of
  it. Emitting, subscribing, receiving and closing are separate steps, so that
  invariant holds over every interleaving of producers and clients.
  */
module Events {
  import opened Optional

  /** A zero `ts` is unset and a missing payload is nil, as emitters leave them. */
  datatype Event = Event(number: nat, kind: string, ts: nat, data: Option<map<string, string>>)

  const DEFAULT_BUFFER_SIZE := 4096
  const SUBSCRIBER_BUFFER := 256

  function Last<T>(s: seq<T>, n: nat): seq<T> {
    if |s| <= n then s else s[|s| - n..]
  }

  lemma LastExtends<T>(s: seq<T>, n: nat, x: T)
    requires n > 0
    ensures Last(Last(s, n) + [x], n) == Last(s + [x], n)
  {
  }

  lemma Wraps(x: nat, n: nat)
    requires 0 < n && x < 2 * n
    ensures x % n == if x < n then x else x - n
  {
  }

  lemma StretchGrows(history: seq<Event>, origin: nat, events: seq<Event>, e: Event)
    requires StretchOf(history, origin, events)
    ensures StretchOf(history + [e], origin, events)
    ensures origin + |events| == |history| ==> StretchOf(history + [e], origin, events + [e])
  {
  }

  /** The first `n` elements of a ring, from the oldest, at `start`. */
  function InOrder<T>(ring: seq<T>, start: nat, n: nat): seq<T>
    requires start <= n <= |ring|
  {
    ring[start..n] + ring[..start]
  }

  lemma RingFills<T>(ring: seq<T>, n: nat, x: T)
    requires n < |ring|
    ensures InOrder(ring[n := x], 0, n + 1) == Last(InOrder(ring, 0, n) + [x], |ring|)
  {
  }

  /** Overwriting the oldest element of a full ring drops it and adds the new one last. */
  lemma RingTurns<T>(ring: seq<T>, start: nat, x: T)
    requires start < |ring|
    ensures InOrder(ring[start := x], if start + 1 == |ring| then 0 else start + 1, |ring|)
         == Last(InOrder(ring, start, |ring|) + [x], |ring|)
  {
  }

  /** How many events a queue can hold of `n`. */
  function Capped(n: nat): nat {
    if n <= SUBSCRIBER_BUFFER then n else SUBSCRIBER_BUFFER
  }

  lemma ReplayNext(history: seq<Event>, origin: nat, missed: seq<Event>, i: nat)
    requires origin <= |history| && missed == history[origin..] && i < |missed|
    ensures history[..origin + i] + [missed[i]] == history[..origin + i + 1]
    ensures i < SUBSCRIBER_BUFFER ==> missed[..Capped(i)] + [missed[i]] == missed[..Capped(i + 1)]
    ensures i >= SUBSCRIBER_BUFFER ==> missed[..Capped(i)] == missed[..Capped(i + 1)]
  {
  }

  /** The history after a position, up to another. */
  function Between(history: seq<Event>, since: nat, m: nat): seq<Event>
    requires m <= |history|
  {
    if m <= since then [] else history[since..m]
  }

  lemma BetweenEnds(history: seq<Event>, since: nat, m: nat)
    requires since <= |history| && m <= |history|
    ensures m <= since ==> Between(history, since, m) == []
    ensures Between(history, since, |history|) == history[since..]
  {
    assert history[since..|history|] == history[since..];
  }

  lemma ReplayStep(history: seq<Event>, since: nat, m: nat, e: Event)
    requires m < |history| && e == history[m] && e.number == m + 1
    ensures Between(history, since, m + 1)
         == if e.number > since then Between(history, since, m) + [e] else Between(history, since, m)
  {
    if m >= since { assert history[since..m] + [history[m]] == history[since..m + 1]; }
  }

  /** What is stamped on an event as it is emitted. */
  function Stamped(e: Event, number: nat, now: nat): Event {
    e.(number := number, ts := if e.ts == 0 then now else e.ts, data := if e.data.None? then Some(map[]) else e.data)
  }

  /** Events are numbered from one, without a gap. */
  ghost predicate Numbered(history: seq<Event>) {
    forall i | 0 <= i < |history| :: history[i].number == i + 1
  }

  /** `events` is the stretch of the history right after position `origin`. */
  ghost predicate StretchOf(history: seq<Event>, origin: nat, events: seq<Event>) {
    origin + |events| <= |history| && events == history[origin..origin + |events|]
  }

  /** Whether a position can be resumed from, when `retained` of `emitted` events are kept. */
  predicate Replayable(since: int, emitted: nat, retained: nat) {
    since <= 0 || (since <= emitted && emitted - since <= retained)
  }

  /** Where a new subscription's stream begins. Zero means "from now", and so
      does a position that cannot be resumed from. */
  function Origin(since: int, emitted: nat, retained: nat): (origin: nat)
    ensures origin <= emitted
  {
    if since > 0 && Replayable(since, emitted, retained) then since else emitted
  }

  /** A subscription as a value: see the fields below. */
  datatype Client = Client(origin: nat, received: seq<Event>, queue: seq<Event>, overflowed: bool, closed: bool, asked: bool)

  /** Handing a client an event: it is queued, or the client is dropped because
      its queue is full. A client that is gone is left as it was. */
  ghost function Handed(c: Client, event: Event): Client {
    if c.closed then c
    else if |c.queue| < SUBSCRIBER_BUFFER then c.(queue := c.queue + [event])
    else c.(overflowed := true, closed := true)
  }

  class Subscription {
    const bus: Bus
    const id: nat
    var queue: seq<Event>
    var overflowed: bool
    var closed: bool
    /** The position asked for, whether it was answered as replayable, and the
        position this stream starts after. */
    ghost const since: int
    ghost const answered: bool
    ghost const origin: nat
    /** What the client has taken off the queue, and whether somebody asked for
        the stream to end. */
    ghost var received: seq<Event>
    ghost var asked: bool

    constructor (bus: Bus, id: nat, ghost since: int, ghost answered: bool, ghost origin: nat)
      ensures this.bus == bus && this.id == id
      ensures this.since == since && this.answered == answered && this.origin == origin
      ensures queue == [] && received == [] && !overflowed && !closed && !asked
    {
      this.bus, this.id, this.since, this.answered, this.origin := bus, id, since, answered, origin;
      queue, received, overflowed, closed, asked := [], [], false, false, false;
    }

    /** A client told it can resume, at a position of its own, does. */
    ghost predicate Resumes() {
      answered && since > 0 ==> origin == since
    }

    ghost function Stream(): seq<Event>
      reads this
    {
      received + queue
    }

    ghost predicate InStep(history: seq<Event>)
      reads this
    {
      && StretchOf(history, origin, Stream())
      && |queue| <= SUBSCRIBER_BUFFER
    }

    /** Caught up while open; cut short only on request or by overflowing. */
    ghost predicate Following(history: seq<Event>)
      reads this
    {
      && InStep(history)
      && (!closed ==> origin + |Stream()| == |history| && !overflowed && !asked)
      && (closed ==> overflowed || asked)
      && (overflowed ==> origin + |Stream()| < |history|)
    }

    ghost function View(): Client
      reads this
    {
      Client(origin, received, queue, overflowed, closed, asked)
    }

    /** Never blocks: a client whose queue is full is dropped. */
    method Deliver(event: Event, ghost history: seq<Event>)
      requires bus.ClientsValid() && bus.Has(this) && Following(history)
      modifies this`queue, this`overflowed, this`closed, bus`subscribers
      ensures bus.ClientsValid() && View() == Handed(old(View()), event) && Following(history + [event])
      ensures bus.subscribers == if closed && !old(closed) then old(bus.subscribers) - {id} else old(bus.subscribers)
    {
      StretchGrows(history, origin, Stream(), event);
      if closed { return; }
      if |queue| < SUBSCRIBER_BUFFER {
        assert received + (queue + [event]) == Stream() + [event];
        queue := queue + [event];
      } else {
        overflowed := true;
        End();
      }
    }

    /** Nothing is owed to a client that was dropped. */
    lemma ClosedFollowsOn(history: seq<Event>, event: Event)
      requires closed && Following(history)
      ensures Following(history + [event])
    {
      StretchGrows(history, origin, Stream(), event);
    }

    /** Ends the subscription, once. */
    method End()
      requires bus.ClientsValid() && bus.Has(this)
      modifies this`closed, bus`subscribers
      ensures bus.ClientsValid() && closed
      ensures bus.subscribers == if old(closed) then old(bus.subscribers) else old(bus.subscribers) - {id}
    {
      if !closed {
        closed := true;
        bus.subscribers := bus.subscribers - {id};
      }
    }

    /** The client takes the next event off its queue, if there is one. */
    method Receive() returns (event: Option<Event>)
      requires bus.Valid() && bus.Has(this)
      modifies this`queue, this`received
      ensures bus.Valid()
      ensures Stream() == old(Stream())
      ensures if old(queue) == [] then event == None && received == old(received)
              else event == Some(old(queue)[0]) && received == old(received) + [old(queue)[0]]
    {
      assert Following(bus.history);
      if queue == [] { return None; }
      event := Some(queue[0]);
      received := received + [queue[0]];
      queue := queue[1..];
      assert Stream() == old(Stream());
    }

    method Close()
      requires bus.Valid() && bus.Has(this)
      modifies this`closed, this`asked, bus`subscribers
      ensures bus.Valid() && closed && Stream() == old(Stream())
      ensures bus.subscribers == old(bus.subscribers) - {id}
    {
      assert Following(bus.history);
      asked := asked || !closed;
      End();
    }
  }

  class Bus {
    const capacity: nat
    var sequence: nat
    var buffer: array<Event>
    /** How much of the buffer is in use, and where the oldest event is. */
    var len: nat
    var start: nat
    var subscribers: map<nat, Subscription>
    var nextID: nat
    /** Every event ever emitted, and every subscription ever made. */
    ghost var history: seq<Event>
    ghost var everyone: seq<Subscription>

    constructor (capacity: int)
      ensures Valid() && fresh(buffer) && history == [] && everyone == [] && subscribers == map[]
      ensures this.capacity == if capacity <= 0 then DEFAULT_BUFFER_SIZE else capacity
    {
      var size: nat := if capacity <= 0 then DEFAULT_BUFFER_SIZE else capacity;
      this.capacity := size;
      buffer := new Event[size](_ => Event(0, "", 0, None));
      sequence, len, start, subscribers, nextID, history, everyone := 0, 0, 0, map[], 0, [], [];
    }

    ghost predicate RingOk()
      reads this`buffer, this`len, this`start
    {
      && 0 < capacity == buffer.Length && len <= capacity
      && (if len < capacity then start == 0 else start < capacity)
    }

    /** The retained events, oldest first. */
    ghost function Window(): (w: seq<Event>)
      requires RingOk()
      reads this`buffer, this`len, this`start, buffer
      ensures |w| == len
    {
      buffer[start..len] + buffer[..start]
    }

    ghost predicate RingValid()
      reads this`buffer, this`len, this`start, this`history, this`sequence, buffer
    {
      && RingOk()
      && |history| == sequence && Numbered(history)
      && Window() == Last(history, capacity)
    }

    ghost predicate Has(s: Subscription)
      reads this`everyone
    {
      s.id < |everyone| && everyone[s.id] == s
    }

    /** The open subscriptions are the ones registered, each under its own id. */
    ghost predicate ClientsValid()
      reads this`subscribers, this`nextID, this`everyone, everyone`closed
    {
      && nextID == |everyone| && (forall id | id in subscribers :: id < |everyone|)
      && forall i | 0 <= i < |everyone| ::
           && everyone[i].bus == this && everyone[i].id == i && everyone[i].Resumes()
           && (if everyone[i].closed then i !in subscribers else i in subscribers && subscribers[i] == everyone[i])
    }

    ghost predicate AllFollow(upTo: seq<Event>)
      reads this`everyone, everyone
    {
      forall i {:trigger everyone[i].Following(upTo)} | 0 <= i < |everyone| :: everyone[i].Following(upTo)
    }

    ghost predicate Valid()
      reads this, buffer, everyone
    {
      RingValid() && ClientsValid() && AllFollow(history)
    }

    /** The i-th oldest event is found by counting from `start`, around the end. */
    lemma WindowAt(i: nat)
      requires RingOk() && i < len
      ensures (start + i) % len < len && buffer[(start + i) % len] == Window()[i]
    {
      Wraps(start + i, len);
    }

    /** The ring keeps one more event, at the price of the oldest once it is full. */
    method Append(event: Event)
      requires RingOk()
      modifies this`len, this`start, buffer
      ensures RingOk() && Window() == Last(old(Window()) + [event], capacity)
    {
      ghost var ring, first := buffer[..], start;
      assert Window() == InOrder(ring, start, len);
      if len < capacity {
        RingFills(ring, len, event);
        buffer[len] := event;
        len := len + 1;
        assert buffer[..] == ring[len - 1 := event];
        assert Window() == InOrder(buffer[..], start, len);
        return;
      }
      RingTurns(ring, start, event);
      buffer[start] := event;
      Wraps(start + 1, len);
      start := (start + 1) % len;
      assert buffer[..] == ring[first := event];
      assert Window() == InOrder(buffer[..], start, len);
    }

    /** Zero while nothing has been evicted. */
    function OldestSeq(): nat
      requires RingOk()
      reads this, buffer
    {
      if len < capacity then 0 else buffer[start].number
    }

    lemma OldestMeans()
      requires RingValid()
      ensures OldestSeq() == if sequence < capacity then 0 else sequence - len + 1
      ensures len == if sequence < capacity then sequence else capacity
    {
      if len == capacity { WindowAt(0); }
    }

    /** The i-th oldest of the retained events. */
    function Retained(i: nat): Event
      requires RingOk() && i < len
      reads this`buffer, this`len, this`start, buffer
    {
      buffer[(start + i) % len]
    }

    lemma RetainedIs(i: nat, m: nat)
      requires RingValid() && i < len && m == sequence - len + i
      ensures m < |history| && Retained(i) == history[m] && history[m].number == m + 1
    {
      WindowAt(i);
      assert Window()[i] == history[m];
    }

    /** Reading on, the next retained event is replayed if the client has not seen it. */
    lemma NextRetained(since: nat, i: nat, m: nat)
      requires RingValid() && i < len && m == sequence - len + i
      ensures m < |history|
      ensures Between(history, since, m + 1)
           == if Retained(i).number > since then Between(history, since, m) + [Retained(i)] else Between(history, since, m)
    {
      RetainedIs(i, m);
      ReplayStep(history, since, m, history[m]);
    }

    /** What a client at this position has missed. */
    method ReplayFrom(since: nat) returns (out: seq<Event>)
      requires RingValid() && since <= sequence && sequence - since <= len
      ensures out == history[since..]
    {
      ghost var m := sequence - len;
      out := [];
      BetweenEnds(history, since, m);
      for i := 0 to len
        invariant m == sequence - len + i && out == Between(history, since, m)
      {
        NextRetained(since, i, m);
        out := if Retained(i).number > since then out + [Retained(i)] else out;
        m := m + 1;
      }
      assert m == |history|;
    }

    lemma DroppedFollowOn(before: seq<Event>, event: Event)
      requires AllFollow(before)
      ensures forall i {:trigger everyone[i].Following(before + [event])} | 0 <= i < |everyone| && everyone[i].closed ::
                everyone[i].Following(before + [event])
    {
      forall i | 0 <= i < |everyone| && everyone[i].closed ensures everyone[i].Following(before + [event]) {
        everyone[i].ClosedFollowsOn(before, event);
      }
    }

    /** Part of the way through: the clients in `left` have not been handed the event. */
    ghost predicate Partway(left: set<nat>, was: seq<Client>, before: seq<Event>, event: Event)
      reads this`everyone, everyone
    {
      && |was| == |everyone|
      && (forall i {:trigger everyone[i].View()} | 0 <= i < |everyone| ::
            everyone[i].View() == if i in left then was[i] else Handed(was[i], event))
      && (forall i {:trigger everyone[i].Following(before)} | 0 <= i < |everyone| && i in left :: everyone[i].Following(before))
      && (forall i {:trigger everyone[i].Following(before + [event])} | 0 <= i < |everyone| && i !in left ::
            everyone[i].Following(before + [event]))
    }

    method HandNext(s: Subscription, event: Event, ghost left: set<nat>, ghost was: seq<Client>, ghost before: seq<Event>)
      requires ClientsValid() && Partway(left, was, before, event) && Has(s) && s.id in left
      modifies this`subscribers, s`queue, s`overflowed, s`closed
      ensures ClientsValid() && Partway(left - {s.id}, was, before, event)
      ensures old(subscribers).Keys - {s.id} <= subscribers.Keys
    {
      assert everyone[s.id].bus == this && everyone[s.id].Following(before);
      assert everyone[s.id].View() == was[s.id];
      s.Deliver(event, before);
    }

    /** Hands the latest event to every open subscription. */
    method FanOut(event: Event)
      requires RingValid() && ClientsValid() && history != [] && event == history[|history| - 1]
      requires AllFollow(history[..|history| - 1])
      modifies this`subscribers, everyone
      ensures Valid()
      ensures forall i | 0 <= i < |everyone| :: everyone[i].View() == Handed(old(everyone[i].View()), event)
    {
      ghost var before := history[..|history| - 1];
      assert history == before + [event];
      ghost var was := seq(|everyone|, i requires 0 <= i < |everyone| reads this, everyone => everyone[i].View());
      DroppedFollowOn(before, event);
      var left := subscribers.Keys;
      while left != {}
        invariant ClientsValid() && left <= subscribers.Keys && Partway(left, was, before, event)
        decreases left
      {
        var id :| id in left;
        assert subscribers[id] == everyone[id];
        HandNext(subscribers[id], event, left, was, before);
        left := left - {id};
      }
    }

    /** Assigns the next number, and retains the event. */
    method Number(event: Event, now: nat) returns (emitted: Event)
      requires RingValid()
      modifies this`sequence, this`len, this`start, this`history, buffer
      ensures RingValid() && emitted == Stamped(event, old(sequence) + 1, now)
      ensures history == old(history) + [emitted]
    {
      sequence := sequence + 1;
      emitted := Stamped(event, sequence, now);
      LastExtends(history, capacity, emitted);
      ghost var more := history + [emitted];
      assert Numbered(more);
      Append(emitted);
      history := more;
    }

    /** Numbers the event and hands it to every open subscription. A client whose
        queue is full is dropped; nobody else notices. */
    method Emit(event: Event, now: nat) returns (emitted: Event)
      requires Valid()
      modifies this, buffer, everyone
      ensures Valid() && everyone == old(everyone) && buffer == old(buffer)
      ensures emitted.number == old(sequence) + 1 && emitted.kind == event.kind
      ensures emitted.ts == if event.ts != 0 then event.ts else now
      ensures emitted.data == if event.data.Some? then event.data else Some(map[])
      ensures history == old(history) + [emitted]
      ensures forall i | 0 <= i < |everyone| :: everyone[i].View() == Handed(old(everyone[i].View()), emitted)
    {
      emitted := Number(event, now);
      assert history[..|history| - 1] == old(history);
      FanOut(emitted);
    }

    /** Registers a new subscription. */
    method Join(ghost since: int, ghost answered: bool, ghost origin: nat) returns (s: Subscription)
      requires ClientsValid() && AllFollow(history) && origin <= |history| && (answered && since > 0 ==> origin == since)
      modifies this`subscribers, this`nextID, this`everyone
      ensures ClientsValid() && fresh(s) && everyone == old(everyone) + [s] && Has(s)
      ensures s.since == since && s.answered == answered
      ensures s.origin == origin && s.queue == [] && s.received == [] && !s.closed && !s.overflowed && !s.asked
      ensures OthersFollow(s) && (origin == |history| ==> AllFollow(history))
    {
      s := new Subscription(this, nextID, since, answered, origin);
      nextID := nextID + 1;
      subscribers := subscribers[s.id := s];
      everyone := everyone + [s];
      assert s.Stream() == [];
    }

    /** Opens a stream after position `since`, replaying what was missed. */
    method Subscribe(since: int) returns (s: Subscription, replayable: bool)
      requires Valid()
      modifies this`subscribers, this`nextID, this`everyone
      ensures Valid() && fresh(s) && everyone == old(everyone) + [s] && Has(s)
      ensures s.since == since && s.answered == replayable == Replayable(since, |history|, |Window()|)
      ensures s.origin == (if replayable && since > 0 then since else |history|) && s.received == [] && !s.asked
      ensures var missed := history[s.origin..];
              && s.queue == missed[..Capped(|missed|)]
              && (s.closed <==> |missed| > SUBSCRIBER_BUFFER) && (s.closed ==> s.overflowed)
    {
      s := Join(since, Replayable(since, sequence, len), Origin(since, sequence, len));
      if since <= 0 { return s, true; }
      if since > sequence { return s, false; }
      var oldest := OldestSeq();
      OldestMeans();
      if oldest != 0 && since < oldest - 1 { return s, false; }
      Resume(s, since);
      replayable := true;
    }

    /** Every subscription but this one is up to date. */
    ghost predicate OthersFollow(s: Subscription)
      reads this`everyone, this`history, everyone
    {
      forall i {:trigger everyone[i].Following(history)} | 0 <= i < |everyone| && i != s.id :: everyone[i].Following(history)
    }

    /** Gives a new subscription what it missed. */
    method Resume(s: Subscription, since: nat)
      requires RingValid() && ClientsValid() && Has(s) && OthersFollow(s)
      requires since <= sequence && sequence - since <= len
      requires s.origin == since && s.queue == [] && s.received == [] && !s.closed && !s.overflowed && !s.asked
      modifies this`subscribers, s`queue, s`overflowed, s`closed
      ensures Valid()
      ensures var missed := history[since..];
              && s.queue == missed[..Capped(|missed|)]
              && (s.closed <==> |missed| > SUBSCRIBER_BUFFER) && (s.closed ==> s.overflowed)
    {
      var missed := ReplayFrom(since);
      assert missed[..0] == [] && s.Stream() == [];
      Replay(s, missed);
      assert missed[..|missed|] == missed;
    }

    /** A new subscription, once it has been handed the first `i` events it missed. */
    ghost predicate CaughtUp(s: Subscription, missed: seq<Event>, i: nat)
      reads this`history, s
    {
      && s.origin + i <= |history| && missed == history[s.origin..]
      && s.Following(history[..s.origin + i])
      && s.queue == missed[..Capped(i)] && (s.closed <==> i > SUBSCRIBER_BUFFER) && (s.closed ==> s.overflowed)
    }

    method ReplayOne(s: Subscription, missed: seq<Event>, i: nat)
      requires ClientsValid() && Has(s) && CaughtUp(s, missed, i) && i < |missed| && OthersFollow(s)
      modifies this`subscribers, s`queue, s`overflowed, s`closed
      ensures ClientsValid() && CaughtUp(s, missed, i + 1) && OthersFollow(s)
    {
      assert everyone[s.id].bus == this;
      assert forall i | 0 <= i < |everyone| :: everyone[i].id == i;
      ReplayNext(history, s.origin, missed, i);
      s.Deliver(missed[i], history[..s.origin + i]);
    }

    /** Delivers what a new subscription missed, as if it had been there. */
    method Replay(s: Subscription, missed: seq<Event>)
      requires RingValid() && ClientsValid() && Has(s) && CaughtUp(s, missed, 0) && OthersFollow(s)
      modifies this`subscribers, s`queue, s`overflowed, s`closed
      ensures RingValid() && ClientsValid() && CaughtUp(s, missed, |missed|) && AllFollow(history)
    {
      for i := 0 to |missed|
        invariant ClientsValid() && CaughtUp(s, missed, i) && OthersFollow(s)
      {
        ReplayOne(s, missed, i);
      }
      assert history[..s.origin + |missed|] == history;
    }

    /** Shutdown: no subscription stays open. */
    method Close()
      requires Valid()
      modifies this`subscribers, everyone`closed, everyone`asked
      ensures Valid() && subscribers == map[]
      ensures forall i | 0 <= i < |everyone| :: everyone[i].closed
    {
      while subscribers.Keys != {}
        invariant Valid()
        decreases subscribers.Keys
      {
        var id :| id in subscribers;
        assert subscribers[id] == everyone[id];
        subscribers[id].Close();
      }
    }
  }

  // ---------------------------------------------------------------------
  // What a client can rely on
  // ---------------------------------------------------------------------

  /** No gap goes undetected. A client receives and is queued exactly the events
      after its starting position, in order and without repeats; while its
      stream is open it is caught up with the bus, and it falls short of it only
      after a request to close or with `overflowed` set. */
  lemma NoUndetectedGap(bus: Bus, i: nat)
    requires bus.Valid() && i < |bus.everyone|
    ensures var s := bus.everyone[i];
            && s.origin + |s.Stream()| <= |bus.history|
            && (forall k | 0 <= k < |s.Stream()| ::
                s.Stream()[k] == bus.history[s.origin + k] && s.Stream()[k].number == s.origin + 1 + k)
            && s.received == s.Stream()[..|s.received|]
            && (!s.closed ==> s.origin + |s.Stream()| == bus.sequence)
            && (s.origin + |s.Stream()| < bus.sequence ==> s.closed && (s.overflowed || s.asked))
            && (s.overflowed ==> s.closed && s.origin + |s.Stream()| < bus.sequence)
  {
    var s := bus.everyone[i];
    assert s.Following(bus.history);
  }

  /** A position is replayable exactly when it is "from now", or one this
      process has reached of which every later event is still retained. */
  lemma ReplayableIffRetained(bus: Bus, since: int)
    requires bus.Valid()
    ensures Replayable(since, bus.sequence, bus.len) <==>
              since <= 0 || (since <= bus.sequence && forall k | since <= k < bus.sequence :: bus.history[k] in bus.Window())
  {
    var w := bus.Window();
    bus.OldestMeans();
    var first := bus.sequence - bus.len;
    assert w == bus.history[first..];
    if 0 < since <= bus.sequence {
      if bus.sequence - since <= bus.len {
        forall k | since <= k < bus.sequence ensures bus.history[k] in w { assert w[k - first] == bus.history[k]; }
      } else {
        forall j | 0 <= j < |w| ensures w[j] != bus.history[since] { assert w[j].number == first + j + 1; }
        assert bus.history[since] !in w;
      }
    }
  }

  /** Where a client that has taken its events so far stands. */
  ghost function Position(s: Subscription): nat
    reads s
  {
    s.origin + |s.received|
  }

  /** The client asked for the position it had got to, past the beginning, and
      was told it could resume there. */
  ghost predicate Reconnects(s: Subscription, before: Subscription)
    reads before
  {
    s.since == Position(before) > 0 && s.answered
  }

  ghost predicate Chained(subs: seq<Subscription>)
    reads subs
  {
    forall k {:trigger subs[k]} | 0 < k < |subs| :: Reconnects(subs[k], subs[k - 1])
  }

  ghost function Joined(subs: seq<Subscription>): seq<Event>
    reads subs
  {
    if subs == [] then [] else Joined(subs[..|subs| - 1]) + subs[|subs| - 1].received
  }

  lemma ReceivedIsAStretch(bus: Bus, s: Subscription)
    requires bus.Valid() && bus.Has(s)
    ensures StretchOf(bus.history, s.origin, s.received)
  {
    assert bus.everyone[s.id].Following(bus.history);
    assert s.received == s.Stream()[..|s.received|];
  }

  lemma StretchesJoin(history: seq<Event>, origin: nat, a: seq<Event>, b: seq<Event>)
    requires StretchOf(history, origin, a) && StretchOf(history, origin + |a|, b)
    ensures StretchOf(history, origin, a + b)
  {
  }

  lemma {:induction false} JoinedIsAStretch(history: seq<Event>, subs: seq<Subscription>)
    requires subs != [] && forall k | 0 <= k < |subs| :: StretchOf(history, subs[k].origin, subs[k].received)
    requires forall k | 0 < k < |subs| :: subs[k].origin == Position(subs[k - 1])
    ensures StretchOf(history, subs[0].origin, Joined(subs))
    ensures subs[0].origin + |Joined(subs)| == Position(subs[|subs| - 1])
    decreases |subs|
  {
    var n := |subs| - 1;
    if n == 0 {
      assert Joined(subs[..0]) == [];
    } else {
      JoinedIsAStretch(history, subs[..n]);
      StretchesJoin(history, subs[0].origin, Joined(subs[..n]), subs[n].received);
    }
  }

  lemma ResumesWhereTold(bus: Bus, s: Subscription)
    requires bus.Valid() && bus.Has(s) && s.answered && s.since > 0
    ensures s.origin == s.since
  {
    assert bus.everyone[s.id].Resumes();
  }

  /** Reconnecting again and again at the last position seen makes one
      contiguous stream of everything received. */
  lemma ReconnectsCompose(bus: Bus, subs: seq<Subscription>)
    requires bus.Valid() && subs != [] && Chained(subs) && forall k | 0 <= k < |subs| :: bus.Has(subs[k])
    ensures StretchOf(bus.history, subs[0].origin, Joined(subs))
    ensures subs[0].origin + |Joined(subs)| == Position(subs[|subs| - 1])
  {
    forall k | 0 <= k < |subs| ensures StretchOf(bus.history, subs[k].origin, subs[k].received) {
      ReceivedIsAStretch(bus, subs[k]);
    }
    forall k | 0 < k < |subs| ensures subs[k].origin == Position(subs[k - 1]) {
      assert Reconnects(subs[k], subs[k - 1]);
      ResumesWhereTold(bus, subs[k]);
    }
    JoinedIsAStretch(bus.history, subs);
  }

  /** A client that reconnects where it left off is told the position can be
      resumed and still misses events exactly when that position is zero and
      something has been emitted: zero means "from now". */
  lemma ReconnectSkipsIffAtZero(bus: Bus, position: nat)
    requires bus.Valid() && position <= bus.sequence
    ensures Replayable(position, bus.sequence, bus.len) && Origin(position, bus.sequence, bus.len) != position
       <==> position == 0 && bus.history != []
  {
  }

  /** Such a client: it connects to a fresh bus, loses its connection before
      anything happens, and comes back after the first event. It is told it can
      resume, and never hears of that event. */
  method ReconnectAtZeroSkips(bus: Bus, event: Event, now: nat)
    returns (first: Subscription, second: Subscription, emitted: Event)
    requires bus.Valid() && bus.history == [] && bus.everyone == []
    modifies bus, bus.buffer
    ensures bus.Valid() && bus.Has(first) && bus.Has(second)
    ensures Position(first) == 0 == second.since && second.answered
    ensures bus.history == [emitted] && !second.closed && second.origin == 1 && second.Stream() == []
  {
    first := ConnectAndLeave(bus);
    assert first.View().received == [];
    emitted := bus.Emit(event, now);
    assert bus.everyone[0] == first && first.View().received == [];
    var resumed;
    second, resumed := bus.Subscribe(0);
    assert bus.history[second.origin..] == [];
  }

  method ConnectAndLeave(bus: Bus) returns (s: Subscription)
    requires bus.Valid() && bus.history == [] && bus.everyone == []
    modifies bus
    ensures bus.Valid() && fresh(s) && bus.everyone == [s] && bus.history == [] && bus.buffer == old(bus.buffer)
    ensures bus.Has(s) && Position(s) == 0 && s.received == [] && s.origin == 0
  {
    var resumed;
    s, resumed := bus.Subscribe(0);
    assert bus.everyone[0] == s && s.bus == bus;
    assert s.queue == [];
    s.Close();
  }
}
