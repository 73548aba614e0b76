/** The worker's two threads: ai/nikucooker_ai/worker.py.

  The reader thread and the data thread share a queue, a table of requests
  being served and, per request, a `finished` flag. Each method below is one
  atomic step of one of them: a queue operation, a block under the lock, one
  line written. Any interleaving of the steps is a run, so what `Valid` says
  holds in all of them. Requests have distinct ids.
  */
module Worker {

  const QUEUE_DEPTH := 8

  type Id = string

  /** How a handler ends: with a result, without one, with an error, or because
      it found its token cancelled. */
  datatype Ending = Result | NoResult | Error | Cancelled

  datatype Event =
    | Progress(id: Id)
    | Terminal(id: Id, ending: Ending)
    /** A control request's own result. */
    | Reply(id: Id)
    /** A cancel's result. `timedOut` is not on the wire: it says whether the
        settle timeout ran out. */
    | Answer(id: Id, target: Id, cancelled: bool, timedOut: bool)

  datatype Queued = Request(id: Id) | Stop

  /** Where the reader thread is: between requests, serving a cancel, or done. */
  datatype Reader =
    | Reading
    | Found(id: Id, target: Id, entry: nat)
    | Waiting(id: Id, target: Id, entry: nat)
    | Answering(id: Id, target: Id, cancelled: bool, timedOut: bool)
    | Closed

  /** Where the data thread is with the request it took. */
  datatype Data =
    | Idle
    | Taken(id: Id)
    | Serving(id: Id, entry: nat)
    | Reported(id: Id, entry: nat)
    | Removed(id: Id, entry: nat)
    | Exited

  predicate Ends(e: Event, id: Id) {
    e.Terminal? && e.id == id
  }

  // ---------------------------------------------------------------------
  // The line of requests
  // ---------------------------------------------------------------------

  ghost predicate Places(accepted: seq<Id>, place: map<Id, nat>) {
    && (forall i | 0 <= i < |accepted| :: accepted[i] in place && place[accepted[i]] == i)
    && (forall id | id in place :: place[id] < |accepted| && accepted[place[id]] == id)
  }

  /** The accepted requests: so many are over, then comes the one taken, if
      any, then those waiting. */
  ghost predicate InLine(accepted: seq<Id>, over: nat, current: seq<Id>, waiting: seq<Id>) {
    over <= |accepted| && accepted == accepted[..over] + current + waiting
  }

  lemma JoinsLine(accepted: seq<Id>, over: nat, current: seq<Id>, waiting: seq<Id>, place: map<Id, nat>, id: Id)
    requires InLine(accepted, over, current, waiting) && Places(accepted, place) && id !in accepted
    ensures InLine(accepted + [id], over, current, waiting + [id]) && (accepted + [id])[..over] == accepted[..over]
    ensures Places(accepted + [id], place[id := |accepted|])
  {
    assert accepted + [id] == accepted[..over] + current + (waiting + [id]);
  }

  lemma TakenFromLine(accepted: seq<Id>, over: nat, id: Id, waiting: seq<Id>)
    requires InLine(accepted, over, [], [id] + waiting)
    ensures InLine(accepted, over, [id], waiting)
  {
    assert accepted[..over] + [] + ([id] + waiting) == accepted[..over] + [id] + waiting;
  }

  lemma LeavesLine(accepted: seq<Id>, over: nat, id: Id, waiting: seq<Id>)
    requires InLine(accepted, over, [id], waiting)
    ensures InLine(accepted, over + 1, [], waiting) && accepted[..over + 1] == accepted[..over] + [id]
  {
  }

  // ---------------------------------------------------------------------
  // What may be said about a request, and when
  // ---------------------------------------------------------------------

  /** Where requests stand: those over, refused, being served, and each
      accepted one's place in the line. */
  datatype Standing = Standing(past: seq<Id>, refused: set<Id>, serving: seq<Id>, place: map<Id, nat>)

  ghost predicate NotEnded(log: seq<Event>, id: Id) {
    forall p | 0 <= p < |log| :: !Ends(log[p], id)
  }

  /** A cancel of this request was acknowledged, within its timeout. */
  predicate Acknowledges(e: Event, id: Id) {
    e.Answer? && e.cancelled && !e.timedOut && e.target == id
  }

  /** This event may come after those: it is about a request that is over,
      refused or being served, the only one to end it, after those that came
      earlier in line, and before any cancel of it is acknowledged; and a
      cancel is acknowledged only of a request that is over. */
  ghost predicate MayFollow(before: seq<Event>, e: Event, st: Standing) {
    && (e.Terminal? || e.Progress? ==>
          && (e.id in st.past || e.id in st.refused || e.id in st.serving)
          && forall p | 0 <= p < |before| :: !Acknowledges(before[p], e.id))
    && (e.Terminal? ==>
          && NotEnded(before, e.id)
          && (e.id in st.place ==>
                forall p | 0 <= p < |before| && before[p].Terminal? && before[p].id in st.place ::
                  st.place[before[p].id] < st.place[e.id]))
    && (e.Answer? && e.cancelled && !e.timedOut ==> e.target in st.past)
  }

  ghost predicate LogOk(log: seq<Event>, st: Standing)
    decreases |log|
  {
    log == [] || (LogOk(log[..|log| - 1], st) && MayFollow(log[..|log| - 1], log[|log| - 1], st))
  }

  lemma LogExtends(log: seq<Event>, st: Standing, e: Event)
    requires LogOk(log, st) && MayFollow(log, e, st)
    ensures LogOk(log + [e], st)
  {
    assert (log + [e])[..|log|] == log;
  }

  lemma MayAnswer(log: seq<Event>, st: Standing, e: Event)
    requires e.Reply? || (e.Answer? && (e.cancelled && !e.timedOut ==> e.target in st.past))
    ensures MayFollow(log, e, st)
  {
  }

  /** Requests moved on, and none that joined the line has ended. */
  ghost predicate MovedOn(log: seq<Event>, a: Standing, b: Standing) {
    && (forall id | id in a.past :: id in b.past)
    && a.refused <= b.refused
    && (forall id | id in a.serving :: id in b.past || id in b.serving)
    && (forall id | id in b.place :: (id in a.place && a.place[id] == b.place[id]) || NotEnded(log, id))
  }

  lemma {:induction false} LogStays(log: seq<Event>, a: Standing, b: Standing)
    requires LogOk(log, a) && MovedOn(log, a, b)
    ensures LogOk(log, b)
    decreases |log|
  {
    if log != [] {
      var n := |log| - 1;
      forall id | NotEnded(log, id) ensures NotEnded(log[..n], id) {
        assert forall p | 0 <= p < n :: log[..n][p] == log[p];
      }
      LogStays(log[..n], a, b);
      StillMayFollow(log[..n], log[n], a, b);
    }
  }

  /** A request is served, and then it is over. */
  lemma LogServed(log: seq<Event>, past: seq<Id>, refused: set<Id>, id: Id, place: map<Id, nat>)
    ensures LogOk(log, Standing(past, refused, [], place)) ==> LogOk(log, Standing(past, refused, [id], place))
    ensures LogOk(log, Standing(past, refused, [id], place)) ==> LogOk(log, Standing(past + [id], refused, [], place))
  {
    var free, served := Standing(past, refused, [], place), Standing(past, refused, [id], place);
    if LogOk(log, free) { LogStays(log, free, served); }
    if LogOk(log, served) { LogStays(log, served, Standing(past + [id], refused, [], place)); }
  }

  lemma StillMayFollow(before: seq<Event>, e: Event, a: Standing, b: Standing)
    requires MayFollow(before, e, a) && MovedOn(before + [e], a, b)
    ensures MayFollow(before, e, b)
  {
    var log := before + [e];
    forall p | 0 <= p < |log| && log[p].Terminal? ensures !NotEnded(log, log[p].id) {
      assert Ends(log[p], log[p].id);
    }
    assert log[|before|] == e && forall p | 0 <= p < |before| :: log[p] == before[p];
  }

  /** Each event came where it may. */
  lemma {:induction false} LogMeans(log: seq<Event>, st: Standing, p: nat)
    requires LogOk(log, st) && p < |log|
    ensures MayFollow(log[..p], log[p], st)
    decreases |log|
  {
    var n := |log| - 1;
    if p < n {
      LogMeans(log[..n], st, p);
      assert log[..n][..p] == log[..p];
    }
  }

  class Worker {
    var queue: seq<Queued>
    var inflight: map<Id, nat>
    /** The tokens and the flags of the entries made so far, by number. */
    var cancelled: set<nat>
    var finished: set<nat>
    var nextEntry: nat
    var stopping: bool
    var reader: Reader
    var data: Data
    var log: seq<Event>

    /** The ids put on the queue, in order, how many of them are over, and
        those that were refused. */
    ghost var accepted: seq<Id>
    ghost var over: nat
    ghost var refused: set<Id>
    /** Where each accepted id stands among the accepted. */
    ghost var place: map<Id, nat>

    constructor ()
      ensures Valid() && reader == Reading && data == Idle && queue == [] && log == [] && accepted == []
          && refused == {} && !stopping
    {
      queue, inflight, cancelled, finished, nextEntry, stopping := [], map[], {}, {}, 0, false;
      reader, data, log, accepted, over, refused, place := Reading, Idle, [], [], 0, {}, map[];
    }

    // -------------------------------------------------------------------
    // What every interleaving keeps
    // -------------------------------------------------------------------

    ghost function Current(): seq<Id>
      reads this`data
    {
      if data.Idle? || data.Exited? then [] else [data.id]
    }

    /** The queue's requests, in order, without the mark that ends it. */
    static ghost function Ids(queue: seq<Queued>): seq<Id> {
      if queue == [] then []
      else Ids(queue[..|queue| - 1]) + (if queue[|queue| - 1].Request? then [queue[|queue| - 1].id] else [])
    }

    /** Requests are served in arrival order, one at a time. */
    ghost predicate InOrder()
      reads this`over, this`accepted, this`data, this`queue, this`refused, this`place
    {
      && InLine(accepted, over, Current(), Ids(queue)) && Places(accepted, place)
      && (forall i | 0 <= i < |accepted| :: accepted[i] !in refused)
    }

    /** The shared tables say where the data thread is. */
    ghost predicate TablesOk()
      reads this`finished, this`over, this`nextEntry, this`data, this`inflight
    {
      && (forall e: nat :: e in finished <==> e < over)
      && nextEntry == over + (if data.Serving? || data.Reported? || data.Removed? then 1 else 0)
      && ((data.Serving? || data.Reported? || data.Removed?) ==> data.entry == over)
      && inflight == (if data.Serving? || data.Reported? then map[data.id := data.entry] else map[])
    }

    /** The requests that are over, in order. */
    ghost function Past(): seq<Id>
      reads this`over, this`accepted
    {
      if over <= |accepted| then accepted[..over] else []
    }

    ghost predicate Over(id: Id)
      reads this`over, this`accepted
    {
      id in Past()
    }

    /** The request whose entry the data thread has made, if any. */
    ghost function Served(): seq<Id>
      reads this`data
    {
      if data.Serving? || data.Reported? || data.Removed? then [data.id] else []
    }

    ghost function Standings(): Standing
      reads this`over, this`accepted, this`refused, this`data, this`place
    {
      Standing(Past(), refused, Served(), place)
    }

    /** What the log says about a request fits where it is. */
    ghost predicate LogFits()
      reads this`log, this`over, this`accepted, this`refused, this`data, this`place
    {
      LogOk(log, Standings()) && (data.Serving? ==> NotEnded(log, data.id))
    }

    ghost predicate ReaderOk()
      reads this`reader, this`nextEntry, this`accepted, this`cancelled, this`over
    {
      match reader
      case Found(_, target, entry) => entry < nextEntry && entry < |accepted| && accepted[entry] == target
      case Waiting(_, target, entry) =>
        entry < nextEntry && entry < |accepted| && accepted[entry] == target && entry in cancelled
      case Answering(_, target, cancelled, timedOut) => cancelled && !timedOut ==> Over(target)
      case _ => true
    }

    ghost predicate StopOk()
      reads this`queue, this`reader, this`data
    {
      && |queue| <= QUEUE_DEPTH
      && (forall i | 0 <= i < |queue| :: queue[i].Stop? ==> i == |queue| - 1 && reader.Closed?)
      && (data.Exited? ==> queue == [] && reader.Closed?)
    }

    ghost predicate Valid()
      reads this
    {
      InOrder() && TablesOk() && LogFits() && ReaderOk() && StopOk()
    }

    /** The request the data thread has is the next one accepted, and is neither over nor refused. */
    lemma CurrentIsNext()
      requires InOrder() && !data.Idle? && !data.Exited?
      ensures over < |accepted| && accepted[over] == data.id && !Over(data.id) && data.id !in refused
    {
      assert accepted == accepted[..over] + [data.id] + Ids(queue);
    }

    /** Nothing has been said of a request that is neither accepted nor refused. */
    lemma NewIsUnheardOf(id: Id)
      requires InOrder() && LogFits() && id !in accepted && id !in refused
      ensures id !in Past() && id !in Served() && id !in place && NotEnded(log, id)
      ensures forall p | 0 <= p < |log| :: !Acknowledges(log[p], id)
    {
      assert forall x | x in Past() :: x in accepted;
      if !data.Idle? && !data.Exited? { CurrentIsNext(); }
      forall p | 0 <= p < |log| ensures !Ends(log[p], id) && !Acknowledges(log[p], id) {
        LogMeans(log, Standings(), p);
      }
    }

    /** Answering a control request says nothing about any other. */
    lemma MaySay(e: Event)
      requires LogFits() && (e.Reply? || (e.Answer? && (e.cancelled && !e.timedOut ==> Over(e.target))))
      ensures LogOk(log + [e], Standings()) && (data.Serving? ==> NotEnded(log + [e], data.id))
    {
      MayAnswer(log, Standings(), e);
      LogExtends(log, Standings(), e);
    }

    /** A request just taken has not ended. */
    lemma NotYetEnded()
      requires InOrder() && LogFits() && data.Taken?
      ensures NotEnded(log, data.id)
    {
      CurrentIsNext();
      forall p | 0 <= p < |log| ensures !Ends(log[p], data.id) {
        LogMeans(log, Standings(), p);
      }
    }

    /** The request being served may be reported on. */
    lemma MayReport(e: Event)
      requires InOrder() && LogFits() && data.Serving? && (e.Terminal? || e.Progress?) && e.id == data.id
      ensures LogOk(log + [e], Standings())
      ensures e.Progress? ==> NotEnded(log + [e], data.id)
    {
      CurrentIsNext();
      forall p | 0 <= p < |log|
        ensures !Acknowledges(log[p], data.id)
        ensures log[p].Terminal? && log[p].id in place ==> data.id in place && place[log[p].id] < place[data.id]
      {
        LogMeans(log, Standings(), p);
        assert !Ends(log[p], data.id);
        if log[p].Terminal? && log[p].id in place {
          assert accepted[place[log[p].id]] !in refused;
          var i :| 0 <= i < over && accepted[..over][i] == log[p].id;
          assert accepted[i] == log[p].id;
        }
      }
      LogExtends(log, Standings(), e);
    }

    // -------------------------------------------------------------------
    // The reader thread
    // -------------------------------------------------------------------

    /** Refuses a request: it cannot be decoded, or the queue is full. */
    method Refuse(id: Id)
      requires Valid() && reader.Reading? && !stopping && id !in accepted && id !in refused
      modifies this`refused, this`log
      ensures Valid() && refused == old(refused) + {id} && log == old(log) + [Terminal(id, Error)]
    {
      NewIsUnheardOf(id);
      ghost var st := Standings().(refused := refused + {id});
      LogStays(log, Standings(), st);
      LogExtends(log, st, Terminal(id, Error));
      refused := refused + {id};
      log := log + [Terminal(id, Error)];
    }

    /** Puts a request on the queue. */
    method Enqueue(id: Id)
      requires InOrder() && TablesOk() && ReaderOk() && StopOk() && reader.Reading? && |queue| < QUEUE_DEPTH
      requires id !in accepted && id !in refused
      modifies this`queue, this`accepted, this`place
      ensures InOrder() && TablesOk() && ReaderOk() && StopOk()
      ensures accepted == old(accepted) + [id] && queue == old(queue) + [Request(id)]
      ensures place == old(place)[id := |old(accepted)|] && Past() == old(Past())
    {
      ghost var waiting := queue;
      JoinsLine(accepted, over, Current(), Ids(queue), place, id);
      queue := queue + [Request(id)];
      assert queue[..|queue| - 1] == waiting;
      place := place[id := |accepted|];
      accepted := accepted + [id];
    }

    /** Queues a data request, or refuses it when the queue is full. */
    method Submit(id: Id)
      requires Valid() && reader.Reading? && !stopping && id !in accepted && id !in refused
      modifies this`queue, this`accepted, this`refused, this`log, this`place
      ensures Valid()
      ensures |old(queue)| < QUEUE_DEPTH ==>
                accepted == old(accepted) + [id] && queue == old(queue) + [Request(id)] && log == old(log)
      ensures |old(queue)| >= QUEUE_DEPTH ==>
                accepted == old(accepted) && queue == old(queue) && log == old(log) + [Terminal(id, Error)]
    {
      if |queue| >= QUEUE_DEPTH {
        Refuse(id);
        return;
      }
      NewIsUnheardOf(id);
      LogStays(log, Standings(), Standings().(place := place[id := |accepted|]));
      Enqueue(id);
    }

    /** Writes a control request's result. */
    method WriteReply(e: Event)
      requires Valid() && (e.Reply? || (e.Answer? && (e.cancelled && !e.timedOut ==> Over(e.target))))
      modifies this`log
      ensures Valid() && log == old(log) + [e]
    {
      MaySay(e);
      log := log + [e];
      assert InOrder();
      assert TablesOk();
      assert LogFits();
    }

    /** Serves any other control request on the spot. */
    method Control(id: Id, shutdown: bool)
      requires Valid() && reader.Reading? && !stopping
      modifies this`log, this`stopping
      ensures Valid() && log == old(log) + [Reply(id)] && stopping == (old(stopping) || shutdown)
    {
      stopping := stopping || shutdown;
      WriteReply(Reply(id));
    }

    /** A cancel looks its target up. */
    method LookUp(id: Id, target: Id)
      requires Valid() && reader.Reading? && !stopping
      modifies this`reader
      ensures Valid()
      ensures reader == if target in inflight then Found(id, target, inflight[target]) else Answering(id, target, false, false)
    {
      reader := if target in inflight then Found(id, target, inflight[target]) else Answering(id, target, false, false);
    }

    /** It sets the target's token. */
    method SetToken()
      requires Valid() && reader.Found?
      modifies this`reader, this`cancelled
      ensures Valid() && reader == Waiting(old(reader).id, old(reader).target, old(reader).entry)
      ensures cancelled == old(cancelled) + {old(reader).entry}
    {
      cancelled := cancelled + {reader.entry};
      reader := Waiting(reader.id, reader.target, reader.entry);
    }

    /** It waits for the target's flag, until the timeout if that comes first. */
    method StopWaiting(timeout: bool)
      requires Valid() && reader.Waiting? && (timeout || reader.entry in finished)
      modifies this`reader
      ensures Valid() && reader == Answering(old(reader).id, old(reader).target, true, old(reader).entry !in finished)
    {
      reader := Answering(reader.id, reader.target, true, reader.entry !in finished);
    }

    /** It answers. */
    method WriteAnswer()
      requires Valid() && reader.Answering?
      modifies this`reader, this`log
      ensures Valid() && reader == Reading
      ensures log == old(log) + [Answer(old(reader).id, old(reader).target, old(reader).cancelled, old(reader).timedOut)]
    {
      WriteReply(Answer(reader.id, reader.target, reader.cancelled, reader.timedOut));
      reader := Reading;
    }

    /** At the end of input, or after a shutdown, the queue is closed. */
    method Close()
      requires Valid() && reader.Reading? && |queue| < QUEUE_DEPTH
      modifies this`reader, this`stopping, this`queue
      ensures Valid() && reader == Closed && stopping && queue == old(queue) + [Stop]
    {
      stopping := true;
      queue := queue + [Stop];
      reader := Closed;
    }

    // -------------------------------------------------------------------
    // The data thread
    // -------------------------------------------------------------------

    /** Takes the next request off the queue. */
    method Take()
      requires Valid() && data.Idle? && queue != []
      modifies this`queue, this`data
      ensures Valid() && queue == old(queue)[1..]
      ensures data == if old(queue)[0].Stop? then Exited else Taken(old(queue)[0].id)
    {
      HeadOfLine(accepted, over, queue);
      var next := queue[0];
      queue := queue[1..];
      data := if next.Stop? then Exited else Taken(next.id);
    }

    static lemma HeadOfLine(accepted: seq<Id>, over: nat, queue: seq<Queued>)
      requires queue != [] && InLine(accepted, over, [], Ids(queue))
      ensures InLine(accepted, over, if queue[0].Request? then [queue[0].id] else [], Ids(queue[1..]))
    {
      IdsHead(queue);
      if queue[0].Request? {
        TakenFromLine(accepted, over, queue[0].id, Ids(queue[1..]));
      } else {
        assert Ids(queue) == Ids(queue[1..]);
      }
    }

    static lemma {:induction false} IdsHead(queue: seq<Queued>)
      requires queue != []
      ensures Ids(queue) == (if queue[0].Request? then [queue[0].id] else []) + Ids(queue[1..])
      decreases |queue|
    {
      var n := |queue| - 1;
      if n > 0 {
        IdsHead(queue[..n]);
        assert queue[..n][1..] == queue[1..][..n - 1];
      } else {
        assert queue[..0] == [] && queue[1..] == [];
      }
    }

    /** Makes an entry for it, under the lock. */
    method Register()
      requires Valid() && data.Taken?
      modifies this`inflight, this`nextEntry, this`data
      ensures Valid() && data == Serving(old(data).id, old(nextEntry))
    {
      CurrentIsNext();
      NotYetEnded();
      LogServed(log, Past(), refused, data.id, place);
      inflight := inflight[data.id := nextEntry];
      data := Serving(data.id, nextEntry);
      nextEntry := nextEntry + 1;
    }

    method EmitProgress()
      requires Valid() && data.Serving?
      modifies this`log
      ensures Valid() && log == old(log) + [Progress(data.id)]
    {
      MayReport(Progress(data.id));
      log := log + [Progress(data.id)];
    }

    /** The handler ends, and its terminal event is written. A token stops a
        handler only once it is set. */
    method Report(ending: Ending)
      requires Valid() && data.Serving? && (ending == Cancelled ==> data.entry in cancelled)
      modifies this`log, this`data
      ensures Valid() && data == Reported(old(data).id, old(data).entry)
      ensures log == if ending == NoResult then old(log) else old(log) + [Terminal(old(data).id, ending)]
    {
      if ending != NoResult {
        MayReport(Terminal(data.id, ending));
        log := log + [Terminal(data.id, ending)];
      }
      data := Reported(data.id, data.entry);
    }

    /** Its entry is dropped, under the lock. */
    method Drop()
      requires Valid() && data.Reported?
      modifies this`inflight, this`data
      ensures Valid() && data == Removed(old(data).id, old(data).entry) && data.id !in inflight
    {
      inflight := inflight - {data.id};
      data := Removed(data.id, data.entry);
    }

    /** And its flag is set, last of all. */
    method Finish()
      requires Valid() && data.Removed?
      modifies this`finished, this`data, this`over
      ensures Valid() && data == Idle && finished == old(finished) + {old(data).entry}
      ensures over == old(over) + 1 && Over(old(data).id)
    {
      ghost var past, id := Past(), data.id;
      LeavesLine(accepted, over, id, Ids(queue));
      LogServed(log, past, refused, id, place);
      finished := finished + {data.entry};
      data := Idle;
      over := over + 1;
      assert Past() == past + [id];
      assert InOrder();
      assert TablesOk();
      assert LogFits();
      assert ReaderOk();
    }
  }

  // ---------------------------------------------------------------------
  // What the core can rely on
  // ---------------------------------------------------------------------

  /** Each request's terminal event is written at most once, and requests are
      served one at a time in arrival order: the log speaks only of requests
      that are over, refused, or the one being served, and the accepted ones
      end in it in the order they arrived. */
  lemma ServedOnceInOrder(w: Worker, p: nat, q: nat)
    requires w.Valid() && p < q < |w.log|
    ensures w.log[p].Terminal? && w.log[q].Terminal? ==> w.log[p].id != w.log[q].id
    ensures w.over <= |w.accepted| && w.accepted == w.accepted[..w.over] + w.Current() + Worker.Ids(w.queue)
    ensures w.log[q].Terminal? && w.log[q].id !in w.refused ==>
              w.log[q].id in w.accepted[..w.over] || (w.log[q].id in w.Current() && (w.data.Reported? || w.data.Removed?))
    ensures w.log[p].Terminal? && w.log[q].Terminal? && w.log[p].id !in w.refused && w.log[q].id !in w.refused ==>
              exists i, j | 0 <= i < j < |w.accepted| :: w.accepted[i] == w.log[p].id && w.accepted[j] == w.log[q].id
  {
    LogMeans(w.log, w.Standings(), q);
    assert w.log[..q][p] == w.log[p] && !(w.log[p].Terminal? && w.log[q].Terminal? && Ends(w.log[p], w.log[q].id));
    if w.log[p].Terminal? && w.log[q].Terminal? && w.log[p].id !in w.refused && w.log[q].id !in w.refused {
      TerminalIsPlaced(w, p);
      TerminalIsPlaced(w, q);
      var i, j := w.place[w.log[p].id], w.place[w.log[q].id];
      assert w.accepted[i] == w.log[p].id && w.accepted[j] == w.log[q].id;
    }
  }

  lemma TerminalIsPlaced(w: Worker, p: nat)
    requires w.Valid() && p < |w.log| && w.log[p].Terminal? && w.log[p].id !in w.refused
    ensures w.log[p].id in w.place
    ensures w.Over(w.log[p].id) || (w.log[p].id in w.Current() && (w.data.Reported? || w.data.Removed?))
  {
    LogMeans(w.log, w.Standings(), p);
    if w.Over(w.log[p].id) {
      var i :| 0 <= i < w.over && w.accepted[..w.over][i] == w.log[p].id;
      assert w.accepted[i] == w.log[p].id;
    } else {
      assert w.log[p].id in w.Served();
      w.CurrentIsNext();
      assert w.data.Serving? ==> !Ends(w.log[p], w.data.id);
    }
  }

  /** Cancellation ordering. A cancel answered true, unless its wait timed out,
      follows the target's terminal event and everything else about the
      target, and the target is over: nothing about it is ever written after. */
  lemma AcknowledgedMeansOver(w: Worker, p: nat)
    requires w.Valid() && p < |w.log| && w.log[p].Answer? && w.log[p].cancelled && !w.log[p].timedOut
    ensures w.Over(w.log[p].target)
    ensures forall q | 0 <= q < |w.log| && (w.log[q].Progress? || w.log[q].Terminal?) && w.log[q].id == w.log[p].target :: q < p
  {
    LogMeans(w.log, w.Standings(), p);
    forall q | p <= q < |w.log| && (w.log[q].Progress? || w.log[q].Terminal?) ensures w.log[q].id != w.log[p].target {
      LogMeans(w.log, w.Standings(), q);
      if q > p { assert w.log[..q][p] == w.log[p] && Acknowledges(w.log[..q][p], w.log[p].target); }
    }
  }

  /** A cancel finds its target exactly while the target is being served: not
      before it is taken up, not once it is reported and removed, and never if
      it was refused or is unknown. */
  lemma FoundIffServed(w: Worker, target: Id)
    requires w.Valid()
    ensures target in w.inflight <==> (w.data.Serving? || w.data.Reported?) && w.data.id == target
    ensures target !in w.inflight ==>
              || target !in w.accepted
              || w.Over(target)
              || target in Worker.Ids(w.queue)
              || (target in w.Current() && (w.data.Taken? || w.data.Removed?))
  {
    if target !in w.inflight && target in w.accepted {
      assert w.accepted == w.accepted[..w.over] + w.Current() + Worker.Ids(w.queue);
    }
  }

  /** Once the data thread has exited, every accepted request is over. */
  lemma ExitsEmpty(w: Worker)
    requires w.Valid() && w.data.Exited?
    ensures w.over == |w.accepted|
  {
    assert Worker.Ids(w.queue) == [];
    assert w.accepted[w.over..] == [];
  }

  /** One request served from start to end. */
  method ServeNext(w: Worker, id: Id)
    requires w.Valid() && w.data.Idle? && w.queue != [] && w.queue[0] == Request(id)
    modifies w
    ensures w.Valid() && w.log == old(w.log) + [Terminal(id, Result)]
  {
    w.Take();
    w.Register();
    w.Report(Result);
  }

  /** A cancel of a request that is not being served changes nothing. */
  method CancelMisses(w: Worker, cancel: Id, target: Id)
    requires w.Valid() && w.reader.Reading? && !w.stopping && target !in w.inflight
    modifies w`reader, w`log
    ensures w.Valid() && w.log == old(w.log) + [Answer(cancel, target, false, false)]
  {
    w.LookUp(cancel, target);
    w.WriteAnswer();
  }

  /** A cancel that comes while its target is still queued is answered false,
      although the target has not finished: it is served to the end afterwards. */
  method CancelOfQueuedIsLost(first: Id, cancel: Id) returns (w: Worker)
    ensures fresh(w) && w.Valid()
    ensures w.log == [Answer(cancel, first, false, false), Terminal(first, Result)]
  {
    w := new Worker();
    w.Submit(first);
    assert w.queue == [Request(first)] && w.log == [];
    CancelMisses(w, cancel, first);
    ServeNext(w, first);
  }
}
