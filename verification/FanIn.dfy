/**
 The stream handler: one goroutine per broker moves events from its bounded queue to an unbuffered channel,
 and a single writer prints what it receives there, with heartbeats in between. A protocol over steps.
 */
module FanIn {
  import opened Events
  import opened Wrappers
  import opened EventStream
  import opened Sequences
  import BM = BrokerModel

  /** One stream: what its queue ever accepted, what still waits there, and what its goroutine holds. */
  datatype Stream = Stream(accepted: seq<Event>, queue: seq<Event>, hand: Option<Event>)

  /** What reached the response, in order. */
  datatype Output = From(stream: nat, e: Event) | Heartbeat

  /** `writing` is the event the writer received and has not printed yet. */
  datatype State = State(streams: seq<Stream>, writing: Option<(nat, Event)>, output: seq<Output>,
                         body: string, buf: nat)

  datatype Step =
    | Publish(stream: nat, e: Event)  // the broker's non-blocking send
    | Take(stream: nat)               // the goroutine receives from the queue
    | Hand(stream: nat)               // rendezvous of goroutine and writer
    | Write
    | Beat

  function Init(n: nat, buf: nat): State {
    State(seq(n, i => Stream([], [], None)), None, [], "", buf)
  }

  /** The guard of each step; channel operations block until it holds. */
  predicate Enabled(s: State, step: Step) {
    match step
    case Publish(i, e) => i < |s.streams|
    case Take(i) => i < |s.streams| && s.streams[i].hand == None && s.streams[i].queue != []
    case Hand(i) => i < |s.streams| && s.streams[i].hand.Some? && s.writing == None
    case Write => s.writing.Some?
    case Beat => s.writing == None
  }

  function Next(s: State, step: Step): State
    requires Enabled(s, step)
  {
    match step
    case Publish(i, e) =>
      var t := s.streams[i];
      if |t.queue| < s.buf
      then s.(streams := s.streams[i := t.(accepted := t.accepted + [e], queue := t.queue + [e])])
      else s
    case Take(i) =>
      var t := s.streams[i];
      s.(streams := s.streams[i := t.(queue := t.queue[1..], hand := Some(t.queue[0]))])
    case Hand(i) =>
      var t := s.streams[i];
      s.(streams := s.streams[i := t.(hand := None)], writing := Some((i, t.hand.value)))
    case Write =>
      var (i, e) := s.writing.value;
      s.(writing := None, output := s.output + [From(i, e)], body := s.body + PrintEvent(e))
    case Beat =>
      s.(output := s.output + [Heartbeat], body := s.body + PING)
  }

  ghost predicate IsRun(s: State, steps: seq<Step>)
    decreases |steps|
  {
    steps == [] || (Enabled(s, steps[0]) && IsRun(Next(s, steps[0]), steps[1..]))
  }

  function After(s: State, steps: seq<Step>): State
    requires IsRun(s, steps)
    decreases |steps|
  {
    if steps == [] then s else After(Next(s, steps[0]), steps[1..])
  }

  /// What is conserved

  /** The events of one stream among the outputs. */
  function Written(output: seq<Output>, i: nat): seq<Event> {
    if output == [] then []
    else
      var last := output[|output| - 1];
      Written(output[..|output| - 1], i) + (if last.From? && last.stream == i then [last.e] else [])
  }

  function Held(held: Option<Event>): seq<Event> {
    if held.Some? then [held.value] else []
  }

  function InWriter(s: State, i: nat): seq<Event> {
    if s.writing.Some? && s.writing.value.0 == i then [s.writing.value.1] else []
  }

  /** Everything a stream's queue accepted is, in order: written, in the writer, in its goroutine, or queued. */
  ghost predicate Conserved(s: State, i: nat)
    requires i < |s.streams|
  {
    && s.streams[i].accepted ==
       Written(s.output, i) + InWriter(s, i) + Held(s.streams[i].hand) + s.streams[i].queue
    && |s.streams[i].queue| <= s.buf
  }

  function Items(output: seq<Output>): seq<Item> {
    seq(|output|, i requires 0 <= i < |output| => if output[i].From? then Sent(output[i].e) else Ping)
  }

  ghost predicate Inv(s: State) {
    && (forall i | 0 <= i < |s.streams| :: Conserved(s, i))
    && s.body == Print(Items(s.output))
    && (s.writing.Some? ==> s.writing.value.0 < |s.streams|)
    && (forall j | 0 <= j < |s.output| :: s.output[j].From? ==> s.output[j].stream < |s.streams|)
  }

  lemma {:induction false} PrintAppend(items: seq<Item>, item: Item)
    ensures Print(items + [item]) == Print(items) + PrintItem(item)
    decreases |items|
  {
    if items == [] {
      assert [item][1..] == [] && items + [item] == [item];
      Assoc3(PrintItem(item), "", "");
    } else {
      assert (items + [item])[1..] == items[1..] + [item];
      PrintAppend(items[1..], item);
      Assoc3(PrintItem(items[0]), Print(items[1..]), PrintItem(item));
    }
  }

  lemma WrittenAppend(output: seq<Output>, o: Output, i: nat)
    ensures Written(output + [o], i) == Written(output, i) + (if o.From? && o.stream == i then [o.e] else [])
  {
    assert (output + [o])[..|output|] == output;
  }

  lemma OutputAppend(output: seq<Output>, o: Output)
    ensures Print(Items(output + [o])) == Print(Items(output)) + (if o.From? then PrintEvent(o.e) else PING)
  {
    var item := if o.From? then Sent(o.e) else Ping;
    assert Items(output + [o]) == Items(output) + [item];
    PrintAppend(Items(output), item);
  }

  /** An event that moves on by one place leaves the concatenation as it was. */
  lemma MoveOn<T>(a: seq<T>, x: seq<T>, q: seq<T>)
    ensures a + [] + (x + q) == a + x + q && a + [] + x == a + x + [] && a + [] == a
  {
  }

  lemma NextConserves(s: State, step: Step, i: nat)
    requires Enabled(s, step) && i < |s.streams| && Conserved(s, i)
    ensures Conserved(Next(s, step), i)
  {
    var t := s.streams[i];
    match step
    case Publish(j, e) => Assoc3(Written(s.output, i) + InWriter(s, i) + Held(t.hand), t.queue, [e]);
    case Take(j) => TakeConserves(s, j, i);
    case Hand(j) => HandConserves(s, j, i);
    case Write => WriteConserves(s, i);
    case Beat => WrittenAppend(s.output, Heartbeat, i);
  }

  lemma TakeConserves(s: State, j: nat, i: nat)
    requires Enabled(s, Take(j)) && i < |s.streams| && Conserved(s, i)
    ensures Conserved(Next(s, Take(j)), i)
  {
    if i == j {
      var q := s.streams[i].queue;
      assert q == [q[0]] + q[1..];
      MoveOn(Written(s.output, i) + InWriter(s, i), [q[0]], q[1..]);
    }
  }

  lemma HandConserves(s: State, j: nat, i: nat)
    requires Enabled(s, Hand(j)) && i < |s.streams| && Conserved(s, i)
    ensures Conserved(Next(s, Hand(j)), i)
  {
    if i == j {
      MoveOn(Written(s.output, i), [s.streams[i].hand.value], []);
    }
  }

  lemma WriteConserves(s: State, i: nat)
    requires Enabled(s, Write) && i < |s.streams| && Conserved(s, i)
    ensures Conserved(Next(s, Write), i)
  {
    var (j, e) := s.writing.value;
    WrittenAppend(s.output, From(j, e), i);
    if i == j {
      MoveOn(Written(s.output, i) + [e], [], []);
    } else {
      MoveOn(Written(s.output, i), [], []);
    }
  }

  lemma NextKeepsInv(s: State, step: Step)
    requires Inv(s) && Enabled(s, step)
    ensures Inv(Next(s, step)) && |Next(s, step).streams| == |s.streams|
  {
    forall i | 0 <= i < |s.streams| ensures Conserved(Next(s, step), i) {
      NextConserves(s, step, i);
    }
    match step
    case Publish(_, _) =>
    case Take(_) =>
    case Hand(_) =>
    case Write => OutputAppend(s.output, From(s.writing.value.0, s.writing.value.1));
    case Beat => OutputAppend(s.output, Heartbeat);
  }

  lemma {:induction false} RunKeepsInv(s: State, steps: seq<Step>)
    requires Inv(s) && IsRun(s, steps)
    ensures Inv(After(s, steps)) && |After(s, steps).streams| == |s.streams|
    decreases |steps|
  {
    if steps != [] {
      NextKeepsInv(s, steps[0]);
      RunKeepsInv(Next(s, steps[0]), steps[1..]);
    }
  }

  /**
   In every run, whatever the scheduling: per stream nothing is lost, duplicated or reordered between the
   broker's queue and the response, no queue exceeds its buffer, and every output came from some stream or is
   a heartbeat.
   */
  lemma Conservation(n: nat, buf: nat, steps: seq<Step>)
    requires IsRun(Init(n, buf), steps)
    ensures var s := After(Init(n, buf), steps);
            && |s.streams| == n
            && (forall i | 0 <= i < n :: Conserved(s, i))
            && (forall i | 0 <= i < n :: Written(s.output, i) <= s.streams[i].accepted)
            && (forall j | 0 <= j < |s.output| :: s.output[j].From? ==> s.output[j].stream < n)
  {
    RunKeepsInv(Init(n, buf), steps);
    var s := After(Init(n, buf), steps);
    forall i | 0 <= i < n ensures Written(s.output, i) <= s.streams[i].accepted {
      assert Conserved(s, i);
    }
  }

  lemma {:induction false} WrittenContains(output: seq<Output>, j: nat)
    requires j < |output| && output[j].From?
    ensures output[j].e in Written(output, output[j].stream)
    decreases |output|
  {
    var init := output[..|output| - 1];
    if j < |init| {
      WrittenContains(init, j);
    }
  }

  /**
   End to end: if every accepted event is clean, a client that reads the response by the standard sees, at any
   moment of any run, exactly the events written so far, in the order written.
   */
  lemma ClientSeesWhatWasWritten(n: nat, buf: nat, steps: seq<Step>)
    requires IsRun(Init(n, buf), steps)
    requires var s := After(Init(n, buf), steps);
             forall i, e | 0 <= i < |s.streams| && e in s.streams[i].accepted :: Clean(e)
    ensures var s := After(Init(n, buf), steps);
            Parse(s.body) == Expect(START, Items(s.output))
  {
    Conservation(n, buf, steps);
    RunKeepsInv(Init(n, buf), steps);
    var s := After(Init(n, buf), steps);
    var items := Items(s.output);
    forall j | 0 <= j < |items| ensures CleanItem(items[j]) {
      if s.output[j].From? {
        WrittenContains(s.output, j);
      }
    }
    RoundTrip(items, s.body);
  }

  /** A stream's queue is the broker's: publishing is the broker's offer, and taking is its receive. */
  lemma QueueIsTheBrokers(s: State, i: nat, e: Event, b: BM.State, id: nat)
    requires i < |s.streams| && id in b.conns && b.conns[id].queue == s.streams[i].queue && b.buf == s.buf
    ensures Next(s, Publish(i, e)).streams[i].queue == BM.Amend(b, {id}, BM.Offered(e)).conns[id].queue
    ensures Enabled(s, Take(i)) ==>
              && Next(s, Take(i)).streams[i].queue == BM.Receive(b, id).conns[id].queue
              && Next(s, Take(i)).streams[i].hand == Some(b.conns[id].queue[0])
  {
  }

  /** What is accepted but not yet written can always move on: no event is stuck behind another stream's. */
  lemma NeverStuck(s: State, i: nat)
    requires Inv(s) && i < |s.streams| && Written(s.output, i) != s.streams[i].accepted
    ensures Enabled(s, Write) || Enabled(s, Hand(i)) || Enabled(s, Take(i))
  {
    assert Conserved(s, i);
    NothingAdded(Written(s.output, i));
  }

  lemma NothingAdded<T>(a: seq<T>)
    ensures a + [] + [] + [] == a
  {
  }

  /** A heartbeat is a comment between events, and waits for the event being written only. */
  lemma BeatPrintsPing(s: State)
    ensures Enabled(s, Beat) <==> s.writing == None
    ensures s.writing == None ==> Next(s, Beat) == s.(output := s.output + [Heartbeat], body := s.body + ": ping\n\n")
  {
  }
}
