/**
 * The event broker as the objects it is made of: queues that are shared
 * between the broker's registry and the subscribers' generators. Every method
 * performs one step of the protocol, so its guarantees hold for the objects.
 */
module EventBroker {
  import opened BrokerProtocol
  import opened Wrappers

  class Queue<D> {
    var items: seq<Record<D>>

    constructor ()
      ensures items == []
    {
      items := [];
    }

    method Put(r: Record<D>)
      modifies this
      ensures items == old(items) + [r]
    {
      items := items + [r];
    }
  }

  /** A subscriber's generator, with everything it has yielded. */
  class Subscription<D> {
    const incident: string
    const queue: Queue<D>
    var phase: Phase
    ghost var output: seq<Output<D>>

    constructor (incident: string)
      ensures this.incident == incident && phase == Live && output == []
      ensures fresh(queue) && queue.items == []
    {
      this.incident := incident;
      this.queue := new Queue<D>();
      this.phase := Live;
      this.output := [];
    }

    ghost function View(): Client<D>
      reads this, queue
    {
      Client(incident, phase, queue.items, output)
    }
  }

  class EventBroker<D> {
    const size: int
    var subscribers: map<string, seq<Queue<D>>>
    var history: map<string, seq<Record<D>>>
    /** Every generator that was ever started, in order. */
    ghost var clients: seq<Subscription<D>>
    /** Every step so far. */
    ghost var trace: seq<Step<D>>

    ghost function Objects(): set<object>
      reads this`clients
    {
      (set c | c in clients :: c as object) + (set c | c in clients :: c.queue as object)
    }

    /** The registry lists the queues of the clients that the protocol registers. */
    ghost predicate Lists(queues: seq<Queue<D>>, registered: seq<nat>)
      reads this`clients
    {
      && |queues| == |registered|
      && forall j :: 0 <= j < |registered| ==>
           registered[j] < |clients| && queues[j] == clients[registered[j]].queue
    }

    ghost predicate Separate()
      reads this`clients
    {
      forall i, j :: 0 <= i < j < |clients| ==> clients[i] != clients[j] && clients[i].queue != clients[j].queue
    }

    /** The registry has the keys and the lists of the protocol's registry. */
    ghost predicate Registry(registered: map<string, seq<nat>>)
      reads this`clients, this`subscribers
    {
      && subscribers.Keys == registered.Keys
      && forall id :: id in subscribers ==> Lists(subscribers[id], registered[id])
    }

    ghost predicate Views(views: seq<Client<D>>)
      reads this`clients, Objects()
    {
      && |clients| == |views|
      && forall i :: 0 <= i < |clients| ==> clients[i].View() == views[i]
    }

    ghost predicate InState(b: Broker<D>)
      reads this`clients, this`subscribers, this`history, Objects()
    {
      Separate() && size == b.size && history == b.history && Views(b.clients) && Registry(b.registered)
    }

    /** The objects are in the state that the steps so far lead to. */
    ghost predicate Valid()
      reads this, Objects()
    {
      InState(Run(size, trace))
    }

    constructor (size: int)
      ensures Valid() && this.size == size && trace == [] && clients == []
    {
      this.size := size;
      subscribers, history := map[], map[];
      clients, trace := [], [];
    }

    /** The fan-out loop. */
    method PutAll(queues: seq<Queue<D>>, record: Record<D>, ghost receivers: seq<nat>)
      requires Separate() && Lists(queues, receivers)
      requires Increasing(receivers)
      modifies set c | c in clients :: c.queue
      ensures forall i :: 0 <= i < |clients| ==>
                clients[i].queue.items == old(clients[i].queue.items) + if i in receivers then [record] else []
    {
      for j := 0 to |queues|
        invariant forall i :: 0 <= i < |clients| ==>
                    clients[i].queue.items == old(clients[i].queue.items) + if i in receivers[..j] then [record] else []
      {
        ghost var k := receivers[j];
        assert k !in receivers[..j];
        queues[j].Put(record);
        assert receivers[..j + 1] == receivers[..j] + [k];
      }
      assert receivers[..|queues|] == receivers;
    }

    /** Stores the record in the replay buffer of its incident. */
    method Store(id: string, record: Record<D>)
      modifies this`history
      ensures history == old(history)[id := Remember(Get(old(history), id), record, size)]
    {
      var hist := if id in history then history[id] else [];
      hist := hist + [record];
      if |hist| > size {
        hist := hist[1..];
      }
      history := history[id := hist];
    }

    /** Puts the record into every registered queue of its incident. */
    method FanOut(id: string, record: Record<D>, ghost b: Broker<D>)
      requires Separate() && Views(b.clients) && Registry(b.registered)
      requires Increasing(Get(b.registered, id))
      modifies this`subscribers, set c | c in clients :: c.queue
      ensures Registry(b.registered[id := Get(b.registered, id)])
      ensures Views(Broadcast(b.clients, Get(b.registered, id), record))
    {
      ghost var receivers := Get(b.registered, id);
      var queues := if id in subscribers then subscribers[id] else [];
      subscribers := subscribers[id := queues];
      PutAll(queues, record, receivers);
      forall i | 0 <= i < |clients| ensures clients[i].View() == Broadcast(b.clients, receivers, record)[i] {
        assert old(clients[i].View()) == b.clients[i];
      }
    }

    method Publish(id: string, event: string, data: D)
      requires Valid()
      modifies this, Objects()
      ensures Valid()
      ensures trace == old(trace) + [Step.Publish(id, Record(event, data))] && clients == old(clients)
    {
      var record := Record(event, data);
      ghost var b := Run(size, trace);
      ReceiversDistinct(size, trace, id);
      PublishLocked(id, record, b);
      AdvanceRun(size, trace, Step.Publish(id, record));
      trace := trace + [Step.Publish(id, record)];
    }

    /** The block under the lock. */
    method PublishLocked(id: string, record: Record<D>, ghost b: Broker<D>)
      requires InState(b) && Increasing(Get(b.registered, id))
      modifies this`history, this`subscribers, set c | c in clients :: c.queue
      ensures InState(AfterPublish(b, id, record))
    {
      Store(id, record);
      FanOut(id, record, b);
    }

    /** The generator's first resumption: replay and registration, in one block. */
    method Subscribe(id: string) returns (s: Subscription<D>)
      requires Valid()
      modifies this
      ensures Valid() && fresh(s) && fresh(s.queue)
      ensures trace == old(trace) + [Step.Subscribe(id)] && clients == old(clients) + [s] && s.incident == id
    {
      ghost var b := Run(size, trace);
      s := new Subscription(id);
      var past := if id in history then history[id] else [];
      Replay(s.queue, past);
      Register(s, b);
      assert InState(AfterSubscribe(b, id));
      AdvanceRun(size, trace, Step.Subscribe(id));
      trace := trace + [Step.Subscribe(id)];
    }

    method Register(s: Subscription<D>, ghost b: Broker<D>)
      requires Separate() && Views(b.clients) && Registry(b.registered)
      requires forall i :: 0 <= i < |clients| ==> clients[i] != s && clients[i].queue != s.queue
      modifies this`subscribers, this`clients
      ensures clients == old(clients) + [s] && Separate()
      ensures Views(b.clients + [s.View()])
      ensures Registry(b.registered[s.incident := Get(b.registered, s.incident) + [|b.clients|]])
    {
      var queues := if s.incident in subscribers then subscribers[s.incident] else [];
      subscribers := subscribers[s.incident := queues + [s.queue]];
      clients := clients + [s];
      forall i | 0 <= i < |clients| ensures clients[i].View() == (b.clients + [s.View()])[i] {
        if i < |b.clients| {
          assert old(clients[i].View()) == b.clients[i];
        }
      }
    }

    method Replay(queue: Queue<D>, past: seq<Record<D>>)
      requires queue.items == []
      modifies queue
      ensures queue.items == past
    {
      for j := 0 to |past|
        invariant queue.items == past[..j]
      {
        queue.Put(past[j]);
        assert past[..j + 1] == past[..j] + [past[j]];
      }
    }

    /** `list.remove` by identity, when the queue is there. */
    method RemoveQueue(queues: seq<Queue<D>>, queue: Queue<D>, ghost registered: seq<nat>, ghost i: nat)
      returns (rest: seq<Queue<D>>)
      requires Separate() && Lists(queues, registered)
      requires i < |clients| && clients[i].queue == queue
      ensures Lists(rest, Without(registered, i))
    {
      var k := 0;
      while k < |queues| && queues[k] != queue
        invariant 0 <= k <= |queues|
        invariant i !in registered[..k]
      {
        assert registered[..k + 1] == registered[..k] + [registered[k]];
        k := k + 1;
      }
      if k < |queues| {
        assert registered[k] == i;
        WithoutFirst(registered, i, k);
        rest := queues[..k] + queues[k + 1..];
      } else {
        assert registered[..k] == registered;
        WithoutAbsent(registered, i);
        rest := queues;
      }
    }

    /** The cleanup of a generator that ends. */
    method Unregister(s: Subscription<D>, ghost i: nat, ghost b: Broker<D>)
      requires InState(b) && i < |clients| && clients[i] == s && s.phase != Closed
      modifies this`subscribers, s`phase
      ensures InState(Leave(b, i)) && s.phase == Closed
    {
      assert clients[i].View() == b.clients[i];
      ghost var registered := Get(b.registered, s.incident);
      var queues := if s.incident in subscribers then subscribers[s.incident] else [];
      var rest := RemoveQueue(queues, s.queue, registered, i);
      subscribers := if rest == [] then subscribers - {s.incident} else subscribers[s.incident := rest];
      s.phase := Closed;
      assert Registry(Leave(b, i).registered);
      forall j | 0 <= j < |clients| ensures clients[j].View() == Leave(b, i).clients[j] {
        assert old(clients[j].View()) == b.clients[j];
      }
    }

    /** The consumer asks for the next item; `None` when the generator has to wait or is over. */
    method Pull(s: Subscription<D>, ghost i: nat) returns (r: Option<Record<D>>)
      requires Valid() && i < |clients| && clients[i] == s
      modifies this, s, s.queue
      ensures Valid()
      ensures trace == old(trace) + [Step.Pull(i)] && clients == old(clients)
      ensures s.output == old(s.output) + if r.Some? then [Item(r.value)] else []
      ensures r == if old(s.phase) == Live && old(s.queue.items) != [] then Some(old(s.queue.items[0])) else None
      ensures old(s.phase) == Ending ==> s.phase == Closed
    {
      ghost var b := Run(size, trace);
      r := Resume(s, i, b);
      AdvanceRun(size, trace, Step.Pull(i));
      trace := trace + [Step.Pull(i)];
    }

    method Resume(s: Subscription<D>, ghost i: nat, ghost b: Broker<D>) returns (r: Option<Record<D>>)
      requires InState(b) && i < |clients| && clients[i] == s
      modifies this`subscribers, s, s.queue
      ensures InState(AfterPull(b, i))
      ensures s.output == old(s.output) + if r.Some? then [Item(r.value)] else []
      ensures r == if old(s.phase) == Live && old(s.queue.items) != [] then Some(old(s.queue.items[0])) else None
      ensures old(s.phase) == Ending ==> s.phase == Closed
    {
      r := None;
      assert clients[i].View() == b.clients[i];
      if s.phase == Ending {
        Unregister(s, i, b);
      } else if s.phase == Live && s.queue.items != [] {
        r := Take(s, i, b);
      }
    }

    /** `queue.get()` and the yield that follows it. */
    method Take(s: Subscription<D>, ghost i: nat, ghost b: Broker<D>) returns (r: Option<Record<D>>)
      requires InState(b) && i < |clients| && clients[i] == s
      requires s.phase == Live && s.queue.items != []
      modifies s, s.queue
      ensures InState(AfterPull(b, i))
      ensures r == Some(old(s.queue.items[0]))
      ensures s.output == old(s.output) + [Item(old(s.queue.items[0]))]
    {
      assert clients[i].View() == b.clients[i];
      var record := s.queue.items[0];
      s.queue.items := s.queue.items[1..];
      s.output := s.output + [Item(record)];
      s.phase := if Terminal(record) then Ending else Live;
      r := Some(record);
      forall j | 0 <= j < |clients| ensures clients[j].View() == AfterPull(b, i).clients[j] {
        assert old(clients[j].View()) == b.clients[j];
      }
    }

    /** The heartbeat interval runs out while the generator waits. */
    method Timeout(s: Subscription<D>, ghost i: nat) returns (pinged: bool)
      requires Valid() && i < |clients| && clients[i] == s
      modifies this`trace, s
      ensures Valid()
      ensures trace == old(trace) + [Step.Timeout(i)] && clients == old(clients)
      ensures s.output == old(s.output) + if pinged then [Ping] else []
      ensures pinged <==> old(s.phase) == Live
    {
      ghost var b := Run(size, trace);
      assert clients[i].View() == b.clients[i];
      pinged := s.phase == Live;
      if pinged {
        s.output := s.output + [Ping];
      }
      forall j | 0 <= j < |clients| ensures clients[j].View() == AfterTimeout(b, i).clients[j] {
        assert old(clients[j].View()) == b.clients[j];
      }
      AdvanceRun(size, trace, Step.Timeout(i));
      trace := trace + [Step.Timeout(i)];
    }

    /** The consumer goes away. */
    method Close(s: Subscription<D>, ghost i: nat)
      requires Valid() && i < |clients| && clients[i] == s
      modifies this, s
      ensures Valid()
      ensures trace == old(trace) + [Step.Close(i)] && clients == old(clients)
      ensures s.phase == Closed
    {
      ghost var b := Run(size, trace);
      assert clients[i].View() == b.clients[i];
      if s.phase != Closed {
        Unregister(s, i, b);
        assert clients[i].View() == Leave(b, i).clients[i];
      }
      AdvanceRun(size, trace, Step.Close(i));
      trace := trace + [Step.Close(i)];
    }
  }

  lemma AdvanceRun<D>(size: int, trace: seq<Step<D>>, step: Step<D>)
    ensures Run(size, trace + [step]) == Next(Run(size, trace), step)
  {
    assert (trace + [step])[..|trace|] == trace;
  }

  lemma ReceiversDistinct<D>(size: int, trace: seq<Step<D>>, id: string)
    ensures Increasing(Get(Run(size, trace).registered, id))
  {
    RunKeepsInv(size, trace);
    assert RegistryOk(Run(size, trace), id);
    LiveDistinct(Run(size, trace).clients, id);
  }

  ghost predicate Increasing(s: seq<nat>) {
    forall i, j :: 0 <= i < j < |s| ==> s[i] < s[j]
  }

  lemma {:induction false} LiveDistinct<D>(clients: seq<Client<D>>, id: string)
    ensures Increasing(LiveClients(clients, id))
    ensures forall i :: 0 <= i < |LiveClients(clients, id)| ==> LiveClients(clients, id)[i] < |clients|
  {
    if clients != [] {
      LiveDistinct(clients[..|clients| - 1], id);
    }
  }

  lemma {:induction false} WithoutFirst(s: seq<nat>, x: nat, k: nat)
    requires k < |s| && s[k] == x && x !in s[..k]
    ensures Without(s, x) == s[..k] + s[k + 1..]
  {
    if k > 0 {
      assert s[0] == s[..k][0];
      assert s[1..][..k - 1] == s[..k][1..];
      WithoutFirst(s[1..], x, k - 1);
    }
  }
}
