/**
 * The event broker as a state machine: every block under the broker's lock and
 * every resumption of a subscriber's generator is one step, and the steps of
 * all publishers and subscribers interleave freely.
 */
module BrokerProtocol {

  datatype Record<D> = Record(event: string, data: D)

  predicate Terminal<D>(r: Record<D>) {
    r.event in ["resolved", "failed", "escalated"]
  }

  datatype Output<D> = Ping | Item(record: Record<D>)

  /** A generator waits for records, has just yielded a terminal one, or is over. */
  datatype Phase = Live | Ending | Closed

  datatype Client<D> = Client(incident: string, phase: Phase, queue: seq<Record<D>>, output: seq<Output<D>>)

  datatype Broker<D> = Broker(
    size: int,
    history: map<string, seq<Record<D>>>,
    registered: map<string, seq<nat>>,
    clients: seq<Client<D>>)

  datatype Step<D> =
    | Publish(incident: string, record: Record<D>)
    | Subscribe(incident: string)
    | Pull(client: nat)
    | Timeout(client: nat)
    | Close(client: nat)

  function Get<T>(m: map<string, seq<T>>, k: string): seq<T> {
    if k in m then m[k] else []
  }

  /** Appends a record and drops the oldest one when the buffer is over its size. */
  function Remember<D>(hist: seq<Record<D>>, r: Record<D>, size: int): seq<Record<D>> {
    var longer := hist + [r];
    if |longer| > size then longer[1..] else longer
  }

  function Broadcast<D>(clients: seq<Client<D>>, receivers: seq<nat>, r: Record<D>): seq<Client<D>> {
    seq(|clients|, i requires 0 <= i < |clients| =>
      if i in receivers then clients[i].(queue := clients[i].queue + [r]) else clients[i])
  }

  /** `list.remove`, when the element is there. */
  function Without(s: seq<nat>, x: nat): seq<nat> {
    if s == [] then [] else if s[0] == x then s[1..] else [s[0]] + Without(s[1..], x)
  }

  /** The generator's cleanup: leave the registry, dropping an empty entry. */
  function Leave<D>(b: Broker<D>, i: nat): Broker<D>
    requires i < |b.clients|
  {
    var c := b.clients[i];
    var rest := Without(Get(b.registered, c.incident), i);
    b.(clients := b.clients[i := c.(phase := Closed)],
       registered := if rest == [] then b.registered - {c.incident} else b.registered[c.incident := rest])
  }

  function AfterPublish<D>(b: Broker<D>, id: string, r: Record<D>): Broker<D> {
    b.(history := b.history[id := Remember(Get(b.history, id), r, b.size)],
       registered := b.registered[id := Get(b.registered, id)],
       clients := Broadcast(b.clients, Get(b.registered, id), r))
  }

  function AfterSubscribe<D>(b: Broker<D>, id: string): Broker<D> {
    b.(registered := b.registered[id := Get(b.registered, id) + [|b.clients|]],
       clients := b.clients + [Client(id, Live, Get(b.history, id), [])])
  }

  /** The client takes the next record and yields it. */
  function Take<D>(c: Client<D>): Client<D>
    requires c.queue != []
  {
    Client(c.incident, if Terminal(c.queue[0]) then Ending else Live, c.queue[1..], c.output + [Item(c.queue[0])])
  }

  function AfterPull<D>(b: Broker<D>, i: nat): Broker<D> {
    if i >= |b.clients| || b.clients[i].phase == Closed then b
    else if b.clients[i].phase == Ending then Leave(b, i)
    else if b.clients[i].queue == [] then b
    else b.(clients := b.clients[i := Take(b.clients[i])])
  }

  function AfterTimeout<D>(b: Broker<D>, i: nat): Broker<D> {
    if i >= |b.clients| || b.clients[i].phase != Live then b
    else b.(clients := b.clients[i := b.clients[i].(output := b.clients[i].output + [Ping])])
  }

  function AfterClose<D>(b: Broker<D>, i: nat): Broker<D> {
    if i >= |b.clients| || b.clients[i].phase == Closed then b else Leave(b, i)
  }

  function Next<D>(b: Broker<D>, step: Step<D>): Broker<D> {
    match step
    case Publish(id, r) => AfterPublish(b, id, r)
    case Subscribe(id) => AfterSubscribe(b, id)
    case Pull(i) => AfterPull(b, i)
    case Timeout(i) => AfterTimeout(b, i)
    case Close(i) => AfterClose(b, i)
  }

  function Run<D>(size: int, trace: seq<Step<D>>): Broker<D> {
    if trace == [] then Broker(size, map[], map[], [])
    else Next(Run(size, trace[..|trace| - 1]), trace[|trace| - 1])
  }

  // What a run is about

  /** Everything published to an incident, in order. */
  function Published<D>(trace: seq<Step<D>>, id: string): seq<Record<D>> {
    if trace == [] then [] else
      var last := trace[|trace| - 1];
      Published(trace[..|trace| - 1], id) + if last.Publish? && last.incident == id then [last.record] else []
  }

  /** The positions at which the subscribers of the run subscribed. */
  function Subscriptions<D>(trace: seq<Step<D>>): (r: seq<nat>)
    ensures forall i :: 0 <= i < |r| ==> r[i] < |trace| && trace[r[i]].Subscribe?
  {
    if trace == [] then [] else
      Subscriptions(trace[..|trace| - 1]) + if trace[|trace| - 1].Subscribe? then [|trace| - 1] else []
  }

  function Capacity(size: int): nat { if size < 0 then 0 else size }

  /** Where the records a subscriber is owed begin: at most a buffer before its subscription. */
  function Start<D>(size: int, trace: seq<Step<D>>, i: nat): nat
    requires i < |Subscriptions(trace)|
  {
    var at := Subscriptions(trace)[i];
    var before := |Published(trace[..at], trace[at].incident)|;
    if before <= Capacity(size) then 0 else before - Capacity(size)
  }

  function Delivered<D>(output: seq<Output<D>>): seq<Record<D>> {
    if output == [] then [] else
      var last := output[|output| - 1];
      Delivered(output[..|output| - 1]) + if last.Item? then [last.record] else []
  }

  /** The clients of an incident that are not closed, in order of subscription. */
  function LiveClients<D>(clients: seq<Client<D>>, id: string): seq<nat> {
    if clients == [] then [] else
      var n := |clients| - 1;
      LiveClients(clients[..n], id) + if clients[n].incident == id && clients[n].phase != Closed then [n] else []
  }

  // The invariant

  ghost predicate Owed<D>(c: Client<D>, log: seq<Record<D>>, start: nat) {
    && start <= |log|
    && Delivered(c.output) + c.queue <= log[start..]
    && (c.phase != Closed ==> Delivered(c.output) + c.queue == log[start..])
  }

  ghost predicate EndsOnce<D>(c: Client<D>) {
    && (forall j :: 0 <= j < |c.output| && c.output[j].Item? && Terminal(c.output[j].record) ==>
          j == |c.output| - 1 && c.phase != Live)
    && (c.phase == Ending ==>
            c.output != [] && c.output[|c.output| - 1].Item? && Terminal(c.output[|c.output| - 1].record))
  }

  ghost predicate ClientInv<D>(size: int, trace: seq<Step<D>>, c: Client<D>, i: nat) {
    && i < |Subscriptions(trace)|
    && c.incident == trace[Subscriptions(trace)[i]].incident
    && Owed(c, Published(trace, c.incident), Start(size, trace, i))
    && EndsOnce(c)
  }

  ghost predicate Inv<D>(size: int, trace: seq<Step<D>>, b: Broker<D>) {
    && b.size == size
    && |b.clients| == |Subscriptions(trace)|
    && (forall id :: Get(b.history, id) == Suffix(Published(trace, id), Capacity(size)))
    && (forall id :: RegistryOk(b, id))
    && (forall i :: 0 <= i < |b.clients| ==> ClientInv(size, trace, b.clients[i], i))
  }

  /** The last `n` elements, or all of them. */
  function Suffix<T>(s: seq<T>, n: nat): seq<T> {
    if |s| <= n then s else s[|s| - n..]
  }

  // Lemmas about the pieces

  lemma RememberIsSuffix<D>(log: seq<Record<D>>, r: Record<D>, size: int)
    ensures Remember(Suffix(log, Capacity(size)), r, size) == Suffix(log + [r], Capacity(size))
  {
  }

  lemma {:induction false} LiveMembers<D>(clients: seq<Client<D>>, id: string, i: nat)
    ensures i in LiveClients(clients, id) <==> i < |clients| && clients[i].incident == id && clients[i].phase != Closed
  {
    if clients != [] {
      LiveMembers(clients[..|clients| - 1], id, i);
    }
  }

  /** The live clients depend on incidents and phases only. */
  lemma {:induction false} LiveUnchanged<D>(a: seq<Client<D>>, b: seq<Client<D>>, id: string)
    requires |a| == |b|
    requires forall i :: 0 <= i < |a| ==>
        a[i].incident == b[i].incident && (a[i].phase == Closed <==> b[i].phase == Closed)
    ensures LiveClients(a, id) == LiveClients(b, id)
  {
    if a != [] {
      LiveUnchanged(a[..|a| - 1], b[..|b| - 1], id);
    }
  }

  lemma {:induction false} WithoutAbsent(s: seq<nat>, x: nat)
    requires x !in s
    ensures Without(s, x) == s
  {
    if s != [] {
      WithoutAbsent(s[1..], x);
    }
  }

  lemma {:induction false} WithoutConcat(s: seq<nat>, t: seq<nat>, x: nat)
    ensures Without(s + t, x) == if x in s then Without(s, x) + t else s + Without(t, x)
  {
    if s == [] {
      assert s + t == t;
    } else {
      var rest := s[1..];
      assert (s + t)[1..] == rest + t && (s + t)[0] == s[0];
      if s[0] != x {
        WithoutConcat(rest, t, x);
        assert x in s <==> x in rest;
        if x in rest {
          assert [s[0]] + (Without(rest, x) + t) == ([s[0]] + Without(rest, x)) + t;
        } else {
          assert s == [s[0]] + rest;
          assert [s[0]] + (rest + Without(t, x)) == s + Without(t, x);
        }
      }
    }
  }

  lemma {:induction false} LiveAfterClose<D>(clients: seq<Client<D>>, i: nat, id: string)
    requires i < |clients| && clients[i].phase != Closed
    ensures LiveClients(clients[i := clients[i].(phase := Closed)], id) ==
            if clients[i].incident == id then Without(LiveClients(clients, id), i) else LiveClients(clients, id)
  {
    var n := |clients| - 1;
    var front := clients[..n];
    var after := clients[i := clients[i].(phase := Closed)];
    var last := if clients[n].incident == id && clients[n].phase != Closed then [n] else [];
    LiveMembers(front, id, i);
    WithoutConcat(LiveClients(front, id), last, i);
    if i < n {
      assert after[..n] == front[i := front[i].(phase := Closed)];
      LiveAfterClose(front, i, id);
      WithoutAbsent(last, i);
    } else {
      assert after[..n] == front;
    }
  }

  // One step keeps the invariant. `front` is the run before it.

  lemma StartUnchanged<D>(size: int, front: seq<Step<D>>, step: Step<D>, i: nat)
    requires i < |Subscriptions(front)|
    ensures i < |Subscriptions(front + [step])| && Subscriptions(front + [step])[i] == Subscriptions(front)[i]
    ensures (front + [step])[Subscriptions(front)[i]] == front[Subscriptions(front)[i]]
    ensures Start(size, front + [step], i) == Start(size, front, i)
  {
    assert (front + [step])[..|front|] == front;
    var at := Subscriptions(front)[i];
    assert (front + [step])[..at] == front[..at];
  }

  lemma PublishedStep<D>(front: seq<Step<D>>, step: Step<D>, id: string)
    ensures step.Publish? && step.incident == id ==>
        Published(front + [step], id) == Published(front, id) + [step.record]
    ensures !(step.Publish? && step.incident == id) ==> Published(front + [step], id) == Published(front, id)
  {
    assert (front + [step])[..|front|] == front;
  }

  lemma SubscriptionsStep<D>(front: seq<Step<D>>, step: Step<D>)
    ensures Subscriptions(front + [step]) == Subscriptions(front) + if step.Subscribe? then [|front|] else []
  {
    assert (front + [step])[..|front|] == front;
  }

  /** What a step does to the client with number `i`. */
  ghost function ClientAfter<D>(c: Client<D>, i: nat, step: Step<D>, receives: bool): Client<D> {
    match step
    case Publish(_, r) => if receives then c.(queue := c.queue + [r]) else c
    case Subscribe(_) => c
    case Pull(j) =>
      if j != i || c.phase == Closed then c
      else if c.phase == Ending then c.(phase := Closed)
      else if c.queue == [] then c
      else Take(c)
    case Timeout(j) => if j == i && c.phase == Live then c.(output := c.output + [Ping]) else c
    case Close(j) => if j == i then c.(phase := Closed) else c
  }

  lemma ClientCount<D>(b: Broker<D>, step: Step<D>)
    ensures |Next(b, step).clients| == |b.clients| + if step.Subscribe? then 1 else 0
  {
  }

  lemma ClientStep<D>(b: Broker<D>, step: Step<D>, i: nat)
    requires i < |b.clients|
    ensures i < |Next(b, step).clients|
    ensures Next(b, step).clients[i] ==
            ClientAfter(b.clients[i], i, step, step.Publish? && i in Get(b.registered, step.incident))
  {
  }

  lemma OwedAfterStep<D>(c: Client<D>, i: nat, step: Step<D>, log: seq<Record<D>>, start: nat)
    requires Owed(c, log, start) && EndsOnce(c)
    ensures var toIt := step.Publish? && step.incident == c.incident;
            var c' := ClientAfter(c, i, step, toIt && c.phase != Closed);
            Owed(c', if toIt then log + [step.record] else log, start) && EndsOnce(c')
  {
  }

  /** The part of the invariant about one client that was there before the step. */
  lemma ClientKept<D>(size: int, front: seq<Step<D>>, step: Step<D>, b: Broker<D>, i: nat)
    requires Inv(size, front, b) && i < |b.clients|
    ensures i < |Next(b, step).clients|
    ensures ClientInv(size, front + [step], Next(b, step).clients[i], i)
  {
    var c := b.clients[i];
    assert ClientInv(size, front, c, i);
    StartUnchanged(size, front, step, i);
    PublishedStep(front, step, c.incident);
    ClientStep(b, step, i);
    if step.Publish? {
      assert RegistryOk(b, step.incident);
      LiveMembers(b.clients, step.incident, i);
    }
    OwedAfterStep(c, i, step, Published(front, c.incident), Start(size, front, i));
  }

  /** The part about the client that a subscription adds. */
  lemma ClientAdded<D>(size: int, front: seq<Step<D>>, id: string, b: Broker<D>)
    requires Inv(size, front, b)
    ensures var trace, c := front + [Subscribe(id)], Client(id, Live, Get(b.history, id), []);
            |Subscriptions(trace)| == |b.clients| + 1 && ClientInv(size, trace, c, |b.clients|)
  {
  }

  /** Leaving takes a client out of the registry and out of the live clients. */
  lemma LeaveKeepsRegistry<D>(b: Broker<D>, i: nat, id: string)
    requires i < |b.clients| && b.clients[i].phase != Closed
    requires RegistryOk(b, id)
    ensures RegistryOk(Leave(b, i), id)
  {
    LiveAfterClose(b.clients, i, id);
  }

  ghost predicate RegistryOk<D>(b: Broker<D>, id: string) {
    Get(b.registered, id) == LiveClients(b.clients, id)
  }

  lemma SubscribeKeepsRegistry<D>(b: Broker<D>, new': string, id: string)
    requires RegistryOk(b, id)
    ensures RegistryOk(AfterSubscribe(b, new'), id)
  {
    assert AfterSubscribe(b, new').clients[..|b.clients|] == b.clients;
  }

  /** A step that neither adds nor closes a client keeps the registry. */
  lemma QuietKeepsRegistry<D>(b: Broker<D>, b': Broker<D>, id: string)
    requires RegistryOk(b, id) && Get(b'.registered, id) == Get(b.registered, id)
    requires |b'.clients| == |b.clients|
    requires forall i :: 0 <= i < |b.clients| ==>
               b'.clients[i].incident == b.clients[i].incident
                   && (b.clients[i].phase == Closed <==> b'.clients[i].phase == Closed)
    ensures RegistryOk(b', id)
  {
    LiveUnchanged(b.clients, b'.clients, id);
  }

  lemma RegistryKept<D>(b: Broker<D>, step: Step<D>, id: string)
    requires RegistryOk(b, id)
    ensures RegistryOk(Next(b, step), id)
  {
    match step
    case Publish(to, r) => QuietKeepsRegistry(b, AfterPublish(b, to, r), id);
    case Subscribe(to) => SubscribeKeepsRegistry(b, to, id);
    case Pull(i) => PullKeepsRegistry(b, i, id);
    case Timeout(i) => QuietKeepsRegistry(b, AfterTimeout(b, i), id);
    case Close(i) =>
      if i < |b.clients| && b.clients[i].phase != Closed {
        LeaveKeepsRegistry(b, i, id);
      }
  }

  lemma PullKeepsRegistry<D>(b: Broker<D>, i: nat, id: string)
    requires RegistryOk(b, id)
    ensures RegistryOk(AfterPull(b, i), id)
  {
    if i < |b.clients| && b.clients[i].phase == Ending {
      LeaveKeepsRegistry(b, i, id);
    } else {
      QuietKeepsRegistry(b, AfterPull(b, i), id);
    }
  }

  lemma HistoryStep<D>(b: Broker<D>, step: Step<D>)
    ensures Next(b, step).size == b.size
    ensures Next(b, step).history ==
            if step.Publish? then
                b.history[step.incident := Remember(Get(b.history, step.incident), step.record, b.size)]
            else b.history
  {
  }

  lemma HistoryKept<D>(size: int, front: seq<Step<D>>, step: Step<D>, b: Broker<D>, id: string)
    requires b.size == size && Get(b.history, id) == Suffix(Published(front, id), Capacity(size))
    ensures Get(Next(b, step).history, id) == Suffix(Published(front + [step], id), Capacity(size))
  {
    PublishedStep(front, step, id);
    HistoryStep(b, step);
    if step.Publish? && step.incident == id {
      RememberIsSuffix(Published(front, id), step.record, size);
    }
  }

  lemma ClientsKept<D>(size: int, front: seq<Step<D>>, step: Step<D>, b: Broker<D>)
    requires Inv(size, front, b)
    ensures |Next(b, step).clients| == |Subscriptions(front + [step])|
    ensures forall i :: 0 <= i < |Next(b, step).clients| ==>
        ClientInv(size, front + [step], Next(b, step).clients[i], i)
  {
    SubscriptionsStep(front, step);
    ClientCount(b, step);
    forall i | 0 <= i < |Next(b, step).clients| ensures ClientInv(size, front + [step], Next(b, step).clients[i], i) {
      if i < |b.clients| {
        ClientKept(size, front, step, b, i);
      } else {
        ClientAdded(size, front, step.incident, b);
      }
    }
  }

  lemma StepKeepsInv<D>(size: int, front: seq<Step<D>>, step: Step<D>, b: Broker<D>)
    requires Inv(size, front, b)
    ensures Inv(size, front + [step], Next(b, step))
  {
    HistoryStep(b, step);
    ClientsKept(size, front, step, b);
    forall id ensures Get(Next(b, step).history, id) == Suffix(Published(front + [step], id), Capacity(size)) {
      HistoryKept(size, front, step, b, id);
    }
    forall id ensures RegistryOk(Next(b, step), id) {
      assert RegistryOk(b, id);
      RegistryKept(b, step, id);
    }
  }

  lemma {:induction false} RunKeepsInv<D>(size: int, trace: seq<Step<D>>)
    ensures Inv(size, trace, Run(size, trace))
  {
    if trace != [] {
      var front, last := trace[..|trace| - 1], trace[|trace| - 1];
      assert trace == front + [last];
      RunKeepsInv(size, front);
      StepKeepsInv(size, front, last, Run(size, front));
    }
  }

  // The guarantees, for every interleaving

  /**
   * What a subscriber has been given, followed by what waits in its queue, is
   * exactly what was published to its incident from at most one buffer before
   * it subscribed: nothing is missing, repeated or out of order where replay
   * meets live delivery. After it closed, it holds a prefix of that.
   */
  lemma Delivery<D>(size: int, trace: seq<Step<D>>, i: nat)
    requires i < |Run(size, trace).clients|
    ensures i < |Subscriptions(trace)|
    ensures var c := Run(size, trace).clients[i];
            var log, start := Published(trace, c.incident), Start(size, trace, i);
            && c.incident == trace[Subscriptions(trace)[i]].incident
            && start <= |log|
            && (c.phase != Closed ==> Delivered(c.output) + c.queue == log[start..])
            && Delivered(c.output) <= log[start..]
  {
    RunKeepsInv(size, trace);
    assert ClientInv(size, trace, Run(size, trace).clients[i], i);
  }

  /** The replay buffer of an incident is always the end of what was published to it. */
  lemma HistoryIsSuffix<D>(size: int, trace: seq<Step<D>>, id: string)
    ensures Get(Run(size, trace).history, id) == Suffix(Published(trace, id), Capacity(size))
  {
    RunKeepsInv(size, trace);
  }

  /** Nothing, not even a ping, follows a terminal record. */
  lemma TerminalIsLast<D>(size: int, trace: seq<Step<D>>, i: nat, j: nat)
    requires i < |Run(size, trace).clients| && j < |Run(size, trace).clients[i].output|
    requires var o := Run(size, trace).clients[i].output[j]; o.Item? && Terminal(o.record)
    ensures j == |Run(size, trace).clients[i].output| - 1
  {
    RunKeepsInv(size, trace);
    assert ClientInv(size, trace, Run(size, trace).clients[i], i);
  }

  /** The registered queues are those of the clients that are not closed, each once. */
  lemma RegisteredAreLive<D>(size: int, trace: seq<Step<D>>, id: string, i: nat)
    ensures var b := Run(size, trace);
            && Get(b.registered, id) == LiveClients(b.clients, id)
            && (i in Get(b.registered, id) <==>
                  i < |b.clients| && b.clients[i].incident == id && b.clients[i].phase != Closed)
  {
    RunKeepsInv(size, trace);
    assert RegistryOk(Run(size, trace), id);
    LiveMembers(Run(size, trace).clients, id, i);
  }

  /** Publishing to one incident leaves the subscribers and the buffers of all others alone. */
  lemma PublishIsLocal<D>(size: int, trace: seq<Step<D>>, id: string, r: Record<D>, other: string)
    requires other != id
    ensures var b, b' := Run(size, trace), Run(size, trace + [Publish(id, r)]);
            && Get(b'.history, other) == Get(b.history, other)
            && |b'.clients| == |b.clients|
            && forall i :: 0 <= i < |b.clients| && b.clients[i].incident == other ==> b'.clients[i] == b.clients[i]
  {
    var b := Run(size, trace);
    assert (trace + [Publish(id, r)])[..|trace|] == trace;
    forall i | 0 <= i < |b.clients| && b.clients[i].incident == other
      ensures Next(b, Publish(id, r)).clients[i] == b.clients[i]
    {
      RegisteredAreLive(size, trace, id, i);
    }
  }

  // Progress

  /** How many queued records a subscriber is still going to yield: those up to the first terminal one, or all. */
  function Due<D>(queue: seq<Record<D>>): (n: nat)
    ensures n <= |queue|
    ensures forall j :: 0 <= j < n - 1 ==> !Terminal(queue[j])
    ensures n < |queue| ==> n > 0 && Terminal(queue[n - 1])
  {
    if queue == [] then 0 else if Terminal(queue[0]) then 1 else 1 + Due(queue[1..])
  }

  function Pulls<D>(steps: seq<Step<D>>, i: nat): nat {
    if steps == [] then 0 else
      Pulls(steps[..|steps| - 1], i) + if steps[|steps| - 1] == Pull(i) then 1 else 0
  }

  /** `c'` is what `c` has become after `p` pulls. */
  ghost predicate Advanced<D>(c: Client<D>, c': Client<D>, p: nat) {
    var n := Due(c.queue);
    if p < n then
      && c'.phase == Live && c.queue[p..] <= c'.queue
      && Delivered(c'.output) == Delivered(c.output) + c.queue[..p]
    else
      && Delivered(c.output) + c.queue[..n] <= Delivered(c'.output)
      && (n > 0 && Terminal(c.queue[n - 1]) ==>
            && Delivered(c'.output) == Delivered(c.output) + c.queue[..n]
            && c'.phase == if p == n then Ending else Closed)
  }

  lemma DeliveredGrows<D>(output: seq<Output<D>>, x: Output<D>)
    ensures Delivered(output + [x]) == Delivered(output) + if x.Item? then [x.record] else []
  {
    assert (output + [x])[..|output|] == output;
  }

  lemma PullAdvances<D>(c: Client<D>, c': Client<D>, p: nat)
    requires p < Due(c.queue) && Advanced(c, c', p)
    ensures c'.queue != [] && Advanced(c, Take(c'), p + 1)
  {
    assert c'.queue[0] == c.queue[p..][0] == c.queue[p];
    DeliveredGrows(c'.output, Item(c'.queue[0]));
    assert c.queue[..p] + [c.queue[p]] == c.queue[..p + 1];
    assert c.queue[p..][1..] == c.queue[p + 1..];
    assert Take(c').queue == c'.queue[1..];
  }

  lemma StepAdvances<D>(c: Client<D>, c': Client<D>, i: nat, step: Step<D>, receives: bool, p: nat)
    requires Advanced(c, c', p) && step != Close(i)
    ensures Advanced(c, ClientAfter(c', i, step, receives), p + if step == Pull(i) then 1 else 0)
  {
    hide Delivered;
    if step == Pull(i) && p < Due(c.queue) {
      PullAdvances(c, c', p);
    } else if step == Pull(i) && c'.queue != [] {
      DeliveredGrows(c'.output, Item(c'.queue[0]));
    } else if step == Timeout(i) {
      DeliveredGrows(c'.output, Ping);
    }
  }

  lemma {:induction false} ClientAdvances<D>(size: int, trace: seq<Step<D>>, more: seq<Step<D>>, i: nat)
    requires i < |Run(size, trace).clients| && Run(size, trace).clients[i].phase == Live
    requires Close(i) !in more
    ensures i < |Run(size, trace + more).clients|
    ensures Advanced(Run(size, trace).clients[i], Run(size, trace + more).clients[i], Pulls(more, i))
  {
    hide Next;
    hide Advanced;
    if more == [] {
      assert trace + more == trace;
      NotYetAdvanced(Run(size, trace).clients[i]);
    } else {
      var n := |more| - 1;
      var b := Run(size, trace + more[..n]);
      assert (trace + more)[..|trace| + n] == trace + more[..n];
      ClientAdvances(size, trace, more[..n], i);
      ClientStep(b, more[n], i);
      StepAdvances(Run(size, trace).clients[i], b.clients[i], i, more[n],
                   more[n].Publish? && i in Get(b.registered, more[n].incident), Pulls(more[..n], i));
    }
  }

  lemma NotYetAdvanced<D>(c: Client<D>)
    requires c.phase == Live
    ensures Advanced(c, c, 0)
  {
    assert Delivered(c.output) + c.queue[..0] == Delivered(c.output);
  }

  /**
   * In every continuation that does not close a live subscriber, as many pulls
   * as it has records due bring it all of them: everything that was published
   * to its incident since its start, or exactly everything up to a terminal
   * event. One pull more after a terminal event closes and unregisters it.
   */
  lemma Progress<D>(size: int, trace: seq<Step<D>>, more: seq<Step<D>>, i: nat)
    requires i < |Run(size, trace).clients| && Run(size, trace).clients[i].phase == Live
    requires Close(i) !in more && Pulls(more, i) >= Due(Run(size, trace).clients[i].queue)
    ensures i < |Subscriptions(trace)| && i < |Run(size, trace + more).clients|
    ensures Start(size, trace, i) <= |Published(trace, Run(size, trace).clients[i].incident)|
    ensures var c := Run(size, trace).clients[i];
            var b := Run(size, trace + more);
            var owed := Published(trace, c.incident)[Start(size, trace, i)..];
            var got := Delivered(b.clients[i].output);
            var n := Due(c.queue);
            if exists j :: 0 <= j < |c.queue| && Terminal(c.queue[j]) then
              && got == Delivered(c.output) + c.queue[..n] && Terminal(c.queue[n - 1])
              && (Pulls(more, i) > n ==>
                    b.clients[i].phase == Closed && forall id :: i !in Get(b.registered, id))
            else owed <= got
  {
    hide Run;
    Delivery(size, trace, i);
    ClientAdvances(size, trace, more, i);
    var c := Run(size, trace).clients[i];
    forall id ensures i in Get(Run(size, trace + more).registered, id) ==>
                        Run(size, trace + more).clients[i].phase != Closed {
      RegisteredAreLive(size, trace + more, id, i);
    }
    if Due(c.queue) == |c.queue| {
      assert c.queue[..Due(c.queue)] == c.queue;
    }
  }

  // One resumption of a generator

  /**
   * The next pull of a live subscriber yields the oldest record in its queue,
   * and the stream is about to end exactly after a resolved, failed or
   * escalated event; with an empty queue it waits.
   */
  lemma PullYields<D>(size: int, trace: seq<Step<D>>, i: nat)
    requires i < |Run(size, trace).clients| && Run(size, trace).clients[i].phase == Live
    ensures i < |Run(size, trace + [Pull(i)]).clients|
    ensures var c, c' := Run(size, trace).clients[i], Run(size, trace + [Pull(i)]).clients[i];
            if c.queue == [] then c' == c
            else
              && c'.output == c.output + [Item(c.queue[0])] && c'.queue == c.queue[1..] && c'.incident == c.incident
              && c'.phase == if c.queue[0].event == "resolved" || c.queue[0].event == "failed"
                                || c.queue[0].event == "escalated" then Ending else Live
  {
    assert (trace + [Pull(i)])[..|trace|] == trace;
  }

  /** After the record that ends a stream, the next pull closes the subscriber and takes it out of every registry. */
  lemma PullEnds<D>(size: int, trace: seq<Step<D>>, i: nat)
    requires i < |Run(size, trace).clients| && Run(size, trace).clients[i].phase == Ending
    ensures var b, b' := Run(size, trace), Run(size, trace + [Pull(i)]);
            && i < |b'.clients|
            && b'.clients[i] == b.clients[i].(phase := Closed)
            && forall id :: i !in Get(b'.registered, id)
  {
    assert (trace + [Pull(i)])[..|trace|] == trace;
    forall id ensures i !in Get(Run(size, trace + [Pull(i)]).registered, id) {
      RegisteredAreLive(size, trace + [Pull(i)], id, i);
    }
  }

  /** A closed subscriber is given nothing any more, whatever happens. */
  lemma {:induction false} ClosedStays<D>(size: int, trace: seq<Step<D>>, more: seq<Step<D>>, i: nat)
    requires i < |Run(size, trace).clients| && Run(size, trace).clients[i].phase == Closed
    ensures i < |Run(size, trace + more).clients|
    ensures Run(size, trace + more).clients[i] == Run(size, trace).clients[i]
  {
    hide Next;
    if more == [] {
      assert trace + more == trace;
    } else {
      var n := |more| - 1;
      assert (trace + more)[..|trace| + n] == trace + more[..n];
      ClosedStays(size, trace, more[..n], i);
      var b := Run(size, trace + more[..n]);
      ClientStep(b, more[n], i);
      if more[n].Publish? {
        RegisteredAreLive(size, trace + more[..n], more[n].incident, i);
      }
    }
  }
}
