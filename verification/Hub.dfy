/**
 * The WebSocket hub: clients register for topics, each topic with clients has one pub/sub
 * subscription, and every subscription ever opened (an epoch) keeps a fan-out loop that drains what
 * it has received, also after it was closed.
 */
module Hub {
  import opened Domain
  import Runs

  // Project boards and agent sessions go through twin maps of the same shape.
  datatype Topic = Board(project: ProjectId) | Agent(session: SessionId)

  type ClientId = Id
  type Epoch = nat
  type Event = nat  // numbered in the order of publication

  const SEND_BUFFER: nat := 64

  // ---------------------------------------------------------------------------
  // The maps
  // ---------------------------------------------------------------------------

  // `open` are the subscriptions the pub/sub server knows of, `topicOf` what each one ever opened is for.
  datatype Registry = Registry(
    clients: map<Topic, set<ClientId>>,
    subs: map<Topic, Epoch>,
    topicOf: map<Epoch, Topic>,
    open: set<Epoch>,
    next: Epoch)

  const EMPTY := Registry(map[], map[], map[], {}, 0)

  function Clients(r: Registry, t: Topic): set<ClientId> {
    if t in r.clients then r.clients[t] else {}
  }

  /** Topics with clients are exactly those with an open subscription, one each. */
  ghost predicate Matched(r: Registry) {
    && r.clients.Keys == r.subs.Keys
    && (forall t :: t in r.clients ==> r.clients[t] != {})
    && (forall t :: t in r.subs ==> r.subs[t] in r.open && r.subs[t] in r.topicOf && r.topicOf[r.subs[t]] == t)
    && (forall e :: e in r.open ==> e in r.topicOf && r.topicOf[e] in r.subs && r.subs[r.topicOf[e]] == e)
    && (forall e :: e in r.topicOf ==> e < r.next)
  }

  function Subscribed(r: Registry, t: Topic, c: ClientId): Registry {
    if t in r.clients then r.(clients := r.clients[t := r.clients[t] + {c}])
    else Registry(r.clients[t := {c}], r.subs[t := r.next], r.topicOf[r.next := t], r.open + {r.next}, r.next + 1)
  }

  function Unsubscribed(r: Registry, t: Topic, c: ClientId): Registry {
    if t !in r.clients then r
    else if r.clients[t] - {c} != {} then r.(clients := r.clients[t := r.clients[t] - {c}])
    else if t !in r.subs then r.(clients := r.clients - {t})
    else r.(clients := r.clients - {t}, subs := r.subs - {t}, open := r.open - {r.subs[t]})
  }

  lemma SubscribedIsMatched(r: Registry, t: Topic, c: ClientId)
    requires Matched(r)
    ensures Matched(Subscribed(r, t, c))
    ensures forall u :: Clients(Subscribed(r, t, c), u) == Clients(r, u) + if u == t then {c} else {}
  {
  }

  lemma UnsubscribedIsMatched(r: Registry, t: Topic, c: ClientId)
    requires Matched(r)
    ensures Matched(Unsubscribed(r, t, c))
    ensures forall u :: Clients(Unsubscribed(r, t, c), u) == Clients(r, u) - if u == t then {c} else {}
  {
  }

  class Hub {
    var registry: Registry
    var buffers: map<ClientId, seq<Event>>  // what waits in each client's channel

    constructor ()
      ensures Matched(registry) && registry == EMPTY && buffers == map[]
    {
      registry, buffers := EMPTY, map[];
    }

    method Subscribe(t: Topic, c: ClientId)
      requires Matched(registry)
      modifies this`registry
      ensures Matched(registry) && registry == Subscribed(old(registry), t, c)
    {
      SubscribedIsMatched(registry, t, c);
      if t !in registry.clients {
        registry := Registry(registry.clients[t := {}], registry.subs[t := registry.next],
          registry.topicOf[registry.next := t],
                             registry.open + {registry.next}, registry.next + 1);
      }
      registry := registry.(clients := registry.clients[t := registry.clients[t] + {c}]);
      assert t !in old(registry).clients ==> registry.clients[t] == {c};
      assert registry.clients == Subscribed(old(registry), t, c).clients;
    }

    method Unsubscribe(t: Topic, c: ClientId)
      requires Matched(registry)
      modifies this`registry
      ensures Matched(registry) && registry == Unsubscribed(old(registry), t, c)
    {
      UnsubscribedIsMatched(registry, t, c);
      if t in registry.clients {
        registry := registry.(clients := registry.clients[t := registry.clients[t] - {c}]);
        if registry.clients[t] == {} {
          registry := registry.(clients := registry.clients - {t});
          if t in registry.subs {
            registry := registry.(open := registry.open - {registry.subs[t]}, subs := registry.subs - {t});
          }
        }
      }
      assert registry.clients == Unsubscribed(old(registry), t, c).clients;
    }

    /**
     * One event to all clients of a topic: a client whose channel is full loses its own copy, and no
     * other is affected.
     */
    method FanOut(t: Topic, event: Event)
      requires forall c :: c in Clients(registry, t) ==> c in buffers
      modifies this`buffers
      ensures buffers.Keys == old(buffers).Keys
      ensures forall c :: c in Clients(registry, t) ==>
                buffers[c] == if |old(buffers)[c]| < SEND_BUFFER then old(buffers)[c] + [event] else old(buffers)[c]
      ensures forall c :: c in buffers && c !in Clients(registry, t) ==> buffers[c] == old(buffers)[c]
    {
      var todo := Clients(registry, t);
      while todo != {}
        invariant todo <= Clients(registry, t) && buffers.Keys == old(buffers).Keys
        invariant forall c :: c in Clients(registry, t) - todo ==>
                    buffers[c] == if |old(buffers)[c]| < SEND_BUFFER then old(buffers)[c] + [event] else old(buffers)[c]
        invariant forall c :: c in buffers && (c in todo || c !in Clients(registry, t)) ==>
            buffers[c] == old(buffers)[c]
      {
        var c :| c in todo;
        if |buffers[c]| < SEND_BUFFER {
          buffers := buffers[c := buffers[c] + [event]];
        }
        todo := todo - {c};
      }
    }
  }

  // ---------------------------------------------------------------------------
  // All loops interleaved
  // ---------------------------------------------------------------------------

  // A copy of an event, as one epoch got it: waiting, being handed to one client after another, or done with.
  datatype Stage = Queued | Moving(left: set<ClientId>) | Spent

  // `logs` is everything ever put into a client's channel, `taken` how much of it was read.
  datatype State = State(
    registry: Registry,
    copies: map<(Event, Epoch), Stage>,
    next: Event,
    logs: map<ClientId, seq<Event>>,
    taken: map<ClientId, nat>)

  const START := State(EMPTY, map[], 0, map[], map[])

  datatype Step =
    | Connect(c: ClientId)
    | Subscribe(t: Topic, c: ClientId)
    | Unsubscribe(t: Topic, c: ClientId)
    | Publish(t: Topic)
    | Lose(event: Event, epoch: Epoch)                 // dropped before the loop saw it
    | Begin(event: Event, epoch: Epoch)                // the loop of the epoch takes it and reads the client map
    | Deliver(event: Event, epoch: Epoch, c: ClientId)
    | Finish(event: Event, epoch: Epoch)
    | Read(c: ClientId)

  predicate IsMoving(s: State, ev: Event, e: Epoch) {
    (ev, e) in s.copies && s.copies[(ev, e)].Moving?
  }

  predicate IsQueued(s: State, ev: Event, e: Epoch) {
    (ev, e) in s.copies && s.copies[(ev, e)] == Queued
  }

  // The loops read the map under a shared lock, which keeps changes of the map out.
  predicate Locked(s: State) {
    exists k :: k in s.copies && s.copies[k].Moving?
  }

  predicate Busy(s: State, e: Epoch) {
    exists k :: k in s.copies && s.copies[k].Moving? && k.1 == e
  }

  // First in, first out.
  predicate Foremost(s: State, ev: Event, e: Epoch) {
    forall k :: k in s.copies && s.copies[k] == Queued && k.1 == e ==> ev <= k.0
  }

  // The client is still to get the event from a loop that has begun.
  predicate InLine(s: State, ev: Event, e: Epoch, c: ClientId) {
    IsMoving(s, ev, e) && c in s.copies[(ev, e)].left
  }

  function Staged(s: State, ev: Event, e: Epoch, stage: Stage): State {
    s.(copies := s.copies[(ev, e) := stage])
  }

  // How much waits in a client's channel.
  function Waiting(s: State, c: ClientId): int {
    if c in s.logs && c in s.taken then |s.logs[c]| - s.taken[c] else 0
  }

  // A send that does not block: it drops when the channel is full.
  function Put(s: State, c: ClientId, ev: Event): map<ClientId, seq<Event>>
    requires c in s.logs
  {
    if Waiting(s, c) < SEND_BUFFER then s.logs[c := s.logs[c] + [ev]] else s.logs
  }

  /** Every subscription of the topic that is open gets a copy, whether it should be open or not. */
  function Received(s: State, t: Topic): map<(Event, Epoch), Stage> {
    map e | e in s.registry.open && e in s.registry.topicOf && s.registry.topicOf[e] == t :: (s.next, e) := Queued
  }

  function Take(s: State, step: Step): Option<State> {
    match step
    case Connect(c) =>
      if c in s.logs || c in s.taken then None else Some(s.(logs := s.logs[c := []], taken := s.taken[c := 0]))
    case Subscribe(t, c) =>
      if Locked(s) || c !in s.logs then None else Some(s.(registry := Subscribed(s.registry, t, c)))
    case Unsubscribe(t, c) =>
      if Locked(s) then None else Some(s.(registry := Unsubscribed(s.registry, t, c)))
    case Publish(t) => Some(s.(next := s.next + 1, copies := s.copies + Received(s, t)))
    case Lose(ev, e) => if IsQueued(s, ev, e) then Some(Staged(s, ev, e, Spent)) else None
    case Begin(ev, e) =>
      if IsQueued(s, ev, e) && e in s.registry.topicOf && !Busy(s, e) && Foremost(s, ev, e)
      then Some(Staged(s, ev, e, Moving(Clients(s.registry, s.registry.topicOf[e])))) else None
    case Deliver(ev, e, c) =>
      if InLine(s, ev, e, c) && c in s.logs
      then Some(Staged(s, ev, e, Moving(s.copies[(ev, e)].left - {c})).(logs := Put(s, c, ev))) else None
    case Finish(ev, e) =>
      if IsMoving(s, ev, e) && s.copies[(ev, e)].left == {} then Some(Staged(s, ev, e, Spent)) else None
    case Read(c) =>
      if c in s.logs && c in s.taken && s.taken[c] < |s.logs[c]|
        then Some(s.(taken := s.taken[c := s.taken[c] + 1])) else None
  }

  function Steps(): (State, Step) -> Option<State> {
    (s, step) => Take(s, step)
  }

  ghost predicate Behaviour(ss: seq<State>) {
    Runs.Behaviour(START, Steps(), ss)
  }

  // ---------------------------------------------------------------------------
  // Invariant
  // ---------------------------------------------------------------------------

  // No two epochs hold copies of the same event.
  predicate OneCopy(s: State, ev: Event, e: Epoch, d: Epoch) {
    (ev, e) in s.copies && (ev, d) in s.copies ==> e == d
  }

  // An epoch hands out one event at a time, and the older before the newer.
  predicate PairOk(s: State, x: Event, y: Event, e: Epoch) {
    IsMoving(s, x, e) ==> (IsQueued(s, y, e) ==> x < y) && (IsMoving(s, y, e) ==> x == y)
  }

  // The event may still reach the client by way of this epoch.
  predicate Ahead(s: State, ev: Event, e: Epoch, c: ClientId) {
    IsQueued(s, ev, e) || InLine(s, ev, e, c)
  }

  // What a client has got from an epoch is older than what it may still get from it.
  predicate AheadOk(s: State, ev: Event, e: Epoch, c: ClientId) {
    c in s.logs && Ahead(s, ev, e, c) ==> forall x :: x in s.logs[c] && (x, e) in s.copies ==> x < ev
  }

  // No event twice, and those of one epoch in the order of publication.
  ghost predicate LogOk(s: State, c: ClientId) {
    c in s.logs ==>
      && (forall x :: x in s.logs[c] ==> x < s.next)
      && (forall i, j :: 0 <= i < j < |s.logs[c]| ==> s.logs[c][i] != s.logs[c][j])
      && (forall i, j, e ::
           0 <= i < j < |s.logs[c]| && (s.logs[c][i], e) in s.copies && (s.logs[c][j], e) in s.copies ==>
            s.logs[c][i] < s.logs[c][j])
  }

  ghost predicate Inv(s: State) {
    && Matched(s.registry)
    && (forall k :: k in s.copies ==> k.0 < s.next)
    && (forall ev, e, d {:trigger OneCopy(s, ev, e, d)} :: OneCopy(s, ev, e, d))
    && (forall x, y, e {:trigger PairOk(s, x, y, e)} :: PairOk(s, x, y, e))
    && (forall ev, e, c {:trigger AheadOk(s, ev, e, c)} :: AheadOk(s, ev, e, c))
    && (forall c {:trigger LogOk(s, c)} :: LogOk(s, c))
  }

  predicate Older(s: State) {
    forall k :: k in s.copies ==> k.0 < s.next
  }

  // Copies stay, and new ones are of the event published.
  lemma StepKeepsCopies(s: State, step: Step, s': State)
    requires Take(s, step) == Some(s') && Older(s)
    ensures Older(s') && s'.next >= s.next
    ensures forall k :: k in s.copies ==> k in s'.copies
    ensures forall k :: k in s'.copies && k !in s.copies ==>
        step.Publish? && k.0 == s.next && s'.copies[k] == Queued && k in Received(s, step.t)
  {
  }

  /**
   * A topic's open subscriptions are one at most, so an event is received once: this is what the hub's
   * bookkeeping is for.
   */
  lemma ReceivedOnce(s: State, t: Topic, e: Epoch, d: Epoch)
    requires Matched(s.registry) && (s.next, e) in Received(s, t) && (s.next, d) in Received(s, t)
    ensures e == d
  {
  }

  lemma StepKeepsOneCopy(s: State, step: Step, s': State, ev: Event, e: Epoch, d: Epoch)
    requires Take(s, step) == Some(s') && Older(s) && Matched(s.registry) && OneCopy(s, ev, e, d)
    ensures OneCopy(s', ev, e, d)
  {
    StepKeepsCopies(s, step, s');
    if step.Publish? && ev == s.next && (ev, e) in s'.copies && (ev, d) in s'.copies {
      ReceivedOnce(s, step.t, e, d);
    }
  }

  lemma StepKeepsPair(s: State, step: Step, s': State, x: Event, y: Event, e: Epoch)
    requires Take(s, step) == Some(s') && PairOk(s, x, y, e) && PairOk(s, y, x, e) && Older(s)
    ensures PairOk(s', x, y, e)
  {
    StepKeepsCopies(s, step, s');
  }

  lemma StepKeepsAhead(s: State, step: Step, s': State, ev: Event, e: Epoch, c: ClientId)
    requires Take(s, step) == Some(s') && AheadOk(s, ev, e, c) && LogOk(s, c) && Older(s)
    requires step.Deliver? ==> PairOk(s, step.event, ev, e) && OneCopy(s, step.event, step.epoch, e)
    ensures AheadOk(s', ev, e, c)
  {
    StepKeepsCopies(s, step, s');
  }

  lemma StepKeepsLog(s: State, step: Step, s': State, c: ClientId)
    requires Take(s, step) == Some(s') && LogOk(s, c) && Older(s)
    requires step.Deliver? ==> AheadOk(s, step.event, step.epoch, c)
    requires forall ev, e, d {:trigger OneCopy(s, ev, e, d)} :: OneCopy(s, ev, e, d)
    ensures LogOk(s', c)
  {
    StepKeepsCopies(s, step, s');
    if c in s.logs {
      var log, log' := s.logs[c], s'.logs[c];
      forall i, j, e | 0 <= i < j < |log'| && (log'[i], e) in s'.copies && (log'[j], e) in s'.copies
        ensures log'[i] < log'[j] {
        assert log[i] == log'[i] && log[i] in log;
        if j < |log| {
          assert log[j] == log'[j] && log[j] in log;
        } else {
          assert OneCopy(s, step.event, step.epoch, e);
        }
      }
      forall i, j | 0 <= i < j < |log'| ensures log'[i] != log'[j] {
        assert log[i] == log'[i] && log[i] in log;
      }
    }
  }

  lemma StepKeepsRegistry(s: State, step: Step, s': State)
    requires Matched(s.registry) && Take(s, step) == Some(s')
    ensures Matched(s'.registry)
  {
    if step.Subscribe? {
      SubscribedIsMatched(s.registry, step.t, step.c);
    }
    if step.Unsubscribe? {
      UnsubscribedIsMatched(s.registry, step.t, step.c);
    }
  }

  lemma StepKeepsInv(s: State, step: Step, s': State)
    requires Inv(s) && Take(s, step) == Some(s')
    ensures Inv(s')
  {
    StepKeepsCopies(s, step, s');
    StepKeepsRegistry(s, step, s');
    forall ev, e, d ensures OneCopy(s', ev, e, d) {
      assert OneCopy(s, ev, e, d);
      StepKeepsOneCopy(s, step, s', ev, e, d);
    }
    forall x, y, e ensures PairOk(s', x, y, e) {
      assert PairOk(s, x, y, e) && PairOk(s, y, x, e);
      StepKeepsPair(s, step, s', x, y, e);
    }
    forall ev, e, c ensures AheadOk(s', ev, e, c) {
      assert AheadOk(s, ev, e, c) && LogOk(s, c);
      assert step.Deliver? ==> PairOk(s, step.event, ev, e) && OneCopy(s, step.event, step.epoch, e);
      StepKeepsAhead(s, step, s', ev, e, c);
    }
    forall c ensures LogOk(s', c) {
      assert LogOk(s, c) && (step.Deliver? ==> AheadOk(s, step.event, step.epoch, c));
      StepKeepsLog(s, step, s', c);
    }
  }

  lemma {:induction false} InvHolds(ss: seq<State>, i: nat)
    requires Behaviour(ss) && i < |ss|
    ensures Inv(ss[i])
  {
    if i > 0 {
      InvHolds(ss, i - 1);
      var step := Runs.EventAt(START, Steps(), ss, i);
      StepKeepsInv(ss[i - 1], step, ss[i]);
    }
  }

  // ---------------------------------------------------------------------------
  // Results
  // ---------------------------------------------------------------------------

  /** Topics with clients have exactly one open subscription each, and no other subscription is open. */
  lemma SubscriptionsMatchClients(ss: seq<State>, i: nat)
    requires Behaviour(ss) && i < |ss|
    ensures Matched(ss[i].registry)
    ensures var r := ss[i].registry;
            && (forall t :: t in r.clients <==> exists e :: e in r.open && e in r.topicOf && r.topicOf[e] == t)
            && (forall e, d :: e in r.open && d in r.open && r.topicOf[e] == r.topicOf[d] ==> e == d)
  {
    InvHolds(ss, i);
    var r := ss[i].registry;
    forall t | t in r.clients ensures exists e :: e in r.open && e in r.topicOf && r.topicOf[e] == t {
      assert r.subs[t] in r.open;
    }
  }

  /** No client receives an event twice, and what it receives from one epoch comes in the order of publication. */
  lemma AtMostOnce(ss: seq<State>, n: nat, c: ClientId, i: nat, j: nat)
    requires Behaviour(ss) && n < |ss| && c in ss[n].logs && i < j < |ss[n].logs[c]|
    ensures ss[n].logs[c][i] != ss[n].logs[c][j]
    ensures (exists e :: (ss[n].logs[c][i], e) in ss[n].copies && (ss[n].logs[c][j], e) in ss[n].copies) ==>
              ss[n].logs[c][i] < ss[n].logs[c][j]
  {
    InvHolds(ss, n);
    assert LogOk(ss[n], c);
  }

  // The step at which a client's turn comes, with its channel full.
  predicate Missed(s: State, s': State, ev: Event, e: Epoch, c: ClientId) {
    InLine(s, ev, e, c) && !InLine(s', ev, e, c) && Waiting(s, c) >= SEND_BUFFER
  }

  lemma TurnComes(s: State, step: Step, s': State, ev: Event, e: Epoch, c: ClientId)
    requires Take(s, step) == Some(s') && Older(s) && InLine(s, ev, e, c) && c in s.logs
    ensures c in s'.logs && (InLine(s', ev, e, c) || Missed(s, s', ev, e, c) || ev in s'.logs[c])
  {
    StepKeepsCopies(s, step, s');
  }

  lemma LogsGrow(s: State, step: Step, s': State, c: ClientId)
    requires Take(s, step) == Some(s') && c in s.logs
    ensures c in s'.logs && forall x :: x in s.logs[c] ==> x in s'.logs[c]
  {
  }

  predicate MissedAt(ss: seq<State>, k: nat, ev: Event, e: Epoch, c: ClientId) {
    k + 1 < |ss| && Missed(ss[k], ss[k + 1], ev, e, c)
  }

  ghost predicate MissedBetween(ss: seq<State>, i: nat, j: nat, ev: Event, e: Epoch, c: ClientId) {
    exists k {:trigger MissedAt(ss, k, ev, e, c)} :: i <= k < j && MissedAt(ss, k, ev, e, c)
  }

  lemma OneStepOn(ss: seq<State>, j: nat, ev: Event, e: Epoch, c: ClientId)
    requires Behaviour(ss) && 0 < j < |ss| && c in ss[j - 1].logs
    ensures c in ss[j].logs && (ev in ss[j - 1].logs[c] ==> ev in ss[j].logs[c])
    ensures InLine(ss[j - 1], ev, e, c) ==>
              InLine(ss[j], ev, e, c) || MissedAt(ss, j - 1, ev, e, c) || ev in ss[j].logs[c]
  {
    InvHolds(ss, j - 1);
    var step := Runs.EventAt(START, Steps(), ss, j);
    LogsGrow(ss[j - 1], step, ss[j], c);
    if InLine(ss[j - 1], ev, e, c) {
      TurnComes(ss[j - 1], step, ss[j], ev, e, c);
    }
  }

  /**
   * Whoever a loop was to hand an event to has got it once its turn is over, unless its own channel
   * held 64 events at that turn; whatever became of the other clients.
   */
  lemma {:induction false} OnlyAFullClientMisses(ss: seq<State>, i: nat, j: nat, ev: Event, e: Epoch, c: ClientId)
    requires Behaviour(ss) && i <= j < |ss| && c in ss[i].logs && InLine(ss[i], ev, e, c)
    ensures c in ss[j].logs
    ensures InLine(ss[j], ev, e, c) || ev in ss[j].logs[c] || MissedBetween(ss, i, j, ev, e, c)
  {
    if i < j {
      OnlyAFullClientMisses(ss, i, j - 1, ev, e, c);
      OneStepOn(ss, j, ev, e, c);
    }
  }

  /** A loop that has handed out its event has served all clients its topic had when it began, but for full ones. */
  lemma FanOutReachesAll(ss: seq<State>, i: nat, j: nat, ev: Event, e: Epoch, c: ClientId)
    requires Behaviour(ss) && i < j < |ss| && c in ss[i].logs && e in ss[i].registry.topicOf
    requires Take(ss[i], Begin(ev, e)) == Some(ss[i + 1]) && c in Clients(ss[i].registry, ss[i].registry.topicOf[e])
    requires (ev, e) in ss[j].copies && ss[j].copies[(ev, e)] == Spent
    ensures c in ss[j].logs
    ensures ev in ss[j].logs[c] || MissedBetween(ss, i + 1, j, ev, e, c)
  {
    OnlyAFullClientMisses(ss, i + 1, j, ev, e, c);
  }

  // ----- who gets what -----

  // The event was published on the topic at this step.
  predicate PublishedAt(ss: seq<State>, k: nat, ev: Event, t: Topic) {
    k + 1 < |ss| && ss[k].next == ev && Take(ss[k], Publish(t)) == Some(ss[k + 1])
  }

  // At this step a loop takes the event and finds the client among those of its topic.
  predicate BegunAt(ss: seq<State>, j: nat, ev: Event, e: Epoch, c: ClientId) {
    && j + 1 < |ss| && Take(ss[j], Begin(ev, e)) == Some(ss[j + 1])
    && e in ss[j].registry.topicOf && ss[j].registry.topicOf[e] in ss[j].registry.clients
    && c in ss[j].registry.clients[ss[j].registry.topicOf[e]]
  }

  predicate HasTopic(s: State, e: Epoch, t: Topic) {
    e in s.registry.topicOf && s.registry.topicOf[e] == t
  }

  lemma TopicStays(s: State, step: Step, s': State, e: Epoch, t: Topic)
    requires Take(s, step) == Some(s') && Matched(s.registry) && HasTopic(s, e, t)
    ensures HasTopic(s', e, t)
  {
  }

  // A copy is of an event that was published on the topic of its epoch.
  lemma {:induction false} CopyWasPublished(ss: seq<State>, i: nat, ev: Event, e: Epoch) returns (k: nat, t: Topic)
    requires Behaviour(ss) && i < |ss| && (ev, e) in ss[i].copies
    ensures k < i && PublishedAt(ss, k, ev, t) && HasTopic(ss[i], e, t)
  {
    InvHolds(ss, i - 1);
    var step := Runs.EventAt(START, Steps(), ss, i);
    if (ev, e) in ss[i - 1].copies {
      k, t := CopyWasPublished(ss, i - 1, ev, e);
      TopicStays(ss[i - 1], step, ss[i], e, t);
    } else {
      StepKeepsCopies(ss[i - 1], step, ss[i]);
      k, t := i - 1, step.t;
    }
  }

  lemma EntersLine(s: State, step: Step, s': State, ev: Event, e: Epoch, c: ClientId)
    requires Take(s, step) == Some(s') && InLine(s', ev, e, c)
    ensures InLine(s, ev, e, c)
            || (step == Begin(ev, e) && e in s.registry.topicOf && s.registry.topicOf[e] in s.registry.clients
                && c in s.registry.clients[s.registry.topicOf[e]])
  {
  }

  // Whoever is in line was a client of the topic when the loop began.
  lemma {:induction false} LineBegan(ss: seq<State>, i: nat, ev: Event, e: Epoch, c: ClientId) returns (j: nat)
    requires Behaviour(ss) && i < |ss| && InLine(ss[i], ev, e, c)
    ensures j < i && BegunAt(ss, j, ev, e, c)
  {
    var step := Runs.EventAt(START, Steps(), ss, i);
    EntersLine(ss[i - 1], step, ss[i], ev, e, c);
    if InLine(ss[i - 1], ev, e, c) {
      j := LineBegan(ss, i - 1, ev, e, c);
    } else {
      j := i - 1;
    }
  }

  /** A client gets an event only from a loop that found it among the clients of the topic it was published on. */
  lemma {:induction false} OnlyClientsOfTheTopic(ss: seq<State>, i: nat, ev: Event, c: ClientId)
      returns (k: nat, j: nat, e: Epoch)
    requires Behaviour(ss) && i < |ss| && c in ss[i].logs && ev in ss[i].logs[c]
    ensures k < j < i && BegunAt(ss, j, ev, e, c) && PublishedAt(ss, k, ev, ss[j].registry.topicOf[e])
  {
    var step := Runs.EventAt(START, Steps(), ss, i);
    if c in ss[i - 1].logs && ev in ss[i - 1].logs[c] {
      k, j, e := OnlyClientsOfTheTopic(ss, i - 1, ev, c);
    } else {
      e := step.epoch;
      j := LineBegan(ss, i - 1, ev, e, c);
      var t;
      k, t := CopyWasPublished(ss, j, ev, e);
    }
  }

  // Whoever has taken up a copy, or lost it, does not queue it again.
  lemma {:induction false} NotQueuedAgain(ss: seq<State>, i: nat, j: nat, ev: Event, e: Epoch)
    requires Behaviour(ss) && i <= j < |ss| && (ev, e) in ss[i].copies && !IsQueued(ss[i], ev, e)
    ensures (ev, e) in ss[j].copies && !IsQueued(ss[j], ev, e)
  {
    if i < j {
      NotQueuedAgain(ss, i, j - 1, ev, e);
      InvHolds(ss, j - 1);
      var step := Runs.EventAt(START, Steps(), ss, j);
      StepKeepsTaken(ss[j - 1], step, ss[j], ev, e);
    }
  }

  lemma StepKeepsTaken(s: State, step: Step, s': State, ev: Event, e: Epoch)
    requires Take(s, step) == Some(s') && Older(s) && (ev, e) in s.copies && !IsQueued(s, ev, e)
    ensures (ev, e) in s'.copies && !IsQueued(s', ev, e)
  {
  }

  /** What the loop does not get to see, nobody ever receives. */
  lemma LostIsNeverDelivered(ss: seq<State>, i: nat, j: nat, ev: Event, e: Epoch, c: ClientId)
    requires Behaviour(ss) && i + 1 < |ss| && j < |ss| && Take(ss[i], Lose(ev, e)) == Some(ss[i + 1])
    ensures c in ss[j].logs ==> ev !in ss[j].logs[c]
  {
    if c in ss[j].logs && ev in ss[j].logs[c] {
      var k, b, d := OnlyClientsOfTheTopic(ss, j, ev, c);
      InvHolds(ss, |ss| - 1);
      CopiesStay(ss, i, |ss| - 1, ev, e);
      CopiesStay(ss, b, |ss| - 1, ev, d);
      assert OneCopy(ss[|ss| - 1], ev, e, d) && ss[i + 1].copies[(ev, e)] == Spent;
      if b > i {
        NotQueuedAgain(ss, i + 1, b, ev, e);
      } else if b < i {
        NotQueuedAgain(ss, b + 1, i, ev, e);
      }
    }
  }

  lemma {:induction false} CopiesStay(ss: seq<State>, i: nat, j: nat, ev: Event, e: Epoch)
    requires Behaviour(ss) && i <= j < |ss| && (ev, e) in ss[i].copies
    ensures (ev, e) in ss[j].copies
  {
    if i < j {
      CopiesStay(ss, i, j - 1, ev, e);
      InvHolds(ss, j - 1);
      var step := Runs.EventAt(START, Steps(), ss, j);
      StepKeepsCopies(ss[j - 1], step, ss[j]);
    }
  }

  // A loop hands out to clients of the topic as it is: the map does not change meanwhile.
  predicate LineOk(s: State, ev: Event, e: Epoch, c: ClientId) {
    InLine(s, ev, e, c) ==> e in s.registry.topicOf && c in Clients(s.registry, s.registry.topicOf[e])
  }

  /** Whoever is still to get an event from a loop is a client of its topic at that very time. */
  lemma {:induction false} InLineIsClient(ss: seq<State>, i: nat, ev: Event, e: Epoch, c: ClientId)
    requires Behaviour(ss) && i < |ss|
    ensures LineOk(ss[i], ev, e, c)
  {
    if i > 0 {
      InLineIsClient(ss, i - 1, ev, e, c);
      var step := Runs.EventAt(START, Steps(), ss, i);
      StepKeepsLine(ss[i - 1], step, ss[i], ev, e, c);
    }
  }

  lemma StepKeepsLine(s: State, step: Step, s': State, ev: Event, e: Epoch, c: ClientId)
    requires Take(s, step) == Some(s') && LineOk(s, ev, e, c)
    ensures LineOk(s', ev, e, c)
  {
  }

  predicate ChannelOk(s: State, c: ClientId) {
    c in s.logs ==> c in s.taken && s.taken[c] <= |s.logs[c]| <= s.taken[c] + 64
  }

  /** A client's channel never holds more than 64 events, and is read one by one. */
  lemma {:induction false} ChannelIsBounded(ss: seq<State>, i: nat, c: ClientId)
    requires Behaviour(ss) && i < |ss|
    ensures ChannelOk(ss[i], c)
    ensures ChannelOk(ss[i], c) && c in ss[i].logs && ss[i].taken[c] < |ss[i].logs[c]| ==>
              Take(ss[i], Read(c)).Some? && Waiting(Take(ss[i], Read(c)).value, c) == Waiting(ss[i], c) - 1
  {
    if i > 0 {
      ChannelIsBounded(ss, i - 1, c);
      var step := Runs.EventAt(START, Steps(), ss, i);
      StepKeepsChannel(ss[i - 1], step, ss[i], c);
    }
  }

  lemma StepKeepsChannel(s: State, step: Step, s': State, c: ClientId)
    requires Take(s, step) == Some(s') && ChannelOk(s, c)
    ensures ChannelOk(s', c)
  {
  }

  // ----- what can happen -----

  /** A queued copy can be lost, with no other effect. */
  lemma LosingIsPossible(s: State, ev: Event, e: Epoch) returns (lost: State)
    requires IsQueued(s, ev, e)
    ensures Take(s, Lose(ev, e)) == Some(lost) && lost == s.(copies := s.copies[(ev, e) := Spent])
  {
    lost := Take(s, Lose(ev, e)).value;
  }

  // The loop of this subscription has nothing to do.
  predicate Rests(s: State, e: Epoch) {
    forall k :: k in s.copies && k.1 == e ==> s.copies[k] == Spent
  }

  /** Whoever is connected can come and go while no loop is handing out, whatever is queued. */
  lemma ClientsComeAndGo(s: State, t: Topic, c: ClientId) returns (joined: State, left: State)
    requires Matched(s.registry) && c in s.logs && forall k :: k in s.copies ==> !s.copies[k].Moving?
    ensures Take(s, Subscribe(t, c)) == Some(joined) && joined == s.(registry := joined.registry)
    ensures t in joined.registry.clients && c in joined.registry.clients[t] && t in joined.registry.subs
    ensures Take(joined, Unsubscribe(t, c)) == Some(left) && left == s.(registry := left.registry)
    ensures forall u :: Clients(left.registry, u) == Clients(s.registry, u) - if u == t then {c} else {}
  {
    SubscribedIsMatched(s.registry, t, c);
    joined := Take(s, Subscribe(t, c)).value;
    UnsubscribedIsMatched(joined.registry, t, c);
    left := Take(joined, Unsubscribe(t, c)).value;
  }

  /**
   * What is published on a topic can be handed to each of its clients: the copy is queued, the loop takes it,
   * whatever the other loops are at, and the client has it at once unless 64 events are waiting already.
   */
  lemma ReachesAClient(s: State, t: Topic, c: ClientId) returns (e: Epoch, published: State, begun: State, given: State)
    requires Matched(s.registry) && Older(s) && t in s.registry.subs && Rests(s, s.registry.subs[t])
    requires t in s.registry.clients && c in s.registry.clients[t] && c in s.logs && c in s.taken
    requires s.taken[c] <= |s.logs[c]|
    ensures Take(s, Publish(t)) == Some(published) && published.next == s.next + 1
    ensures Take(published, Begin(s.next, e)) == Some(begun)
    ensures Take(begun, Deliver(s.next, e, c)) == Some(given)
    ensures c in given.logs
    ensures given.logs[c] == if |s.logs[c]| - s.taken[c] < 64 then s.logs[c] + [s.next] else s.logs[c]
    ensures forall d :: d in s.logs && d != c ==> d in given.logs && given.logs[d] == s.logs[d]
  {
    e := s.registry.subs[t];
    published := Take(s, Publish(t)).value;
    assert (s.next, e) in Received(s, t);
    begun := Take(published, Begin(s.next, e)).value;
    given := Take(begun, Deliver(s.next, e, c)).value;
  }

  // A loop is done with an event when all its clients have had their turn, and a client can read what it has.
  lemma FinishesAfterAll(s: State, ev: Event, e: Epoch)
    requires IsMoving(s, ev, e)
    ensures Take(s, Finish(ev, e)).Some? <==> forall c :: !InLine(s, ev, e, c)
  {
    if c :| c in s.copies[(ev, e)].left {
      assert InLine(s, ev, e, c);
    }
  }
}
