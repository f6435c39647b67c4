/**
 * The task manager of one validator and the tasks it polls (task_manager_futures). Every
 * scheduling choice of the select loop, the task futures and the spawned forwarders is an
 * action; a run is a sequence of actions, and an action that is not possible does nothing.
 */
module TaskManager {
  import opened Wrappers
  import opened Certificates
  import opened Quorum
  import opened DoubleEcho
  import opened FullNodeStore
  import V = ValidatorStore

  /** A task with the buffered votes that a spawned forwarder still has to send to its sink. */
  datatype Task = Task(state: State, forwarding: seq<Vote>) {
    function Id(): CertificateId { state.certificate.id }
  }

  datatype TaskStatus = Success | Failure

  /**
   * `tasks` maps a certificate id to the votes queued in the sink of its task context;
   * `finished` holds the results of running tasks that the select loop has not seen yet.
   */
  datatype Node = Node(
    validators: set<ValidatorId>,
    params: Params,
    tasks: map<CertificateId, seq<Vote>>,
    buffered: map<CertificateId, seq<Vote>>,
    precedence: map<CertificateId, Task>,
    running: map<CertificateId, Task>,
    finished: map<CertificateId, TaskStatus>,
    store: V.Store)

  datatype Action =
    | OnVote(id: CertificateId, vote: Vote)
    | OnBroadcast(certificate: Certificate, needGossip: bool)
    | Forward(id: CertificateId)
    | Boot(id: CertificateId)
    | Poll(id: CertificateId)
    | Complete(id: CertificateId)
    | Submit(certificate: Certificate)

  function Init(validators: set<ValidatorId>, params: Params): Node {
    Node(validators, params, map[], map[], map[], map[], map[], V.EMPTY_STORE)
  }

  function Buffer(n: Node, id: CertificateId): seq<Vote> {
    if id in n.buffered then n.buffered[id] else []
  }

  function DoVote(n: Node, id: CertificateId, vote: Vote): Node {
    if id in n.tasks
    then n.(tasks := n.tasks[id := n.tasks[id] + [vote]])
    else n.(buffered := n.buffered[id := Buffer(n, id) + [vote]])
  }

  /** `start_task`: the task runs and its buffered votes are handed to a forwarder. */
  function StartTask(n: Node, task: Task): Node {
    var id := task.Id();
    n.(running := n.running[id := task.(forwarding := Buffer(n, id))], buffered := n.buffered - {id})
  }

  function NewTask(n: Node, c: Certificate, needGossip: bool): Task {
    Task(Start(c, n.validators, n.params, needGossip), [])
  }

  function DoBroadcast(n: Node, c: Certificate, needGossip: bool): Node {
    if c.id in n.tasks then n
    else
      var task := NewTask(n, c, needGossip);
      var started := if V.PrevDelivered(n.store, c) then StartTask(n, task)
                     else n.(precedence := n.precedence[c.prevId := task]);
      started.(tasks := n.tasks[c.id := []])
  }

  predicate CanForward(n: Node, id: CertificateId) {
    id in n.running && id in n.tasks && n.running[id].forwarding != []
  }

  function DoForward(n: Node, id: CertificateId): Node {
    if !CanForward(n, id) then n
    else
      var task := n.running[id];
      n.(running := n.running[id := task.(forwarding := task.forwarding[1..])],
         tasks := n.tasks[id := n.tasks[id] + [task.forwarding[0]]])
  }

  /** Position after the last delivered one of the subnet, as a starting task reads it. */
  function NextPosition(n: Node, subnet: SubnetId): Option<nat> {
    match LastByIndex(n.store.tables, Source(subnet))
    case None => Some(0)
    case Some(p) => Increment(p)
  }

  predicate CanBoot(n: Node, id: CertificateId) {
    && id in n.running && n.running[id].state.expectedPosition.None?
    && NextPosition(n, n.running[id].state.certificate.source).Some?
  }

  /** The starting task panics: the last 64-bit position cannot be incremented. */
  predicate CannotBoot(n: Node, id: CertificateId) {
    && id in n.running && n.running[id].state.expectedPosition.None?
    && NextPosition(n, n.running[id].state.certificate.source).None?
  }

  function DoBoot(n: Node, id: CertificateId): Node {
    if !CanBoot(n, id) then n
    else
      var state := n.running[id].state;
      var booted := state.(expectedPosition := NextPosition(n, state.certificate.source));
      n.(running := n.running[id := n.running[id].(state := booted)])
  }

  /** `into_delivered`. */
  function IntoDelivered(s: State): CertificateDelivered
    requires s.expectedPosition.Some?
  {
    CertificateDelivered(
      s.certificate,
      ProofOfDelivery(s.certificate.id, SourcePosition(s.certificate.source, s.expectedPosition.value),
                      s.readies, s.params.delivery))
  }

  predicate CanPoll(n: Node, id: CertificateId) {
    && id in n.running && id !in n.finished && n.running[id].state.expectedPosition.Some?
    && id in n.tasks && n.tasks[id] != []
  }

  /** The running task after it has applied the next vote of its sink. */
  function Polled(n: Node, id: CertificateId): Updated
    requires CanPoll(n, id)
  {
    Apply(n.running[id].state, n.tasks[id][0])
  }

  predicate Persists(n: Node, id: CertificateId) {
    CanPoll(n, id) && Polled(n, id).change == Some(DeliveredWithReadySent)
  }

  lemma PolledKeepsPosition(n: Node, id: CertificateId)
    requires CanPoll(n, id)
    ensures Polled(n, id).state.expectedPosition == n.running[id].state.expectedPosition
    ensures Polled(n, id).state.certificate == n.running[id].state.certificate
    ensures Polled(n, id).state.params == n.running[id].state.params
  {
    ApplyFrame(n.running[id].state, n.tasks[id][0]);
  }

  /** What the task hands to the store when the applied vote completes the delivery. */
  function Delivering(n: Node, id: CertificateId): CertificateDelivered
    requires CanPoll(n, id)
  {
    PolledKeepsPosition(n, id);
    IntoDelivered(Polled(n, id).state)
  }

  /** What a task that has delivered sends to the clients of the validator. */
  datatype DeliveredWithPositions = DeliveredWithPositions(
    delivered: CertificateDelivered,
    positions: CertificatePositions)

  function Sent(n: Node, id: CertificateId): seq<DeliveredWithPositions> {
    if !Persists(n, id) then []
    else
      match V.Deliver(n.store, Delivering(n, id)).result
      case Ok(positions) => [DeliveredWithPositions(Delivering(n, id), positions)]
      case Err(_) => []
  }

  function ApplyNext(n: Node, id: CertificateId): Node
    requires CanPoll(n, id)
  {
    n.(tasks := n.tasks[id := n.tasks[id][1..]],
       running := n.running[id := n.running[id].(state := Polled(n, id).state)])
  }

  function DoPoll(n: Node, id: CertificateId): Node {
    if !CanPoll(n, id) then n
    else if !Persists(n, id) then ApplyNext(n, id)
    else
      var delivery := V.Deliver(n.store, Delivering(n, id));
      ApplyNext(n, id).(
        store := delivery.store,
        finished := n.finished[id := if delivery.result.Ok? then Success else Failure])
  }

  /** The completed task leaves; on success the successor waiting for it is started. */
  function DoComplete(n: Node, id: CertificateId): Node {
    if id !in n.finished then n
    else
      var left := n.(running := n.running - {id}, finished := n.finished - {id});
      if n.finished[id] == Failure then left
      else
        var done := left.(tasks := n.tasks - {id});
        if id !in done.precedence then done
        else
          var task, next := done.precedence[id], done.(precedence := done.precedence - {id});
          if task.Id() in next.tasks then StartTask(next, task) else next
  }

  function Step(n: Node, a: Action): Node {
    match a
    case OnVote(id, vote) => DoVote(n, id, vote)
    case OnBroadcast(c, gossip) => DoBroadcast(n, c, gossip)
    case Forward(id) => DoForward(n, id)
    case Boot(id) => DoBoot(n, id)
    case Poll(id) => DoPoll(n, id)
    case Complete(id) => DoComplete(n, id)
    case Submit(c) => n.(store := V.InsertPending(n.store, c).store)
  }

  /** The state of a validator after a run. */
  function Exec(validators: set<ValidatorId>, params: Params, actions: seq<Action>): Node {
    if actions == [] then Init(validators, params)
    else Step(Exec(validators, params, actions[..|actions| - 1]), actions[|actions| - 1])
  }

  /** The manager object of the select loop, proved against the actions above. */
  class Manager {
    const validators: set<ValidatorId>
    const params: Params
    const store: V.ValidatorStore
    var tasks: map<CertificateId, seq<Vote>>
    var buffered: map<CertificateId, seq<Vote>>
    var precedence: map<CertificateId, Task>
    var running: map<CertificateId, Task>
    var finished: map<CertificateId, TaskStatus>

    function View(): Node
      reads this, store, store.fullnode
    {
      Node(validators, params, tasks, buffered, precedence, running, finished, store.View())
    }

    /** The manager works on a store that may already hold deliveries and pending certificates. */
    constructor (validators: set<ValidatorId>, params: Params, store: V.ValidatorStore)
      ensures this.store == store && View() == Init(validators, params).(store := store.View())
    {
      this.validators, this.params, this.store := validators, params, store;
      tasks, buffered, precedence, running, finished := map[], map[], map[], map[], map[];
    }

    method HandleVote(id: CertificateId, vote: Vote)
      modifies this
      ensures View() == DoVote(old(View()), id, vote)
    {
      if id in tasks {
        tasks := tasks[id := tasks[id] + [vote]];
      } else {
        if id !in buffered {
          buffered := buffered[id := []];
        }
        buffered := buffered[id := buffered[id] + [vote]];
      }
    }

    method HandleBroadcast(c: Certificate, needGossip: bool)
      modifies this
      ensures View() == DoBroadcast(old(View()), c, needGossip)
    {
      if c.id in tasks {
        return;
      }
      var state := new BroadcastState(c, validators, params, needGossip);
      var task := Task(state.View(), []);
      if c.prevId in store.fullnode.tables.certificates || c.prevId == INITIAL_CERTIFICATE_ID {
        Start(task);
      } else {
        precedence := precedence[c.prevId := task];
      }
      tasks := tasks[c.id := []];
    }

    method Start(task: Task)
      modifies this`running, this`buffered
      ensures View() == StartTask(old(View()), task)
    {
      var messages := if task.Id() in buffered then buffered[task.Id()] else [];
      buffered := buffered - {task.Id()};
      running := running[task.Id() := task.(forwarding := messages)];
    }

    method ForwardOne(id: CertificateId)
      modifies this
      ensures View() == DoForward(old(View()), id)
    {
      if id in running && id in tasks && running[id].forwarding != [] {
        var task := running[id];
        tasks := tasks[id := tasks[id] + [task.forwarding[0]]];
        running := running[id := task.(forwarding := task.forwarding[1..])];
      }
    }

    method BootTask(id: CertificateId) returns (panics: bool)
      modifies this
      ensures View() == DoBoot(old(View()), id) && panics == CannotBoot(old(View()), id)
    {
      panics := false;
      if id in running && running[id].state.expectedPosition.None? {
        var state := running[id].state;
        var heads := store.fullnode.tables.sourceList;
        var expected := if state.certificate.source in heads
                        then Increment(heads[state.certificate.source].position) else Some(0);
        panics := expected.None?;
        if expected.Some? {
          running := running[id := running[id].(state := state.(expectedPosition := expected))];
        }
      }
    }

    method PollTask(id: CertificateId) returns (sent: seq<DeliveredWithPositions>)
      modifies this, store, store.fullnode
      ensures View() == DoPoll(old(View()), id) && sent == Sent(old(View()), id)
    {
      sent := [];
      if id !in running || id in finished || running[id].state.expectedPosition.None? {
        return;
      }
      if id !in tasks || tasks[id] == [] {
        return;
      }
      PolledKeepsPosition(View(), id);
      var vote := tasks[id][0];
      tasks := tasks[id := tasks[id][1..]];
      var updated := Apply(running[id].state, vote);
      running := running[id := running[id].(state := updated.state)];
      if updated.change == Some(DeliveredWithReadySent) {
        var persisted := store.InsertCertificateDelivered(IntoDelivered(updated.state));
        if persisted.Ok? {
          sent := [DeliveredWithPositions(IntoDelivered(updated.state), persisted.value)];
        }
        finished := finished[id := if persisted.Ok? then Success else Failure];
      }
    }

    method HandleCompletion(id: CertificateId)
      modifies this
      ensures View() == DoComplete(old(View()), id)
    {
      if id !in finished {
        return;
      }
      var status := finished[id];
      running := running - {id};
      finished := finished - {id};
      if status == Success {
        tasks := tasks - {id};
        if id in precedence {
          var task := precedence[id];
          precedence := precedence - {id};
          if task.Id() in tasks {
            Start(task);
          }
        }
      }
    }
  }
}
