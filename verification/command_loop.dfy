/**
 * The command loop in front of the task manager (double_echo/mod.rs): it drops what concerns
 * certificates it knows to be delivered and learns of deliveries through the completion channel.
 */
module CommandLoop {
  import opened Certificates
  import opened Quorum
  import opened DoubleEcho
  import opened FullNodeStore
  import opened TaskManager
  import opened NodeRuns
  import opened VoteRuns
  import V = ValidatorStore
  import P = NodeProgress

  /** `verified` is the outcome of the signature check. */
  datatype Command =
    | Broadcast(certificate: Certificate, needGossip: bool)
    | OnSignedVote(id: CertificateId, vote: Vote, verified: bool)

  /** `inbox` is the channel to the task manager, `completions` the channel back. */
  datatype Loop = Loop(
    node: Node,
    inbox: seq<Action>,
    completions: seq<CertificateId>,
    delivered: set<CertificateId>,
    open: bool)

  datatype Event =
    | OnCommand(command: Command)
    | OnCompletion
    | HandleMessage
    | Internal(action: Action)

  /** A vote of a stranger or with a bad signature ends the loop. */
  predicate Ends(validators: set<ValidatorId>, command: Command) {
    command.OnSignedVote? && validators != {} && (command.vote.sender !in validators || !command.verified)
  }

  /** What a command puts into the channel to the task manager. */
  function Forwarded(validators: set<ValidatorId>, delivered: set<CertificateId>, command: Command): seq<Action> {
    if validators == {} || Ends(validators, command) then []
    else
      match command
      case Broadcast(c, gossip) => if c.id in delivered then [] else [OnBroadcast(c, gossip)]
      case OnSignedVote(id, vote, _) => if id in delivered then [] else [OnVote(id, vote)]
  }

  /** What the loop itself tells the application. */
  datatype Notice = AlreadyDelivered(id: CertificateId) | Die

  /** The pre-broadcast check never fails, so a broadcast is either passed on or answered by one of these. */
  function Notices(validators: set<ValidatorId>, delivered: set<CertificateId>, command: Command): seq<Notice> {
    match command
    case Broadcast(c, _) =>
      if c.id in delivered then [AlreadyDelivered(c.id)] else if validators == {} then [Die] else []
    case OnSignedVote(_, _, _) => []
  }

  /** The loop object, proved against `Forwarded`, `Notices` and `Ends`. */
  class DoubleEchoLoop {
    const validators: set<ValidatorId>
    var delivered: set<CertificateId>
    var sent: seq<Action>
    var notices: seq<Notice>
    var open: bool

    constructor (validators: set<ValidatorId>)
      ensures this.validators == validators && delivered == {} && sent == [] && notices == [] && open
    {
      this.validators := validators;
      delivered, sent, notices, open := {}, [], [], true;
    }

    method HandleBroadcast(c: Certificate, needGossip: bool)
      modifies this`sent, this`notices
      ensures sent == old(sent) + Forwarded(validators, delivered, Broadcast(c, needGossip))
      ensures notices == old(notices) + Notices(validators, delivered, Broadcast(c, needGossip))
    {
      if c.id in delivered {
        notices := notices + [AlreadyDelivered(c.id)];
        return;
      }
      if validators == {} {
        notices := notices + [Die];
      } else {
        sent := sent + [OnBroadcast(c, needGossip)];
      }
    }

    method HandleVote(id: CertificateId, vote: Vote)
      requires validators != {} && vote.sender in validators
      modifies this`sent
      ensures sent == old(sent) + Forwarded(validators, delivered, OnSignedVote(id, vote, true))
    {
      if id !in delivered {
        sent := sent + [OnVote(id, vote)];
      }
    }

    method Handle(command: Command)
      modifies this`sent, this`notices, this`open
      ensures open == (old(open) && !Ends(validators, command))
      ensures sent == old(sent) + (if old(open) then Forwarded(validators, delivered, command) else [])
      ensures notices == old(notices) + (if old(open) then Notices(validators, delivered, command) else [])
    {
      if !open {
        return;
      }
      match command
      case Broadcast(c, needGossip) =>
        HandleBroadcast(c, needGossip);
      case OnSignedVote(id, vote, verified) =>
        if validators != {} {
          if vote.sender !in validators || !verified {
            open := false;
          } else {
            HandleVote(id, vote);
          }
        }
    }

    method HandleCompletion(id: CertificateId)
      modifies this`delivered
      ensures delivered == old(delivered) + (if open then {id} else {})
    {
      if open {
        delivered := delivered + {id};
      }
    }
  }

  // ----- The loop and the task manager together -----

  function Completion(n: Node, a: Action): seq<CertificateId> {
    if a.Complete? && a.id in n.finished && n.finished[a.id] == Success then [a.id] else []
  }

  /** The task manager performs an action. */
  function Perform(l: Loop, a: Action): Loop {
    l.(node := TaskManager.Step(l.node, a), completions := l.completions + Completion(l.node, a))
  }

  /** The action of the task manager that an event stands for. */
  function Performed(l: Loop, e: Event): seq<Action> {
    match e
    case HandleMessage => if l.inbox == [] then [] else [l.inbox[0]]
    case Internal(a) => if a.OnVote? || a.OnBroadcast? then [] else [a]
    case _ => []
  }

  function Step(l: Loop, e: Event): Loop {
    match e
    case OnCommand(command) =>
      if !l.open then l
      else l.(inbox := l.inbox + Forwarded(l.node.validators, l.delivered, command),
              open := !Ends(l.node.validators, command))
    case OnCompletion =>
      if !l.open || l.completions == [] then l
      else l.(delivered := l.delivered + {l.completions[0]}, completions := l.completions[1..])
    case HandleMessage =>
      if l.inbox == [] then l else Perform(l.(inbox := l.inbox[1..]), l.inbox[0])
    case Internal(a) =>
      if a.OnVote? || a.OnBroadcast? then l else Perform(l, a)
  }

  function Exec(validators: set<ValidatorId>, params: Params, events: seq<Event>): Loop {
    if events == [] then Loop(Init(validators, params), [], [], {}, true)
    else Step(Exec(validators, params, events[..|events| - 1]), events[|events| - 1])
  }

  /** The actions of the task manager in a run of the whole. */
  ghost function Trace(validators: set<ValidatorId>, params: Params, events: seq<Event>): seq<Action> {
    if events == [] then []
    else
      var before := events[..|events| - 1];
      Trace(validators, params, before) + Performed(Exec(validators, params, before), events[|events| - 1])
  }

  lemma StepPerforms(l: Loop, e: Event)
    ensures Step(l, e).node == (if Performed(l, e) == [] then l.node else TaskManager.Step(l.node, Performed(l, e)[0]))
    ensures |Performed(l, e)| <= 1
  {
    hide TaskManager.Step;
  }

  /** A run of the whole is a run of the task manager. */
  lemma {:induction false} RunOfManager(validators: set<ValidatorId>, params: Params, events: seq<Event>)
    ensures Exec(validators, params, events).node ==
            TaskManager.Exec(validators, params, Trace(validators, params, events))
    ensures |Trace(validators, params, events)| <= |events|
  {
    hide TaskManager.Exec, Step, Performed;
    if events == [] {
      EmptyRun(validators, params);
    } else {
      var before, e := events[..|events| - 1], events[|events| - 1];
      RunOfManager(validators, params, before);
      var l, trace := Exec(validators, params, before), Trace(validators, params, before);
      StepPerforms(l, e);
      if Performed(l, e) == [] {
        assert trace + [] == trace;
      } else {
        ExecSnoc(validators, params, trace, Performed(l, e)[0]);
        assert Performed(l, e) == [Performed(l, e)[0]];
      }
    }
  }

  lemma {:induction false} EmptyRun(validators: set<ValidatorId>, params: Params)
    ensures TaskManager.Exec(validators, params, []) == Init(validators, params)
  {
  }

  // ----- The loop ends for good -----

  /** The event is a vote of somebody who is no validator, or with a bad signature. */
  predicate BadVote(validators: set<ValidatorId>, e: Event) {
    && e.OnCommand? && e.command.OnSignedVote?
    && (e.command.vote.sender !in validators || !e.command.verified)
  }

  /** The loop is open exactly as long as no bad vote has come in, or if there are no validators at all. */
  lemma {:induction false} OpenIff(validators: set<ValidatorId>, params: Params, events: seq<Event>)
    ensures Exec(validators, params, events).open <==>
            validators == {} || forall i :: 0 <= i < |events| ==> !BadVote(validators, events[i])
    ensures Exec(validators, params, events).node.validators == validators
  {
    if events != [] {
      var before, e := events[..|events| - 1], events[|events| - 1];
      OpenIff(validators, params, before);
      var l := Exec(validators, params, before);
      StepOpens(l, e);
      hide Step;
      assert events == before + [e];
    }
  }

  lemma StepOpens(l: Loop, e: Event)
    ensures Step(l, e).open == (l.open && (e.OnCommand? ==> !Ends(l.node.validators, e.command)))
    ensures Step(l, e).node.validators == l.node.validators
  {
    match e
    case HandleMessage => if l.inbox != [] { StepKeepsConfig(l.node, l.inbox[0]); }
    case Internal(a) => StepKeepsConfig(l.node, a);
    case _ =>
    hide TaskManager.Step;
  }

  /** Nothing was passed on or learned since: what is left of the channel is its end. */
  ghost predicate Ceased(l: Loop, l': Loop) {
    && !l'.open && l'.delivered == l.delivered
    && |l'.inbox| <= |l.inbox| && l'.inbox == l.inbox[|l.inbox| - |l'.inbox|..]
  }

  /** After a vote of a stranger or with a bad signature nothing is passed on or learned any more. */
  lemma {:induction false} ClosedStays(validators: set<ValidatorId>, params: Params, before: seq<Event>,
                                       after: seq<Event>)
    requires !Exec(validators, params, before).open
    ensures Ceased(Exec(validators, params, before), Exec(validators, params, before + after))
  {
    if after == [] {
      assert before + after == before;
    } else {
      var init, e := after[..|after| - 1], after[|after| - 1];
      ClosedStays(validators, params, before, init);
      assert before + after == before + init + [e];
      ExecNext(validators, params, before + init, e);
      var l, mid := Exec(validators, params, before), Exec(validators, params, before + init);
      hide Exec, Step;
      ClosedStep(mid, e);
    }
  }

  lemma {:induction false} ExecNext(validators: set<ValidatorId>, params: Params, events: seq<Event>, e: Event)
    ensures Exec(validators, params, events + [e]) == Step(Exec(validators, params, events), e)
  {
    assert (events + [e])[..|events|] == events;
    hide Step;
  }

  lemma ClosedStep(l: Loop, e: Event)
    requires !l.open
    ensures var l' := Step(l, e);
            && !l'.open && l'.delivered == l.delivered
            && (l'.inbox == l.inbox || (l.inbox != [] && l'.inbox == l.inbox[1..]))
  {
    hide TaskManager.Step, Completion;
  }

  // ----- Nothing is dropped but what is delivered -----

  /** What the loop knows, or will learn from the completion channel, is delivered. */
  ghost predicate Truthful(l: Loop) {
    forall id :: id in l.delivered || id in l.completions ==> V.IsDelivered(l.node.store, id)
  }

  lemma PerformTruthful(l: Loop, a: Action)
    requires Truthful(l) && FinishedSound(l.node)
    ensures Truthful(Perform(l, a))
  {
    StepDelivered(l.node, a);
    hide TaskManager.Step, Written, LogIds;
  }

  lemma StepTruthful(l: Loop, e: Event)
    requires Truthful(l) && FinishedSound(l.node)
    ensures Truthful(Step(l, e))
  {
    hide Perform, FinishedSound;
    match e
    case HandleMessage =>
      if l.inbox != [] {
        PerformTruthful(l.(inbox := l.inbox[1..]), l.inbox[0]);
      }
    case Internal(a) =>
      PerformTruthful(l, a);
    case _ =>
  }

  lemma {:induction false} EveryLoopRun(validators: set<ValidatorId>, params: Params, events: seq<Event>)
    ensures Truthful(Exec(validators, params, events)) && TasksSound(Exec(validators, params, events).node)
  {
    RunOfManager(validators, params, events);
    EveryRun(validators, params, Trace(validators, params, events));
    if events != [] {
      EveryLoopRun(validators, params, events[..|events| - 1]);
      hide TaskManager.Exec, Trace, Step, Truthful, TasksSound, RunInv;
      StepTruthful(Exec(validators, params, events[..|events| - 1]), events[|events| - 1]);
    }
  }

  function Subject(command: Command): CertificateId {
    match command
    case Broadcast(c, _) => c.id
    case OnSignedVote(id, _, _) => id
  }

  function Message(command: Command): Action {
    match command
    case Broadcast(c, gossip) => OnBroadcast(c, gossip)
    case OnSignedVote(id, vote, _) => OnVote(id, vote)
  }

  /** In every run the filter drops a command only if its certificate is delivered. */
  lemma {:induction false} DropsOnlyDelivered(validators: set<ValidatorId>, params: Params, events: seq<Event>,
                                              command: Command)
    requires validators != {} && !Ends(validators, command)
    ensures var l := Exec(validators, params, events);
            || V.IsDelivered(l.node.store, Subject(command))
            || Forwarded(validators, l.delivered, command) == [Message(command)]
  {
    EveryLoopRun(validators, params, events);
    hide Exec, TasksSound;
  }

  /** The command was taken by an open loop. */
  ghost predicate Given(validators: set<ValidatorId>, params: Params, events: seq<Event>, command: Command) {
    exists i :: 0 <= i < |events| && events[i] == OnCommand(command) && Exec(validators, params, events[..i]).open
  }

  /** The message is still in the channel or was handled. */
  ghost predicate PassedOn(l: Loop, trace: seq<Action>, message: Action) {
    message in l.inbox || message in trace
  }

  lemma StepPasses(l: Loop, trace: seq<Action>, e: Event, message: Action)
    requires PassedOn(l, trace, message)
    ensures PassedOn(Step(l, e), trace + Performed(l, e), message)
  {
    hide TaskManager.Step, Completion;
    if message in l.inbox && e.HandleMessage? {
      assert l.inbox == [l.inbox[0]] + l.inbox[1..];
    }
  }

  lemma {:induction false} DeliveredNow(l: Loop, e: Event, id: CertificateId)
    requires V.IsDelivered(l.node.store, id)
    ensures V.IsDelivered(Step(l, e).node.store, id)
  {
    StepPerforms(l, e);
    if Performed(l, e) != [] {
      StepDelivered(l.node, Performed(l, e)[0]);
    }
    hide Step, TaskManager.Step, Performed, Written;
  }

  lemma {:induction false} GivenArrives(validators: set<ValidatorId>, params: Params, events: seq<Event>,
                                        command: Command)
    requires validators != {} && !Ends(validators, command) && Given(validators, params, events, command)
    ensures var l := Exec(validators, params, events);
            || V.IsDelivered(l.node.store, Subject(command))
            || PassedOn(l, Trace(validators, params, events), Message(command))
  {
    var before, e := events[..|events| - 1], events[|events| - 1];
    var l, trace := Exec(validators, params, before), Trace(validators, params, before);
    OpenIff(validators, params, before);
    var i :| 0 <= i < |events| && events[i] == OnCommand(command) && Exec(validators, params, events[..i]).open;
    if i == |events| - 1 {
      DropsOnlyDelivered(validators, params, before, command);
      if V.IsDelivered(l.node.store, Subject(command)) {
        DeliveredNow(l, e, Subject(command));
      }
      hide Exec;
    } else {
      assert before[..i] == events[..i] && before[i] == events[i];
      GivenArrives(validators, params, before, command);
      hide Step, Performed, PassedOn, Ends, Given;
      if V.IsDelivered(l.node.store, Subject(command)) {
        DeliveredNow(l, e, Subject(command));
      } else {
        StepPasses(l, trace, e, Message(command));
      }
    }
  }

  /**
   * In every run whose channel to the task manager has been emptied: a vote that an open loop took
   * has arrived at the task manager, or its certificate is delivered.
   */
  lemma {:induction false} VoteArrives(validators: set<ValidatorId>, params: Params, events: seq<Event>,
                                       id: CertificateId, vote: Vote)
    requires vote.sender in validators && Exec(validators, params, events).inbox == []
    requires Given(validators, params, events, OnSignedVote(id, vote, true))
    ensures || V.IsDelivered(Exec(validators, params, events).node.store, id)
            || vote in Arrived(Trace(validators, params, events), id)
  {
    GivenArrives(validators, params, events, OnSignedVote(id, vote, true));
    hide Exec, Given, Trace;
    if OnVote(id, vote) in Trace(validators, params, events) {
      InArrived(Trace(validators, params, events), id, vote);
    }
  }

  lemma {:induction false} InArrived(actions: seq<Action>, id: CertificateId, vote: Vote)
    requires OnVote(id, vote) in actions
    ensures vote in Arrived(actions, id)
  {
    var before := actions[..|actions| - 1];
    if OnVote(id, vote) in before {
      InArrived(before, id, vote);
    }
  }

  /** ... and a certificate that an open loop took was handed over, or is delivered. */
  lemma {:induction false} BroadcastArrives(validators: set<ValidatorId>, params: Params, events: seq<Event>,
                                            c: Certificate, gossip: bool)
    requires validators != {} && Exec(validators, params, events).inbox == []
    requires Given(validators, params, events, Broadcast(c, gossip))
    ensures || V.IsDelivered(Exec(validators, params, events).node.store, c.id)
            || P.Handed(Trace(validators, params, events), c)
  {
    GivenArrives(validators, params, events, Broadcast(c, gossip));
  }

  // ----- Nothing arrives but what was commanded -----

  /** The message stands for a command that was given, a vote only if it is a validator's and verified. */
  ghost predicate Commissioned(validators: set<ValidatorId>, events: seq<Event>, message: Action) {
    match message
    case OnBroadcast(c, gossip) => OnCommand(Broadcast(c, gossip)) in events
    case OnVote(id, vote) => vote.sender in validators && OnCommand(OnSignedVote(id, vote, true)) in events
    case _ => false
  }

  lemma CommissionedLater(validators: set<ValidatorId>, events: seq<Event>, e: Event, message: Action)
    requires Commissioned(validators, events, message)
    ensures Commissioned(validators, events + [e], message)
  {
  }

  lemma ForwardedCommissioned(validators: set<ValidatorId>, delivered: set<CertificateId>, events: seq<Event>,
                              command: Command, message: Action)
    requires message in Forwarded(validators, delivered, command)
    ensures Commissioned(validators, events + [OnCommand(command)], message)
  {
  }

  ghost predicate FromCommands(validators: set<ValidatorId>, events: seq<Event>, messages: seq<Action>) {
    forall i :: 0 <= i < |messages| ==> Commissioned(validators, events, messages[i])
  }

  lemma StepFromCommands(validators: set<ValidatorId>, l: Loop, events: seq<Event>, e: Event)
    requires l.node.validators == validators && FromCommands(validators, events, l.inbox)
    ensures FromCommands(validators, events + [e], Step(l, e).inbox)
  {
    hide Commissioned, TaskManager.Step, Completion;
    var l' := Step(l, e);
    forall i | 0 <= i < |l'.inbox|
      ensures Commissioned(validators, events + [e], l'.inbox[i])
    {
      if e.OnCommand? && i >= |l.inbox| {
        ForwardedCommissioned(validators, l.delivered, events, e.command, l'.inbox[i]);
      } else {
        CommissionedLater(validators, events, e, l'.inbox[i]);
      }
    }
  }

  /**
   * In every run, whatever the task manager is handed was commanded: certificates as they came, and only
   * votes of validators whose signature was verified.
   */
  lemma {:induction false} OnlyCommanded(validators: set<ValidatorId>, params: Params, events: seq<Event>)
    ensures FromCommands(validators, events, Exec(validators, params, events).inbox)
    ensures forall a :: a in Trace(validators, params, events) && (a.OnVote? || a.OnBroadcast?) ==>
              Commissioned(validators, events, a)
  {
    if events != [] {
      var before, e := events[..|events| - 1], events[|events| - 1];
      OnlyCommanded(validators, params, before);
      OpenIff(validators, params, before);
      assert events == before + [e];
      var l, trace := Exec(validators, params, before), Trace(validators, params, before);
      StepFromCommands(validators, l, before, e);
      hide Commissioned, Step;
      forall a | a in trace + Performed(l, e) && (a.OnVote? || a.OnBroadcast?)
        ensures Commissioned(validators, events, a)
      {
        if a in Performed(l, e) {
          assert a == l.inbox[0];
        }
        CommissionedLater(validators, before, e, a);
      }
    }
  }

  // ----- Learning of deliveries -----

  function Announces(l: Loop, e: Event): seq<CertificateId> {
    match e
    case HandleMessage => if l.inbox == [] then [] else Completion(l.node, l.inbox[0])
    case Internal(a) => if a.OnVote? || a.OnBroadcast? then [] else Completion(l.node, a)
    case _ => []
  }

  /** The certificates whose successful completion the task manager has announced, in order. */
  ghost function Announced(validators: set<ValidatorId>, params: Params, events: seq<Event>): seq<CertificateId> {
    if events == [] then []
    else
      var before := events[..|events| - 1];
      Announced(validators, params, before) + Announces(Exec(validators, params, before), events[|events| - 1])
  }

  /** The loop has learned a first part of the announcements; the rest is in the channel, in order. */
  ghost predicate LearnedFirst(l: Loop, announced: seq<CertificateId>) {
    && |l.completions| <= |announced|
    && var k := |announced| - |l.completions|;
       l.completions == announced[k..] && forall id :: id in l.delivered <==> id in announced[..k]
  }

  lemma StepLearns(l: Loop, announced: seq<CertificateId>, e: Event)
    requires LearnedFirst(l, announced)
    ensures LearnedFirst(Step(l, e), announced + Announces(l, e))
    ensures l.open && e.OnCompletion? && l.completions != [] ==> l.completions[0] in Step(l, e).delivered
  {
    hide TaskManager.Step, Completion;
    var k := |announced| - |l.completions|;
    var all := announced + Announces(l, e);
    if e.OnCompletion? && l.open && l.completions != [] {
      assert all == announced && announced[..k + 1] == announced[..k] + [l.completions[0]];
      assert l.completions[1..] == announced[k + 1..];
    } else {
      assert all[..k] == announced[..k] && all[k..] == l.completions + Announces(l, e);
    }
  }

  /** In every run the loop learns of the deliveries in the order in which they were announced. */
  lemma {:induction false} LearnsInOrder(validators: set<ValidatorId>, params: Params, events: seq<Event>)
    ensures LearnedFirst(Exec(validators, params, events), Announced(validators, params, events))
  {
    if events != [] {
      var before, e := events[..|events| - 1], events[|events| - 1];
      LearnsInOrder(validators, params, before);
      hide Step, Announces, LearnedFirst;
      StepLearns(Exec(validators, params, before), Announced(validators, params, before), e);
    }
  }

  // ----- What the application is told -----

  /** Everything the loop has told the application, in order. */
  ghost function Told(validators: set<ValidatorId>, params: Params, events: seq<Event>): seq<Notice> {
    if events == [] then []
    else
      var before, e := events[..|events| - 1], events[|events| - 1];
      var l := Exec(validators, params, before);
      Told(validators, params, before) +
      (if e.OnCommand? && l.open then Notices(l.node.validators, l.delivered, e.command) else [])
  }

  /**
   * A certificate that an open loop takes is answered or passed on, exactly one of the two: known to be
   * delivered, the application is told so; without validators it is told to die; else it goes to the
   * end of the channel.
   */
  lemma {:induction false} BroadcastOutcome(validators: set<ValidatorId>, params: Params, events: seq<Event>,
                                            c: Certificate, gossip: bool)
    requires Exec(validators, params, events).open
    ensures var l, all := Exec(validators, params, events), events + [OnCommand(Broadcast(c, gossip))];
            var l', told, told' := Exec(validators, params, all), Told(validators, params, events),
                                   Told(validators, params, all);
            l' == l.(inbox := l'.inbox)
            && if c.id in l.delivered then l'.inbox == l.inbox && told' == told + [AlreadyDelivered(c.id)]
               else if validators == {} then l'.inbox == l.inbox && told' == told + [Die]
               else l'.inbox == l.inbox + [OnBroadcast(c, gossip)] && told' == told
  {
    var e := OnCommand(Broadcast(c, gossip));
    assert (events + [e])[..|events|] == events;
    OpenIff(validators, params, events);
    var l := Exec(validators, params, events);
    assert l.inbox + [] == l.inbox;
    assert Told(validators, params, events) + [] == Told(validators, params, events);
    hide Exec;
  }

  /** A vote is never answered; it is passed on exactly if it is good and its certificate not known to be delivered. */
  lemma {:induction false} VoteOutcome(validators: set<ValidatorId>, params: Params, events: seq<Event>,
                                       id: CertificateId, vote: Vote, verified: bool)
    requires Exec(validators, params, events).open && validators != {}
    ensures var l, all := Exec(validators, params, events), events + [OnCommand(OnSignedVote(id, vote, verified))];
            var l' := Exec(validators, params, all);
            && Told(validators, params, all) == Told(validators, params, events)
            && (l'.open <==> vote.sender in validators && verified)
            && l'.inbox == l.inbox + (if vote.sender in validators && verified && id !in l.delivered
                                      then [OnVote(id, vote)] else [])
            && l' == l.(inbox := l'.inbox, open := l'.open)
  {
    var e := OnCommand(OnSignedVote(id, vote, verified));
    assert (events + [e])[..|events|] == events;
    OpenIff(validators, params, events);
    assert Told(validators, params, events) + [] == Told(validators, params, events);
    hide Exec;
  }

  /** Without validators nothing is ever started. */
  ghost predicate Dormant(l: Loop) {
    && l.open && l.inbox == [] && l.completions == [] && l.delivered == {} && l.node.validators == {}
    && l.node.tasks == map[] && l.node.running == map[] && l.node.finished == map[]
  }

  lemma StepDormant(l: Loop, e: Event)
    requires Dormant(l)
    ensures Dormant(Step(l, e))
  {
    if e.Internal? {
      StepKeepsConfig(l.node, e.action);
    }
  }

  lemma {:induction false} AlwaysDormant(params: Params, events: seq<Event>)
    ensures Dormant(Exec({}, params, events))
  {
    if events != [] {
      AlwaysDormant(params, events[..|events| - 1]);
      hide Step, Dormant;
      StepDormant(Exec({}, params, events[..|events| - 1]), events[|events| - 1]);
    }
  }

  ghost predicate Submits(e: Event) {
    e.OnCommand? && e.command.Broadcast?
  }

  /** In every run the application is told to die exactly if there are no validators and a certificate came in. */
  lemma {:induction false} DieIff(validators: set<ValidatorId>, params: Params, events: seq<Event>)
    ensures Die in Told(validators, params, events) <==>
            validators == {} && exists i :: 0 <= i < |events| && Submits(events[i])
  {
    if events != [] {
      var before, e := events[..|events| - 1], events[|events| - 1];
      DieIff(validators, params, before);
      OpenIff(validators, params, before);
      if validators == {} {
        AlwaysDormant(params, before);
      }
      assert events == before + [e];
      hide Exec;
      assert forall i :: 0 <= i < |before| ==> before[i] == events[i];
      if Submits(e) {
        assert Submits(events[|before|]);
      }
    }
  }

  /** The event is a certificate that an open loop knows to be delivered. */
  ghost predicate KnownThen(validators: set<ValidatorId>, params: Params, events: seq<Event>, i: nat, id: CertificateId)
    requires i < |events|
  {
    && Submits(events[i]) && events[i].command.certificate.id == id
    && var l := Exec(validators, params, events[..i]); l.open && id in l.delivered
  }

  /** ... and that a certificate is delivered exactly if it came in while that was known; it is delivered then. */
  lemma {:induction false} AlreadyDeliveredIff(validators: set<ValidatorId>, params: Params, events: seq<Event>,
                                               id: CertificateId)
    ensures AlreadyDelivered(id) in Told(validators, params, events) <==>
            exists i :: 0 <= i < |events| && KnownThen(validators, params, events, i, id)
    ensures AlreadyDelivered(id) in Told(validators, params, events) ==>
              V.IsDelivered(Exec(validators, params, events).node.store, id)
  {
    if events != [] {
      var before, e := events[..|events| - 1], events[|events| - 1];
      var l := Exec(validators, params, before);
      AlreadyDeliveredIff(validators, params, before, id);
      EveryLoopRun(validators, params, before);
      if V.IsDelivered(l.node.store, id) {
        DeliveredNow(l, e, id);
      }
      hide Step, Exec;
      forall i | 0 <= i < |before|
        ensures KnownThen(validators, params, events, i, id) <==> KnownThen(validators, params, before, i, id)
      {
        assert before[..i] == events[..i] && before[i] == events[i];
      }
      assert KnownThen(validators, params, events, |before|, id) <==>
             Submits(e) && e.command.certificate.id == id && l.open && id in l.delivered;
    }
  }
}
