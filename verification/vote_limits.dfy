/**
 * Votes decide in all runs exactly for thresholds that are free of order. For the others there
 * is a run in which buffered votes overtake each other and the task delivers where the order of
 * arrival would not.
 */
module VoteLimits {
  import opened Wrappers
  import opened Certificates
  import opened Quorum
  import opened DoubleEcho
  import opened VoteOrder
  import opened TaskManager
  import opened NodeRuns
  import opened VoteRuns
  import V = ValidatorStore

  /** The task has nothing left to take, and its status is that of the votes in order of arrival. */
  ghost predicate Decided(validators: set<ValidatorId>, params: Params, actions: seq<Action>, id: CertificateId) {
    var n := Exec(validators, params, actions);
    id in n.running && (id in n.finished || Drained(n, id)) ==>
      var s := n.running[id].state;
      s.status == StatusInOrder(validators, params, actions, s.certificate, false)
  }

  const ONLY: Certificate := Certificate(1, INITIAL_CERTIFICATE_ID, 0, [])

  ghost function Booted(validators: set<ValidatorId>, params: Params): State {
    Start(ONLY, validators, params, false).(expectedPosition := Some(0))
  }

  /** The task of the only certificate runs in state `st`; `held` is still with its forwarder. */
  ghost predicate Underway(n: Node, st: State, sink: seq<Vote>, held: seq<Vote>) {
    && 1 in n.running && n.running[1] == Task(st, held) && 1 in n.tasks && n.tasks[1] == sink
    && n.finished == map[] && n.store == V.EMPTY_STORE && st.expectedPosition.Some?
  }

  ghost predicate Reached(validators: set<ValidatorId>, params: Params, actions: seq<Action>, st: State,
                          sink: seq<Vote>, held: seq<Vote>, arrived: seq<Vote>) {
    && NoRebroadcast(validators, params, actions, 1) && Arrived(actions, 1) == arrived
    && Underway(Exec(validators, params, actions), st, sink, held)
  }

  /** One more action of a run that broadcasts nothing. */
  lemma {:induction false} Extend(validators: set<ValidatorId>, params: Params, actions: seq<Action>, a: Action)
    requires NoRebroadcast(validators, params, actions, 1)
    requires a.OnBroadcast? ==> !V.IsDelivered(Exec(validators, params, actions).store, a.certificate.id)
    ensures NoRebroadcast(validators, params, actions + [a], 1)
    ensures Exec(validators, params, actions + [a]) == Step(Exec(validators, params, actions), a)
    ensures Arrived(actions + [a], 1) == Arrived(actions, 1) + NewVotes(a, 1)
  {
    ExecSnoc(validators, params, actions, a);
    ArrivedStep(actions, a, 1);
    assert (actions + [a])[..|actions|] == actions;
    hide Exec, Arrived;
  }

  lemma VoteStep(n: Node, st: State, sink: seq<Vote>, held: seq<Vote>, vote: Vote)
    requires Underway(n, st, sink, held)
    ensures Underway(Step(n, OnVote(1, vote)), st, sink + [vote], held)
  {
  }

  lemma PollStep(n: Node, st: State, held: seq<Vote>, vote: Vote)
    requires Underway(n, st, [vote], held) && Apply(st, vote).change != Some(DeliveredWithReadySent)
    ensures Underway(Step(n, Poll(1)), Apply(st, vote).state, [], held)
  {
    ApplyFrame(st, vote);
    hide Apply;
  }

  lemma ForwardStep(n: Node, st: State, vote: Vote)
    requires Underway(n, st, [], [vote])
    ensures Underway(Step(n, Forward(1)), st, [vote], [])
  {
  }

  lemma DeliverStep(n: Node, st: State, vote: Vote)
    requires Underway(n, st, [vote], []) && Apply(st, vote).change == Some(DeliveredWithReadySent)
    ensures var n' := Step(n, Poll(1));
            1 in n'.finished && 1 in n'.running && n'.running[1].state == Apply(st, vote).state
  {
    hide Apply, V.Deliver;
  }

  /** The Echo comes first and is buffered; then the certificate comes and its task boots. */
  lemma Open(validators: set<ValidatorId>, params: Params, x: ValidatorId) returns (actions: seq<Action>)
    ensures Reached(validators, params, actions, Booted(validators, params), [], [Echo(x)], [Echo(x)])
  {
    var a, b := OnVote(1, Echo(x)), OnBroadcast(ONLY, false);
    Extend(validators, params, [], a);
    Extend(validators, params, [] + [a], b);
    Extend(validators, params, [] + [a] + [b], Boot(1));
    actions := [] + [a] + [b] + [Boot(1)];
    var one := Exec(validators, params, [] + [a]);
    BroadcastShape(one, ONLY, false);
    hide DoBroadcast, Arrived, NoRebroadcast;
  }

  /** A vote that arrives now is taken before the one that is still held. */
  lemma Feed(validators: set<ValidatorId>, params: Params, actions: seq<Action>, st: State, held: seq<Vote>,
             arrived: seq<Vote>, vote: Vote)
    returns (more: seq<Action>)
    requires Reached(validators, params, actions, st, [], held, arrived)
    requires Apply(st, vote).change != Some(DeliveredWithReadySent)
    ensures Reached(validators, params, more, Apply(st, vote).state, [], held, arrived + [vote])
  {
    hide Apply, Exec, Arrived, NoRebroadcast, Step, Underway;
    VoteStep(Exec(validators, params, actions), st, [], held, vote);
    assert [] + [vote] == [vote];
    Extend(validators, params, actions, OnVote(1, vote));
    var one := actions + [OnVote(1, vote)];
    PollStep(Exec(validators, params, one), st, held, vote);
    Extend(validators, params, one, Poll(1));
    assert arrived + [vote] + [] == arrived + [vote];
    more := one + [Poll(1)];
  }

  lemma {:induction false} FeedAll(validators: set<ValidatorId>, params: Params, actions: seq<Action>, st: State,
                                   held: seq<Vote>, arrived: seq<Vote>, votes: seq<Vote>)
    returns (more: seq<Action>)
    requires Reached(validators, params, actions, st, [], held, arrived)
    requires ApplyAll(st, votes).status != DeliveredWithReadySent
    ensures Reached(validators, params, more, ApplyAll(st, votes), [], held, arrived + votes)
  {
    if votes == [] {
      more := actions;
      assert arrived + [] == arrived;
    } else {
      var before, last := votes[..|votes| - 1], votes[|votes| - 1];
      assert votes == before + [last];
      ApplyLast(st, before, last);
      DeliveredStays(ApplyAll(st, before), last);
      hide ApplyAll, Apply, Reached;
      more := FeedAll(validators, params, actions, st, held, arrived, before);
      more := Feed(validators, params, more, ApplyAll(st, before), held, arrived + before, last);
      assert arrived + before + [last] == arrived + votes;
    }
  }

  /** A run whose task delivers although its votes, in order of arrival, would leave it in ReadySent. */
  lemma Overtake(validators: set<ValidatorId>, params: Params) returns (actions: seq<Action>)
    requires !OrderFree(|validators|, params)
    ensures NoRebroadcast(validators, params, actions, 1)
    ensures var n := Exec(validators, params, actions);
            && 1 in n.running && 1 in n.finished && n.running[1].state.status == DeliveredWithReadySent
            && n.running[1].state.certificate == ONLY
            && StatusInOrder(validators, params, actions, ONLY, false) == ReadySent
  {
    var start, s := Start(ONLY, validators, params, false), Booted(validators, params);
    StartSound(ONLY, validators, params, false);
    assert IsStart(start, validators) && IsStart(s, validators);
    var senders, v, x, before := Load(s, validators);
    assert Loaded(start, validators, senders, v, x, before);
    EchoFirst(start, validators, senders, v, x, before);
    EchoLast(s, validators, senders, v, x, before);
    NotYet(s, validators, senders, v, x, before, {});
    hide Loaded, ApplyAll, Apply, Exec, NoRebroadcast, Arrived, Step, Underway, Booted, IsStart, OrderFree;
    var run := Open(validators, params, x);
    run := FeedAll(validators, params, run, s, [Echo(x)], [Echo(x)], before);
    var st := ApplyAll(s, before);
    run := Feed(validators, params, run, st, [Echo(x)], [Echo(x)] + before, Ready(v));
    SameCertificate(s, before, v, x);
    actions := Last(validators, params, run, Apply(st, Ready(v)).state, [Echo(x)] + before + [Ready(v)], x);
  }

  /** The vote that was held is forwarded, taken and delivers. */
  lemma Last(validators: set<ValidatorId>, params: Params, run: seq<Action>, st: State, arrived: seq<Vote>,
             x: ValidatorId)
    returns (actions: seq<Action>)
    requires Reached(validators, params, run, st, [], [Echo(x)], arrived)
    requires Apply(st, Echo(x)).change == Some(DeliveredWithReadySent)
    ensures NoRebroadcast(validators, params, actions, 1) && Arrived(actions, 1) == arrived
    ensures var n := Exec(validators, params, actions);
            && 1 in n.running && 1 in n.finished && n.running[1].state == Apply(st, Echo(x)).state
            && n.running[1].state.status == DeliveredWithReadySent
  {
    hide Apply, Exec, NoRebroadcast, Arrived, Step, Underway;
    DeliveredStays(st, Echo(x));
    ForwardStep(Exec(validators, params, run), st, Echo(x));
    Extend(validators, params, run, Forward(1));
    var forwarded := run + [Forward(1)];
    DeliverStep(Exec(validators, params, forwarded), st, Echo(x));
    Extend(validators, params, forwarded, Poll(1));
    actions := forwarded + [Poll(1)];
    assert arrived + [] + [] == arrived;
  }

  lemma {:induction false} SameCertificate(s: State, before: seq<Vote>, v: ValidatorId, x: ValidatorId)
    ensures Apply(Apply(ApplyAll(s, before), Ready(v)).state, Echo(x)).state.certificate == s.certificate
  {
    KeepsCertificate(s, before);
    ApplyFrame(ApplyAll(s, before), Ready(v));
    ApplyFrame(Apply(ApplyAll(s, before), Ready(v)).state, Echo(x));
    hide Apply, ApplyAll;
  }

  lemma {:induction false} KeepsCertificate(s: State, votes: seq<Vote>)
    ensures ApplyAll(s, votes).certificate == s.certificate
  {
    if votes != [] {
      KeepsCertificate(s, votes[..|votes| - 1]);
      ApplyFrame(ApplyAll(s, votes[..|votes| - 1]), votes[|votes| - 1]);
      hide Apply;
    }
  }

  /** Exactly when the order in which queues are emptied has no influence on any task of any run. */
  lemma {:induction false} VotesDecideIff(validators: set<ValidatorId>, params: Params)
    ensures (forall actions, id :: NoRebroadcast(validators, params, actions, id) ==>
               Decided(validators, params, actions, id))
            <==> OrderFree(|validators|, params)
  {
    hide OrderFree;
    if OrderFree(|validators|, params) {
      forall actions, id | NoRebroadcast(validators, params, actions, id)
        ensures Decided(validators, params, actions, id)
      {
        var n := Exec(validators, params, actions);
        hide NoRebroadcast, Exec, StatusInOrder;
        if id in n.running && (id in n.finished || Drained(n, id)) {
          VotesDecide(validators, params, actions, id, false);
        }
      }
    } else {
      var actions := Overtake(validators, params);
      hide NoRebroadcast, Exec, StatusInOrder;
      assert !Decided(validators, params, actions, 1);
    }
  }

  /** For derived thresholds: in all networks but those of two validators. */
  lemma {:induction false} DerivedVotesDecideIff(validators: set<ValidatorId>)
    ensures (forall actions, id :: NoRebroadcast(validators, ParamsFor(|validators|), actions, id) ==>
               Decided(validators, ParamsFor(|validators|), actions, id))
            <==> |validators| != 2
  {
    VotesDecideIff(validators, ParamsFor(|validators|));
    DerivedOrderFree(|validators|);
    hide Decided, NoRebroadcast;
  }
}
