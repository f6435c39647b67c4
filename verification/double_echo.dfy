/** The per-certificate broadcast state (double_echo/broadcast_state.rs and its status). */
module DoubleEcho {
  import opened Wrappers
  import opened Certificates
  import opened Quorum

  datatype Status = Pending | EchoSent | ReadySent | DeliveredWithReadySent | Delivered {
    predicate IsReadySent() {
      ReadySent? || DeliveredWithReadySent?
    }

    predicate IsDelivered() {
      Delivered? || DeliveredWithReadySent?
    }

    function ToReadySent(): Status {
      match this
      case EchoSent => ReadySent
      case Delivered => DeliveredWithReadySent
      case _ => this
    }

    function ToDelivered(): Status {
      match this
      case ReadySent => DeliveredWithReadySent
      case _ => Delivered
    }
  }

  /** Protocol events a broadcast state emits. */
  datatype Event = BroadcastStarted | Gossip | EchoEvent | ReadyEvent

  datatype Vote = Echo(sender: ValidatorId) | Ready(sender: ValidatorId)

  /** The fields of `BroadcastState`; `events` is what was put on the event channel. */
  datatype State = State(
    certificate: Certificate,
    echo: set<ValidatorId>,
    ready: set<ValidatorId>,
    networkSize: nat,
    params: Params,
    status: Status,
    readies: set<ValidatorId>,
    expectedPosition: Option<nat>,
    events: seq<Event>)

  /** A state together with the status change the update reported. */
  datatype Updated = Updated(state: State, change: Option<Status>)

  predicate ReachedReadyThreshold(s: State) {
    || (s.networkSize >= |s.echo| && s.networkSize - |s.echo| >= s.params.echo)
    || (s.networkSize >= |s.ready| && s.networkSize - |s.ready| >= s.params.ready)
  }

  predicate ReachedDeliveryThreshold(s: State) {
    s.networkSize >= |s.ready| && s.networkSize - |s.ready| >= s.params.delivery
  }

  /** `update_status`: at most one transition per call, Ready before delivery. */
  function UpdateStatus(s: State): Updated {
    if s.status.Pending? then
      Updated(s.(status := EchoSent, events := s.events + [EchoEvent]), Some(EchoSent))
    else if !s.status.IsReadySent() && ReachedReadyThreshold(s) then
      var status := s.status.ToReadySent();
      Updated(s.(status := status, events := s.events + [ReadyEvent]), Some(status))
    else if !s.status.IsDelivered() && ReachedDeliveryThreshold(s) then
      var status := s.status.ToDelivered();
      Updated(s.(status := status), Some(status))
    else
      Updated(s, None)
  }

  function Announcement(needGossip: bool): seq<Event> {
    if needGossip then [BroadcastStarted, Gossip] else [BroadcastStarted]
  }

  /** `BroadcastState::new` over the subscription view of `DoubleEcho::new`: the Echo is out. */
  function Start(certificate: Certificate, validators: set<ValidatorId>, params: Params, needGossip: bool): State {
    State(certificate, validators, validators, |validators|, params, EchoSent, {}, None,
          Announcement(needGossip) + [EchoEvent])
  }

  function Apply(s: State, vote: Vote): Updated {
    match vote
    case Echo(v) =>
      if v in s.echo then UpdateStatus(s.(echo := s.echo - {v})) else Updated(s, None)
    case Ready(v) =>
      if v in s.ready
      then UpdateStatus(s.(ready := s.ready - {v}, readies := s.readies + {v}))
      else Updated(s, None)
  }

  function ApplyAll(s: State, votes: seq<Vote>): State {
    if votes == [] then s
    else Apply(ApplyAll(s, votes[..|votes| - 1]), votes[|votes| - 1]).state
  }

  lemma {:induction false} ApplyLast(s: State, votes: seq<Vote>, last: Vote)
    ensures ApplyAll(s, votes + [last]) == Apply(ApplyAll(s, votes), last).state
  {
    assert (votes + [last])[..|votes|] == votes;
    hide Apply;
  }

  /** The object the tasks mutate, proved against `Apply` and `UpdateStatus`. */
  class BroadcastState {
    const certificate: Certificate
    const networkSize: nat
    const params: Params
    var echo: set<ValidatorId>
    var ready: set<ValidatorId>
    var status: Status
    var readies: set<ValidatorId>
    var expectedPosition: Option<nat>
    var events: seq<Event>

    function View(): State
      reads this
    {
      State(certificate, echo, ready, networkSize, params, status, readies, expectedPosition, events)
    }

    constructor (certificate: Certificate, validators: set<ValidatorId>, params: Params, needGossip: bool)
      ensures View() == Start(certificate, validators, params, needGossip)
    {
      this.certificate := certificate;
      this.networkSize := |validators|;
      this.params := params;
      echo, ready := validators, validators;
      status := Pending;
      readies := {};
      expectedPosition := None;
      events := [BroadcastStarted];
      new;
      if needGossip {
        events := events + [Gossip];
      }
      var _ := Update();
    }

    method ApplyEcho(v: ValidatorId) returns (change: Option<Status>)
      modifies this
      ensures Updated(View(), change) == Apply(old(View()), Echo(v))
    {
      if v in echo {
        echo := echo - {v};
        change := Update();
      } else {
        change := None;
      }
    }

    method ApplyReady(v: ValidatorId) returns (change: Option<Status>)
      modifies this
      ensures Updated(View(), change) == Apply(old(View()), Ready(v))
    {
      if v in ready {
        ready := ready - {v};
        readies := readies + {v};
        change := Update();
      } else {
        change := None;
      }
    }

    method Update() returns (change: Option<Status>)
      modifies this
      ensures Updated(View(), change) == UpdateStatus(old(View()))
    {
      if status.Pending? {
        events := events + [EchoEvent];
        status := EchoSent;
        return Some(status);
      }
      if !status.IsReadySent() && ReachedReadyThreshold(View()) {
        events := events + [ReadyEvent];
        status := status.ToReadySent();
        return Some(status);
      }
      if !status.IsDelivered() && ReachedDeliveryThreshold(View()) {
        status := status.ToDelivered();
        return Some(status);
      }
      return None;
    }
  }

  // ----- What every sequence of votes keeps -----

  /** The two subscription sets hold the validators that have not voted yet. */
  ghost predicate Counting(s: State, validators: set<ValidatorId>) {
    && s.echo <= validators
    && s.ready <= validators
    && s.readies == validators - s.ready
    && s.networkSize == |validators|
  }

  /** No status runs ahead of the thresholds it stands for. */
  ghost predicate Disciplined(s: State) {
    && !s.status.Pending?
    && (s.status.IsReadySent() ==> ReachedReadyThreshold(s))
    && (s.status.IsDelivered() ==> ReachedDeliveryThreshold(s))
  }

  /** Exactly one Echo, and one Ready exactly in the states that claim to have sent it. */
  ghost predicate EmittedOnce(s: State) {
    || s.events == Announcement(false) + Votes(s.status)
    || s.events == Announcement(true) + Votes(s.status)
  }

  function Votes(status: Status): seq<Event> {
    if status.IsReadySent() then [EchoEvent, ReadyEvent] else [EchoEvent]
  }

  ghost predicate Sound(s: State, validators: set<ValidatorId>) {
    Counting(s, validators) && Disciplined(s) && EmittedOnce(s)
  }

  lemma StartSound(certificate: Certificate, validators: set<ValidatorId>, params: Params, needGossip: bool)
    ensures Sound(Start(certificate, validators, params, needGossip), validators)
  {
  }

  lemma TakenSize<T>(all: set<T>, left: set<T>)
    requires left <= all
    ensures |all| - |left| == |all - left|
  {
    assert all == left + (all - left);
  }

  lemma RemoveOne<T>(s: set<T>, x: T)
    requires x in s
    ensures |s - {x}| == |s| - 1
  {
  }

  lemma UpdateKeeps(s: State)
    requires Disciplined(s) && EmittedOnce(s)
    ensures var s' := UpdateStatus(s).state;
            && Disciplined(s') && EmittedOnce(s')
            && s' == s.(status := s'.status, events := s'.events)
  {
    var s' := UpdateStatus(s).state;
    var g :| s.events == Announcement(g) + Votes(s.status);
    assert s'.events == Announcement(g) + Votes(s'.status);
  }

  /** Taking a sender out of a set keeps every threshold that was reached. */
  lemma FewerLeft(s: State, t: State, validators: set<ValidatorId>)
    requires Counting(s, validators) && Disciplined(s)
    requires t.echo <= s.echo && t.ready <= s.ready
    requires t.networkSize == s.networkSize && t.params == s.params && t.status == s.status
    ensures Disciplined(t)
  {
    SubsetSize(s.echo, validators);
    SubsetSize(s.ready, validators);
    SubsetSize(t.echo, s.echo);
    SubsetSize(t.ready, s.ready);
  }

  lemma ApplySound(s: State, vote: Vote, validators: set<ValidatorId>)
    requires Sound(s, validators)
    ensures Sound(Apply(s, vote).state, validators)
  {
    match vote
    case Echo(v) =>
      var t := s.(echo := s.echo - {v});
      FewerLeft(s, t, validators);
      UpdateKeeps(t);
    case Ready(v) =>
      var t := s.(ready := s.ready - {v}, readies := s.readies + {v});
      FewerLeft(s, t, validators);
      UpdateKeeps(t);
  }

  /** A vote counts as accepted once its sender is no longer waited for. */
  ghost predicate Accepted(s: State, vote: Vote) {
    match vote
    case Echo(v) => v !in s.echo
    case Ready(v) => v !in s.ready
  }

  lemma ApplyFrame(s: State, vote: Vote)
    ensures var s' := Apply(s, vote).state;
            && s'.echo == s.echo - (if vote.Echo? then {vote.sender} else {})
            && s'.ready == s.ready - (if vote.Ready? then {vote.sender} else {})
            && s'.certificate == s.certificate && s'.params == s.params
            && s'.networkSize == s.networkSize && s'.expectedPosition == s.expectedPosition
  {
  }

  // ----- The closed form -----

  /** What the thresholds alone say about `echoes` and `readies` distinct known senders. */
  function Settled(params: Params, echoes: nat, readies: nat): Status {
    if readies >= params.delivery then DeliveredWithReadySent
    else if echoes >= params.echo || readies >= params.ready then ReadySent
    else EchoSent
  }

  /** The thresholds leave room for Ready before delivery. */
  predicate Separated(n: nat, params: Params) {
    && params.echo >= 1 && params.ready >= 1 && params.delivery >= 1
    && (params.ready < params.delivery || n < params.delivery)
  }

  ghost function EchoSenders(votes: seq<Vote>): set<ValidatorId> {
    set v | v in votes && v.Echo? :: v.sender
  }

  ghost function ReadySenders(votes: seq<Vote>): set<ValidatorId> {
    set v | v in votes && v.Ready? :: v.sender
  }

  /** The status is the closed form of the senders taken out of the two sets. */
  ghost predicate IsSettled(s: State) {
    && |s.echo| <= s.networkSize && |s.ready| <= s.networkSize
    && s.status == Settled(s.params, s.networkSize - |s.echo|, s.networkSize - |s.ready|)
  }

  lemma UpdateSettles(s: State, echoes: nat, readies: nat)
    requires s.status == Settled(s.params, echoes, readies) && Separated(s.networkSize, s.params)
    requires |s.echo| <= s.networkSize && |s.ready| <= s.networkSize
    requires
      || (s.networkSize - |s.echo| == echoes + 1 && s.networkSize - |s.ready| == readies)
      || (s.networkSize - |s.echo| == echoes && s.networkSize - |s.ready| == readies + 1)
    ensures IsSettled(UpdateStatus(s).state)
  {
  }

  lemma ApplySettled(s: State, vote: Vote)
    requires IsSettled(s) && Separated(s.networkSize, s.params)
    ensures IsSettled(Apply(s, vote).state)
  {
    var echoes, readies := s.networkSize - |s.echo|, s.networkSize - |s.ready|;
    match vote
    case Echo(v) =>
      if v in s.echo {
        RemoveOne(s.echo, v);
        UpdateSettles(s.(echo := s.echo - {v}), echoes, readies);
      }
    case Ready(v) =>
      if v in s.ready {
        RemoveOne(s.ready, v);
        UpdateSettles(s.(ready := s.ready - {v}, readies := s.readies + {v}), echoes, readies);
      }
  }

  /** A state that has processed nothing yet. */
  ghost predicate IsStart(s: State, validators: set<ValidatorId>) {
    s.echo == s.ready == validators && s.status == EchoSent && Sound(s, validators)
  }

  lemma SendersOfAppend(votes: seq<Vote>, last: Vote)
    ensures EchoSenders(votes + [last]) == EchoSenders(votes) + (if last.Echo? then {last.sender} else {})
    ensures ReadySenders(votes + [last]) == ReadySenders(votes) + (if last.Ready? then {last.sender} else {})
  {
  }

  /** The sets, and nothing but the sets, of the known validators that have not voted. */
  ghost predicate Waits(s: State, validators: set<ValidatorId>, votes: seq<Vote>) {
    s.echo == validators - EchoSenders(votes) && s.ready == validators - ReadySenders(votes)
  }

  lemma WaitsStep(s: State, s': State, validators: set<ValidatorId>, votes: seq<Vote>, last: Vote)
    requires Waits(s, validators, votes)
    requires s'.echo == s.echo - (if last.Echo? then {last.sender} else {})
    requires s'.ready == s.ready - (if last.Ready? then {last.sender} else {})
    ensures Waits(s', validators, votes + [last])
  {
    SendersOfAppend(votes, last);
  }

  ghost predicate Processed(s: State, validators: set<ValidatorId>, params: Params, votes: seq<Vote>) {
    Sound(s, validators) && Waits(s, validators, votes) && s.params == params
  }

  lemma ProcessedStep(s: State, validators: set<ValidatorId>, params: Params, votes: seq<Vote>, last: Vote)
    requires Processed(s, validators, params, votes)
    ensures Processed(Apply(s, last).state, validators, params, votes + [last])
  {
    ApplySound(s, last, validators);
    ApplyFrame(s, last);
    WaitsStep(s, Apply(s, last).state, validators, votes, last);
  }

  /** After any votes the two sets hold exactly the known validators that have not voted. */
  lemma {:induction false} SendersTaken(s: State, validators: set<ValidatorId>, votes: seq<Vote>)
    requires IsStart(s, validators)
    ensures Processed(ApplyAll(s, votes), validators, s.params, votes)
  {
    if votes == [] {
      assert Waits(s, validators, []);
    } else {
      var before, last := votes[..|votes| - 1], votes[|votes| - 1];
      ApplyLast(s, before, last);
      assert votes == before + [last];
      hide ApplyAll, Apply;
      SendersTaken(s, validators, before);
      ProcessedStep(ApplyAll(s, before), validators, s.params, before, last);
    }
  }

  /** The closed form over the distinct known senders of a vote sequence. */
  ghost function Expected(validators: set<ValidatorId>, params: Params, votes: seq<Vote>): Status {
    Settled(params, |validators * EchoSenders(votes)|, |validators * ReadySenders(votes)|)
  }

  lemma {:induction false} SettledIsExpected(s: State, validators: set<ValidatorId>, votes: seq<Vote>)
    requires IsStart(s, validators)
    ensures IsSettled(ApplyAll(s, votes))
            <==> ApplyAll(s, votes).status == Expected(validators, s.params, votes)
  {
    SendersTaken(s, validators, votes);
    var s' := ApplyAll(s, votes);
    TakenSize(validators, s'.echo);
    TakenSize(validators, s'.ready);
    assert validators - s'.echo == validators * EchoSenders(votes);
    assert validators - s'.ready == validators * ReadySenders(votes);
  }

  lemma {:induction false} SeparatedSettles(s: State, validators: set<ValidatorId>, votes: seq<Vote>)
    requires IsStart(s, validators) && Separated(|validators|, s.params)
    ensures IsSettled(ApplyAll(s, votes))
    ensures ApplyAll(s, votes).status == Expected(validators, s.params, votes)
  {
    if votes != [] {
      var before := votes[..|votes| - 1];
      SeparatedSettles(s, validators, before);
      SendersTaken(s, validators, before);
      ApplySettled(ApplyAll(s, before), votes[|votes| - 1]);
    }
    SettledIsExpected(s, validators, votes);
  }

  /** Readies from exactly the validators in `senders`, few enough to change nothing. */
  lemma {:induction false} QuietReadies(s: State, validators: set<ValidatorId>, senders: set<ValidatorId>)
    returns (votes: seq<Vote>)
    requires IsStart(s, validators) && senders <= validators
    requires |senders| < s.params.ready && |senders| < s.params.delivery && s.params.echo >= 1
    ensures EchoSenders(votes) == {} && ReadySenders(votes) == senders
    ensures ApplyAll(s, votes).status == EchoSent
    decreases senders
  {
    if senders == {} {
      votes := [];
    } else {
      var v :| v in senders;
      var before := QuietReadies(s, validators, senders - {v});
      votes := before + [Ready(v)];
      OneMoreReady(s, validators, before, v, senders);
      ApplyFrame(ApplyAll(s, before), Ready(v));
    }
  }

  lemma {:induction false} OneMoreReady(s: State, validators: set<ValidatorId>, before: seq<Vote>, v: ValidatorId,
                                        senders: set<ValidatorId>)
    requires IsStart(s, validators) && v in senders && senders <= validators
    requires EchoSenders(before) == {} && ReadySenders(before) == senders - {v}
    ensures var votes := before + [Ready(v)];
            && EchoSenders(votes) == {} && ReadySenders(votes) == senders
            && ApplyAll(s, votes) == Apply(ApplyAll(s, before), Ready(v)).state
            && v in ApplyAll(s, before).ready
            && ApplyAll(s, votes).networkSize - |ApplyAll(s, votes).echo| == 0
            && ApplyAll(s, votes).params == s.params
            && ApplyAll(s, votes).networkSize - |ApplyAll(s, votes).ready| == |senders|
  {
    hide Apply, ApplyAll;
    var votes := before + [Ready(v)];
    ApplyLast(s, before, Ready(v));
    SendersOfAppend(before, Ready(v));
    SendersTaken(s, validators, before);
    SendersTaken(s, validators, votes);
    TakenSize(validators, senders);
    assert validators - {} == validators;
  }

  /** Thresholds that are not separated have a vote sequence whose status is not the closed form. */
  lemma UnseparatedMisses(s: State, validators: set<ValidatorId>) returns (votes: seq<Vote>)
    requires IsStart(s, validators) && !Separated(|validators|, s.params)
    ensures !IsSettled(ApplyAll(s, votes))
  {
    if s.params.echo == 0 || s.params.ready == 0 || s.params.delivery == 0 {
      votes := [];
    } else {
      var senders := SomeSubset(validators, s.params.delivery);
      var v :| v in senders;
      var before := QuietReadies(s, validators, senders - {v});
      votes := before + [Ready(v)];
      OneMoreReady(s, validators, before, v, senders);
      ApplyFrame(ApplyAll(s, before), Ready(v));
    }
  }

  /**
   * Main result. Over all vote sequences (any order, duplicates, unknown senders) the
   * one-transition-per-message status is the closed form of the distinct known senders
   * exactly when the thresholds are separated.
   */
  lemma SettledIffSeparated(certificate: Certificate, validators: set<ValidatorId>, params: Params, gossip: bool)
    ensures var s := Start(certificate, validators, params, gossip);
            (forall votes: seq<Vote> :: ApplyAll(s, votes).status == Expected(validators, params, votes))
            <==> Separated(|validators|, params)
  {
    var s := Start(certificate, validators, params, gossip);
    StartSound(certificate, validators, params, gossip);
    if Separated(|validators|, params) {
      forall votes: seq<Vote>
        ensures ApplyAll(s, votes).status == Expected(validators, params, votes)
      {
        SeparatedSettles(s, validators, votes);
      }
    } else {
      var votes := UnseparatedMisses(s, validators);
      SettledIsExpected(s, validators, votes);
    }
  }

  /** The derived thresholds are separated for every network except those of one or two validators. */
  lemma DerivedThresholdsSeparated(n: nat)
    ensures Separated(n, ParamsFor(n)) <==> n == 0 || n >= 3
  {
  }

  /** A vote reports a change exactly when it changes the status, and then the new status. */
  lemma ReportsChange(s: State, vote: Vote)
    ensures var r := Apply(s, vote);
            r.change == if r.state.status == s.status then None else Some(r.state.status)
  {
  }

  /** The status only moves forward, one step at a time, and a vote that does not count moves nothing. */
  lemma StatusAdvances(s: State, vote: Vote)
    requires !s.status.Pending?
    ensures var s' := Apply(s, vote).state;
            && (s.status.IsReadySent() ==> s'.status.IsReadySent())
            && (s.status.IsDelivered() ==> s'.status.IsDelivered())
            && (Accepted(s, vote) ==> s' == s)
            && (s'.status.IsReadySent() != s.status.IsReadySent() ==> s'.status.IsDelivered() == s.status.IsDelivered())
            && (s'.status != s.status ==> s'.status.IsReadySent() != s.status.IsReadySent()
                                          || s'.status.IsDelivered() != s.status.IsDelivered())
  {
  }

  /** The events of a broadcast are its announcement, its Echo and, once sent, its Ready; no others. */
  lemma {:induction false} EventsOf(certificate: Certificate, validators: set<ValidatorId>, params: Params,
                                    gossip: bool, votes: seq<Vote>)
    ensures var s := ApplyAll(Start(certificate, validators, params, gossip), votes);
            && !s.status.Pending?
            && s.events == [BroadcastStarted] + (if gossip then [Gossip] else []) + [EchoEvent]
                           + (if s.status.IsReadySent() then [ReadyEvent] else [])
  {
    if votes != [] {
      var before := votes[..|votes| - 1];
      EventsOf(certificate, validators, params, gossip, before);
      hide Apply;
      VoteEvents(ApplyAll(Start(certificate, validators, params, gossip), before), votes[|votes| - 1]);
    }
  }

  /** A vote emits a Ready exactly when it takes the status to one that has sent it, and nothing else. */
  lemma VoteEvents(s: State, vote: Vote)
    requires !s.status.Pending?
    ensures var s' := Apply(s, vote).state;
            && !s'.status.Pending? && (s.status.IsReadySent() ==> s'.status.IsReadySent())
            && s'.events == s.events + (if s'.status.IsReadySent() && !s.status.IsReadySent() then [ReadyEvent] else [])
  {
  }

  lemma ApplyNotPlain(s: State, vote: Vote)
    requires s.params.ready <= s.params.delivery && s.status != Delivered && s.status != Pending
    ensures Apply(s, vote).state.status != Delivered
  {
  }

  /** No state ever rests in plain `Delivered` when Ready needs no more senders than delivery. */
  lemma {:induction false} NeverPlainDelivered(s: State, validators: set<ValidatorId>, votes: seq<Vote>)
    requires IsStart(s, validators) && s.params.ready <= s.params.delivery
    ensures ApplyAll(s, votes).status != Delivered
  {
    if votes != [] {
      var before := votes[..|votes| - 1];
      NeverPlainDelivered(s, validators, before);
      SendersTaken(s, validators, before);
      ApplyNotPlain(ApplyAll(s, before), votes[|votes| - 1]);
    }
  }
}
