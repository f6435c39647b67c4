/**
 * When the order of the votes does not matter. A state makes at most one transition per
 * vote, so a vote that justifies two of them leaves one behind for the next vote.
 */
module VoteOrder {
  import opened Wrappers
  import opened Certificates
  import opened Quorum
  import opened DoubleEcho

  predicate ReadyDue(p: Params, echoes: nat, readies: nat) {
    echoes >= p.echo || readies >= p.ready
  }

  predicate SomethingDue(p: Params, echoes: nat, readies: nat) {
    ReadyDue(p, echoes, readies) || readies >= p.delivery
  }

  /** One vote earlier a first transition was due, so that the last vote makes the second. */
  predicate DueBefore(p: Params, echoes: nat, readies: nat) {
    && echoes + readies >= 2
    && ((echoes >= 1 && SomethingDue(p, echoes - 1, readies)) || (readies >= 1 && SomethingDue(p, echoes, readies - 1)))
  }

  /** Where a state rests after votes of `echoes` and `readies` distinct known senders. */
  function Resting(p: Params, echoes: nat, readies: nat): Status {
    if echoes + readies == 0 then EchoSent
    else if ReadyDue(p, echoes, readies) then
      if readies >= p.delivery && DueBefore(p, echoes, readies) then DeliveredWithReadySent else ReadySent
    else if readies >= p.delivery then Delivered
    else EchoSent
  }

  /**
   * Ready and delivery do not fall due with the same Ready, or echoes make Ready due from
   * the first one on.
   */
  predicate OrderFree(n: nat, p: Params) {
    p.ready == p.delivery && 1 <= p.delivery <= n ==> p.echo <= 1
  }

  /** Derived thresholds are sensitive to order for exactly two validators. */
  lemma DerivedOrderFree(n: nat)
    ensures OrderFree(n, ParamsFor(n)) <==> n != 2
  {
  }

  ghost predicate Rests(s: State) {
    && |s.echo| <= s.networkSize && |s.ready| <= s.networkSize
    && s.status == Resting(s.params, s.networkSize - |s.echo|, s.networkSize - |s.ready|)
  }

  lemma UpdateRests(s: State, echoes: nat, readies: nat)
    requires s.status == Resting(s.params, echoes, readies) && OrderFree(s.networkSize, s.params)
    requires |s.echo| <= s.networkSize && |s.ready| <= s.networkSize
    requires
      || (s.networkSize - |s.echo| == echoes + 1 && s.networkSize - |s.ready| == readies)
      || (s.networkSize - |s.echo| == echoes && s.networkSize - |s.ready| == readies + 1)
    ensures Rests(UpdateStatus(s).state)
  {
  }

  lemma ApplyRests(s: State, vote: Vote)
    requires Rests(s) && OrderFree(s.networkSize, s.params)
    ensures Rests(Apply(s, vote).state)
  {
    hide Resting, OrderFree;
    var echoes, readies := s.networkSize - |s.echo|, s.networkSize - |s.ready|;
    match vote
    case Echo(v) =>
      if v in s.echo {
        RemoveOne(s.echo, v);
        UpdateRests(s.(echo := s.echo - {v}), echoes, readies);
      }
    case Ready(v) =>
      if v in s.ready {
        RemoveOne(s.ready, v);
        UpdateRests(s.(ready := s.ready - {v}, readies := s.readies + {v}), echoes, readies);
      }
  }

  lemma {:induction false} AllRests(s: State, validators: set<ValidatorId>, votes: seq<Vote>)
    requires IsStart(s, validators) && OrderFree(|validators|, s.params)
    ensures Rests(ApplyAll(s, votes))
  {
    if votes != [] {
      var before, last := votes[..|votes| - 1], votes[|votes| - 1];
      AllRests(s, validators, before);
      SendersTaken(s, validators, before);
      assert votes == before + [last];
      ApplyLast(s, before, last);
      hide ApplyAll, Apply, Rests;
      ApplyRests(ApplyAll(s, before), last);
    }
  }

  /** Delivery, once rested in, is not left by further votes. */
  lemma DeliveredRemains(p: Params, echoes: nat, readies: nat, echoes': nat, readies': nat)
    requires Resting(p, echoes, readies) == DeliveredWithReadySent && echoes <= echoes' && readies <= readies'
    ensures Resting(p, echoes', readies') == DeliveredWithReadySent
  {
  }

  /** The two sequences come from the same known validators. */
  ghost predicate SameSenders(validators: set<ValidatorId>, a: seq<Vote>, b: seq<Vote>) {
    && validators - EchoSenders(a) == validators - EchoSenders(b)
    && validators - ReadySenders(a) == validators - ReadySenders(b)
  }

  lemma {:induction false} SameSendersRest(s: State, validators: set<ValidatorId>, a: seq<Vote>, b: seq<Vote>)
    requires IsStart(s, validators) && OrderFree(|validators|, s.params) && SameSenders(validators, a, b)
    ensures ApplyAll(s, a).status == ApplyAll(s, b).status
  {
    AllRests(s, validators, a);
    AllRests(s, validators, b);
    SendersTaken(s, validators, a);
    SendersTaken(s, validators, b);
    hide ApplyAll, EchoSenders, ReadySenders, Resting;
  }

  // ----- Thresholds that are sensitive to order -----

  /** After `before`, from the others of `senders`, one more Ready makes Ready and delivery due. */
  ghost predicate Loaded(s: State, validators: set<ValidatorId>, senders: set<ValidatorId>, v: ValidatorId,
                         x: ValidatorId, before: seq<Vote>) {
    && IsStart(s, validators) && senders <= validators && v in senders && x in validators
    && s.params.ready == s.params.delivery == |senders| && s.params.echo >= 2
    && EchoSenders(before) == {} && ReadySenders(before) == senders - {v}
  }

  lemma Load(s: State, validators: set<ValidatorId>)
    returns (senders: set<ValidatorId>, v: ValidatorId, x: ValidatorId, before: seq<Vote>)
    requires IsStart(s, validators) && !OrderFree(|validators|, s.params)
    ensures Loaded(s, validators, senders, v, x, before)
  {
    senders := SomeSubset(validators, s.params.delivery);
    v :| v in senders;
    x := v;
    before := QuietReadies(s, validators, senders - {v});
  }

  /** Below all thresholds a state has only sent its Echo. */
  lemma StatusBelow(t: State, validators: set<ValidatorId>)
    requires Sound(t, validators)
    requires t.networkSize - |t.echo| < t.params.echo
    requires t.networkSize - |t.ready| < t.params.ready && t.networkSize - |t.ready| < t.params.delivery
    ensures t.status == EchoSent
  {
  }

  /** Votes of the others and the Echo of `x`, in any order, leave the state below all thresholds. */
  lemma {:induction false} NotYet(s: State, validators: set<ValidatorId>, senders: set<ValidatorId>, v: ValidatorId,
                                  x: ValidatorId, votes: seq<Vote>, echoers: set<ValidatorId>)
    requires IsStart(s, validators) && senders <= validators && v in senders && x in validators && echoers <= {x}
    requires s.params.ready == s.params.delivery == |senders| && s.params.echo >= 2
    requires EchoSenders(votes) == echoers && ReadySenders(votes) == senders - {v}
    ensures var t := ApplyAll(s, votes);
            && Sound(t, validators) && t.params == s.params && t.status == EchoSent
            && t.echo == validators - echoers && t.ready == validators - (senders - {v})
            && t.networkSize - |t.echo| == |echoers| <= 1 && t.networkSize - |t.ready| == |senders| - 1
  {
    var t := ApplyAll(s, votes);
    SendersTaken(s, validators, votes);
    hide ApplyAll, EchoSenders, ReadySenders;
    TakenSize(validators, echoers);
    TakenSize(validators, senders - {v});
    RemoveOne(senders, v);
    SubsetSize(echoers, {x});
    assert validators - (validators - echoers) == echoers;
    StatusBelow(t, validators);
  }

  /** The last Ready makes two transitions due and makes one; the Echo before or after it decides. */
  lemma LastReady(t: State, validators: set<ValidatorId>, v: ValidatorId)
    requires Sound(t, validators) && t.status == EchoSent && v in t.ready
    requires t.networkSize - |t.ready| == t.params.ready - 1 == t.params.delivery - 1
    ensures Apply(t, Ready(v)).state.status == ReadySent && Apply(t, Ready(v)).change == Some(ReadySent)
  {
    RemoveOne(t.ready, v);
  }

  lemma LateEcho(t: State, validators: set<ValidatorId>, x: ValidatorId)
    requires Sound(t, validators) && t.status == ReadySent && x in t.echo
    requires t.networkSize - |t.ready| == t.params.delivery
    ensures Apply(t, Echo(x)).state.status == DeliveredWithReadySent
    ensures Apply(t, Echo(x)).change == Some(DeliveredWithReadySent)
  {
  }

  /** With the Echo first the votes rest in ReadySent. */
  lemma {:induction false} EchoFirst(s: State, validators: set<ValidatorId>, senders: set<ValidatorId>,
                                     v: ValidatorId, x: ValidatorId, before: seq<Vote>)
    requires Loaded(s, validators, senders, v, x, before)
    ensures ApplyAll(s, [Echo(x)] + before + [Ready(v)]).status == ReadySent
  {
    var votes := [Echo(x)] + before;
    assert EchoSenders(votes) == {x} && ReadySenders(votes) == senders - {v} by {
      assert forall vote :: vote in votes <==> vote == Echo(x) || vote in before;
      SendersJoin(before, x);
    }
    NotYet(s, validators, senders, v, x, votes, {x});
    ApplyLast(s, votes, Ready(v));
    hide ApplyAll, EchoSenders, ReadySenders;
    LastReady(ApplyAll(s, votes), validators, v);
  }

  lemma SendersJoin(before: seq<Vote>, x: ValidatorId)
    ensures EchoSenders([Echo(x)] + before) == EchoSenders(before) + {x}
    ensures ReadySenders([Echo(x)] + before) == ReadySenders(before)
  {
    var votes := [Echo(x)] + before;
    forall w
      ensures w in EchoSenders(votes) <==> w in EchoSenders(before) + {x}
      ensures w in ReadySenders(votes) <==> w in ReadySenders(before)
    {
      assert w in EchoSenders(votes) <==> Echo(w) in votes;
      assert w in EchoSenders(before) <==> Echo(w) in before;
      assert w in ReadySenders(votes) <==> Ready(w) in votes;
      assert w in ReadySenders(before) <==> Ready(w) in before;
    }
  }

  /** With the Echo last they are delivered by it. */
  lemma {:induction false} EchoLast(s: State, validators: set<ValidatorId>, senders: set<ValidatorId>, v: ValidatorId,
                                    x: ValidatorId, before: seq<Vote>)
    requires Loaded(s, validators, senders, v, x, before)
    ensures var t := ApplyAll(s, before);
            && Apply(t, Ready(v)).change == Some(ReadySent)
            && Apply(Apply(t, Ready(v)).state, Echo(x)).change == Some(DeliveredWithReadySent)
            && Apply(Apply(t, Ready(v)).state, Echo(x)).state.status == DeliveredWithReadySent
  {
    var t := ApplyAll(s, before);
    NotYet(s, validators, senders, v, x, before, {});
    hide ApplyAll, EchoSenders, ReadySenders;
    LastReady(t, validators, v);
    ApplySound(t, Ready(v), validators);
    ApplyFrame(t, Ready(v));
    RemoveOne(t.ready, v);
    hide Apply;
    LateEcho(Apply(t, Ready(v)).state, validators, x);
  }

  /**
   * The same votes in any order lead to the same status exactly when the thresholds are
   * free of order.
   */
  lemma OrderFreeIff(certificate: Certificate, validators: set<ValidatorId>, params: Params, gossip: bool)
    ensures var s := Start(certificate, validators, params, gossip);
            (forall a: seq<Vote>, b: seq<Vote> :: SameSenders(validators, a, b) ==>
               ApplyAll(s, a).status == ApplyAll(s, b).status)
            <==> OrderFree(|validators|, params)
  {
    var s := Start(certificate, validators, params, gossip);
    StartSound(certificate, validators, params, gossip);
    if OrderFree(|validators|, params) {
      forall a: seq<Vote>, b: seq<Vote> | SameSenders(validators, a, b)
        ensures ApplyAll(s, a).status == ApplyAll(s, b).status
      {
        SameSendersRest(s, validators, a, b);
      }
    } else {
      var a, b := OrderMatters(s, validators);
      hide ApplyAll, SameSenders, OrderFree;
      assert SameSenders(validators, a, b) && ApplyAll(s, a).status != ApplyAll(s, b).status;
    }
  }

  lemma OrderMatters(s: State, validators: set<ValidatorId>) returns (a: seq<Vote>, b: seq<Vote>)
    requires IsStart(s, validators) && !OrderFree(|validators|, s.params)
    ensures SameSenders(validators, a, b) && ApplyAll(s, a).status != ApplyAll(s, b).status
  {
    var senders, v, x, before := Load(s, validators);
    hide ApplyAll, SameSenders, Apply, Loaded, OrderFree;
    a, b := [Echo(x)] + before + [Ready(v)], before + [Ready(v)] + [Echo(x)];
    Reordered(validators, before, v, x);
    EchoFirst(s, validators, senders, v, x, before);
    EchoLast(s, validators, senders, v, x, before);
    ApplyLast(s, before, Ready(v));
    ApplyLast(s, before + [Ready(v)], Echo(x));
  }

  lemma Reordered(validators: set<ValidatorId>, before: seq<Vote>, v: ValidatorId, x: ValidatorId)
    ensures SameSenders(validators, [Echo(x)] + before + [Ready(v)], before + [Ready(v)] + [Echo(x)])
  {
    SendersJoin(before, x);
    SendersOfAppend([Echo(x)] + before, Ready(v));
    SendersOfAppend(before, Ready(v));
    SendersOfAppend(before + [Ready(v)], Echo(x));
    hide EchoSenders, ReadySenders;
  }

  // ----- Progress, whatever the order -----

  /** Ready is sent when due, and delivery follows the next vote at the latest. */
  ghost predicate Prompt(s: State) {
    && !s.status.Pending?
    && |s.echo| <= s.networkSize && |s.ready| <= s.networkSize
    && var echoes, readies := s.networkSize - |s.echo|, s.networkSize - |s.ready|;
       && (ReadyDue(s.params, echoes, readies) ==> s.status.IsReadySent())
       && (readies >= s.params.delivery && (readies > s.params.ready || echoes >= s.params.echo) ==>
             s.status == DeliveredWithReadySent)
  }

  /** No threshold is met by no votes, and Ready needs no more senders than delivery. */
  predicate Ordered(p: Params) {
    1 <= p.echo && 1 <= p.ready <= p.delivery
  }

  lemma ApplyPrompt(s: State, vote: Vote)
    requires Prompt(s) && Ordered(s.params)
    ensures Prompt(Apply(s, vote).state)
  {
    hide Prompt;
    match vote
    case Echo(v) =>
      if v in s.echo {
        RemoveOne(s.echo, v);
        UpdatePrompt(s, s.(echo := s.echo - {v}));
      }
    case Ready(v) =>
      if v in s.ready {
        RemoveOne(s.ready, v);
        UpdatePrompt(s, s.(ready := s.ready - {v}, readies := s.readies + {v}));
      }
  }

  lemma UpdatePrompt(s: State, t: State)
    requires Prompt(s) && Ordered(s.params)
    requires t.networkSize == s.networkSize && t.params == s.params && t.status == s.status
    requires || (|t.echo| == |s.echo| - 1 && |t.ready| == |s.ready|)
             || (|t.echo| == |s.echo| && |t.ready| == |s.ready| - 1)
    ensures Prompt(UpdateStatus(t).state)
  {
  }

  lemma StartPrompt(s: State, validators: set<ValidatorId>)
    requires IsStart(s, validators) && Ordered(s.params)
    ensures Prompt(s)
  {
  }
}
