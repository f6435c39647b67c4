/**
 * The broadcast of one certificate across the whole network: validators, a faulty subset
 * that may vote anything, and votes of non-faulty validators that arrive in any order,
 * any number of times, at any non-faulty validator.
 */
module Network {
  import opened Certificates
  import opened Quorum
  import opened DoubleEcho
  import opened VoteOrder

  datatype Config = Config(validators: set<ValidatorId>, faulty: set<ValidatorId>, certificate: Certificate) {
    function Size(): nat { |validators| }
    function NonFaulty(): set<ValidatorId> { validators - faulty }
    function Thresholds(): Params { ParamsFor(Size()) }
  }

  /** The broadcast states of the non-faulty validators that were handed the certificate. */
  datatype Net = Net(nodes: map<ValidatorId, State>)

  datatype Action =
    | Hand(to: ValidatorId, needGossip: bool)
    | Receive(at: ValidatorId, vote: Vote)

  /** The vote was put on the event channel of its sender. */
  predicate Sent(s: Net, vote: Vote) {
    && vote.sender in s.nodes
    && (match vote
        case Echo(v) => EchoEvent in s.nodes[v].events
        case Ready(v) => ReadyEvent in s.nodes[v].events)
  }

  /** Authenticity: only votes of non-faulty validators need to have been sent. */
  predicate Genuine(c: Config, s: Net, vote: Vote) {
    vote.sender in c.NonFaulty() ==> Sent(s, vote)
  }

  /** One scheduling choice; a choice that is not possible changes nothing. */
  function Step(c: Config, s: Net, a: Action): Net {
    match a
    case Hand(v, gossip) =>
      if v in c.NonFaulty() && v !in s.nodes
      then Net(s.nodes[v := Start(c.certificate, c.validators, c.Thresholds(), gossip)])
      else s
    case Receive(v, vote) =>
      // the task of a delivered certificate has returned and processes nothing more
      if v in s.nodes && s.nodes[v].status != DeliveredWithReadySent && Genuine(c, s, vote)
      then Net(s.nodes[v := Apply(s.nodes[v], vote).state])
      else s
  }

  function Exec(c: Config, actions: seq<Action>): Net {
    if actions == [] then Net(map[])
    else Step(c, Exec(c, actions[..|actions| - 1]), actions[|actions| - 1])
  }

  // ----- What every run keeps -----

  ghost predicate NodeSound(c: Config, st: State) {
    Sound(st, c.validators) && st.params == c.Thresholds()
  }

  ghost predicate NodesSound(c: Config, s: Net) {
    forall v :: v in s.nodes ==> v in c.NonFaulty() && NodeSound(c, s.nodes[v])
  }

  /** Every vote accepted from a non-faulty validator was sent by it. */
  ghost predicate Authentic(c: Config, s: Net) {
    forall v, vote: Vote :: v in s.nodes && vote.sender in c.NonFaulty() && Accepted(s.nodes[v], vote) ==> Sent(s, vote)
  }

  ghost function Echoers(c: Config, s: Net, v: ValidatorId): set<ValidatorId>
    requires v in s.nodes
  {
    c.validators - s.nodes[v].echo
  }

  ghost predicate SeesEchoQuorum(c: Config, s: Net, v: ValidatorId) {
    v in s.nodes && |Echoers(c, s, v)| >= c.Thresholds().echo
  }

  /** A Ready of a non-faulty validator goes back to an echo quorum seen by a non-faulty validator. */
  ghost predicate Grounded(c: Config, s: Net) {
    forall v :: v in s.nodes && s.nodes[v].status.IsReadySent() ==> exists w :: SeesEchoQuorum(c, s, w)
  }

  ghost predicate NetInv(c: Config, s: Net) {
    NodesSound(c, s) && Authentic(c, s) && Grounded(c, s)
  }

  /** Events are never taken back. */
  lemma EventsGrow(st: State, vote: Vote)
    ensures st.events <= Apply(st, vote).state.events
  {
  }

  lemma SentGrows(c: Config, s: Net, a: Action, vote: Vote)
    requires Sent(s, vote)
    ensures Sent(Step(c, s, a), vote)
  {
    if a.Receive? && a.at in s.nodes {
      EventsGrow(s.nodes[a.at], a.vote);
    }
  }

  lemma NodeStaysSound(c: Config, st: State, vote: Vote)
    requires NodeSound(c, st)
    ensures NodeSound(c, Apply(st, vote).state)
  {
    ApplySound(st, vote, c.validators);
    ApplyFrame(st, vote);
  }

  lemma StepSound(c: Config, s: Net, a: Action)
    requires NodesSound(c, s)
    ensures NodesSound(c, Step(c, s, a))
  {
    match a
    case Hand(v, gossip) =>
      StartSound(c.certificate, c.validators, c.Thresholds(), gossip);
    case Receive(v, vote) =>
      if v in s.nodes {
        NodeStaysSound(c, s.nodes[v], vote);
      }
  }

  lemma StepAuthentic(c: Config, s: Net, a: Action)
    requires Authentic(c, s)
    ensures Authentic(c, Step(c, s, a))
  {
    var s' := Step(c, s, a);
    forall v, vote: Vote | v in s'.nodes && vote.sender in c.NonFaulty() && Accepted(s'.nodes[v], vote)
      ensures Sent(s', vote)
    {
      if a.Receive? && a.at == v && s' != s {
        ApplyFrame(s.nodes[v], a.vote);
      }
      if v in s.nodes && Accepted(s.nodes[v], vote) {
        SentGrows(c, s, a, vote);
      } else {
        assert vote == a.vote && Sent(s, vote);
        SentGrows(c, s, a, vote);
      }
    }
  }

  lemma QuorumStays(c: Config, s: Net, a: Action, w: ValidatorId)
    requires SeesEchoQuorum(c, s, w)
    ensures SeesEchoQuorum(c, Step(c, s, a), w)
  {
    var s' := Step(c, s, a);
    if a.Receive? && a.at == w {
      ApplyFrame(s.nodes[w], a.vote);
    }
    SubsetSize(Echoers(c, s, w), Echoers(c, s', w));
  }

  /** A sent Ready shows in the status, and so does its absence. */
  lemma ReadySentIffEvent(st: State, validators: set<ValidatorId>)
    requires Sound(st, validators)
    ensures ReadyEvent in st.events <==> st.status.IsReadySent()
  {
  }

  lemma StepGrounded(c: Config, s: Net, a: Action)
    requires NetInv(c, s) && |c.faulty| <= c.Size() / 3
    ensures Grounded(c, Step(c, s, a))
  {
    var s' := Step(c, s, a);
    StepSound(c, s, a);
    StepAuthentic(c, s, a);
    forall v | v in s'.nodes && s'.nodes[v].status.IsReadySent()
      ensures exists w :: SeesEchoQuorum(c, s', w)
    {
      if u :| u in s.nodes && s.nodes[u].status.IsReadySent() {
        var w :| SeesEchoQuorum(c, s, w);
        QuorumStays(c, s, a, w);
      } else {
        FirstReady(c, s, a, v);
        assert SeesEchoQuorum(c, s', v);
      }
    }
  }

  /** Whoever sends the first Ready of the non-faulty validators has an echo quorum. */
  lemma FirstReady(c: Config, s: Net, a: Action, v: ValidatorId)
    requires NetInv(c, s) && |c.faulty| <= c.Size() / 3
    requires forall u :: u in s.nodes ==> !s.nodes[u].status.IsReadySent()
    requires NodesSound(c, Step(c, s, a)) && v in Step(c, s, a).nodes && Step(c, s, a).nodes[v].status.IsReadySent()
    ensures SeesEchoQuorum(c, Step(c, s, a), v)
  {
    var s' := Step(c, s, a);
    var st := s'.nodes[v];
    TakenSize(c.validators, st.echo);
    TakenSize(c.validators, st.ready);
    if |Echoers(c, s', v)| < c.Thresholds().echo {
      var x := Outsider(c.validators - st.ready, c.faulty);
      NoReadyAccepted(c, s, a, v, x);
    }
  }

  lemma NoReadyAccepted(c: Config, s: Net, a: Action, v: ValidatorId, x: ValidatorId)
    requires NetInv(c, s) && x in c.NonFaulty()
    requires forall u :: u in s.nodes ==> !s.nodes[u].status.IsReadySent()
    requires v in Step(c, s, a).nodes
    ensures x in Step(c, s, a).nodes[v].ready
  {
    assert !Sent(s, Ready(x)) by {
      if x in s.nodes {
        ReadySentIffEvent(s.nodes[x], c.validators);
      }
    }
    if v in s.nodes {
      assert !Accepted(s.nodes[v], Ready(x));
      if a.Receive? {
        ApplyFrame(s.nodes[v], a.vote);
      }
    }
  }

  lemma {:induction false} ExecInv(c: Config, actions: seq<Action>)
    requires |c.faulty| <= c.Size() / 3
    ensures NetInv(c, Exec(c, actions))
  {
    if actions != [] {
      var before, last := actions[..|actions| - 1], actions[|actions| - 1];
      ExecInv(c, before);
      StepSound(c, Exec(c, before), last);
      StepAuthentic(c, Exec(c, before), last);
      StepGrounded(c, Exec(c, before), last);
    }
  }

  /** Non-faulty validators whose Echo was accepted had been handed the certificate. */
  lemma EchoersWereHanded(c: Config, s: Net, w: ValidatorId)
    requires NetInv(c, s) && w in s.nodes
    ensures Echoers(c, s, w) - c.faulty <= s.nodes.Keys
    ensures |s.nodes.Keys| >= |Echoers(c, s, w)| - |c.faulty|
  {
    forall x | x in Echoers(c, s, w) - c.faulty
      ensures x in s.nodes
    {
      assert Accepted(s.nodes[w], Echo(x));
    }
    SplitSize(Echoers(c, s, w), c.faulty);
    SubsetSize(Echoers(c, s, w) * c.faulty, c.faulty);
    SubsetSize(Echoers(c, s, w) - c.faulty, s.nodes.Keys);
  }

  /**
   * Safety over all runs. If a non-faulty validator has sent Ready, some non-faulty
   * validator has accepted an echo quorum, so at least `echo - |faulty|` non-faulty
   * validators had been handed the certificate.
   */
  lemma ReadyComesFromBroadcast(c: Config, actions: seq<Action>, v: ValidatorId) returns (w: ValidatorId)
    requires |c.faulty| <= c.Size() / 3
    requires Sent(Exec(c, actions), Ready(v))
    ensures w in c.NonFaulty() && SeesEchoQuorum(c, Exec(c, actions), w)
    ensures Echoers(c, Exec(c, actions), w) - c.faulty <= Exec(c, actions).nodes.Keys
    ensures |Exec(c, actions).nodes.Keys| >= c.Thresholds().echo - |c.faulty|
  {
    var s := Exec(c, actions);
    ExecInv(c, actions);
    ReadySentIffEvent(s.nodes[v], c.validators);
    w :| SeesEchoQuorum(c, s, w);
    EchoersWereHanded(c, s, w);
  }

  // ----- Totality and validity -----

  ghost predicate AllSettled(s: Net) {
    forall v :: v in s.nodes ==> IsSettled(s.nodes[v])
  }

  lemma StepSettled(c: Config, s: Net, a: Action)
    requires c.Size() >= 3 && NodesSound(c, s) && AllSettled(s)
    ensures AllSettled(Step(c, s, a))
  {
    DerivedThresholdsSeparated(c.Size());
    if a.Receive? && a.at in s.nodes {
      ApplySettled(s.nodes[a.at], a.vote);
    }
  }

  lemma {:induction false} ExecSound(c: Config, actions: seq<Action>)
    ensures NodesSound(c, Exec(c, actions))
  {
    if actions != [] {
      var before := actions[..|actions| - 1];
      ExecSound(c, before);
      StepSound(c, Exec(c, before), actions[|actions| - 1]);
    }
  }

  lemma {:induction false} ExecSettled(c: Config, actions: seq<Action>)
    requires c.Size() >= 3
    ensures AllSettled(Exec(c, actions))
  {
    if actions != [] {
      var before := actions[..|actions| - 1];
      ExecSettled(c, before);
      ExecSound(c, before);
      StepSettled(c, Exec(c, before), actions[|actions| - 1]);
    }
  }

  /** Every non-faulty validator is handed the certificate. */
  ghost predicate EverybodyHanded(c: Config, s: Net) {
    s.nodes.Keys == c.NonFaulty()
  }

  ghost predicate HasDelivered(s: Net, v: ValidatorId) {
    v in s.nodes && s.nodes[v].status == DeliveredWithReadySent
  }

  /** Whatever a non-faulty validator sent was accepted by all that have not delivered. */
  ghost predicate Drained(s: Net, vote: Vote) {
    Sent(s, vote) ==> forall v :: v in s.nodes ==> HasDelivered(s, v) || Accepted(s.nodes[v], vote)
  }

  ghost predicate ReadiesDrained(c: Config, s: Net) {
    forall w :: w in c.NonFaulty() ==> Drained(s, Ready(w))
  }

  ghost predicate EchoesDrained(c: Config, s: Net) {
    forall w :: w in c.NonFaulty() ==> Drained(s, Echo(w))
  }

  ghost predicate AllPrompt(s: Net) {
    forall v :: v in s.nodes ==> Prompt(s.nodes[v])
  }

  lemma DerivedOrdered(n: nat)
    ensures Ordered(ParamsFor(n))
  {
  }

  lemma StepPrompt(c: Config, s: Net, a: Action)
    requires NodesSound(c, s) && AllPrompt(s)
    ensures AllPrompt(Step(c, s, a))
  {
    DerivedOrdered(c.Size());
    match a
    case Hand(v, gossip) =>
      StartSound(c.certificate, c.validators, c.Thresholds(), gossip);
      StartPrompt(Start(c.certificate, c.validators, c.Thresholds(), gossip), c.validators);
    case Receive(v, vote) =>
      if v in s.nodes {
        ApplyPrompt(s.nodes[v], vote);
      }
    hide Prompt, Apply;
  }

  lemma {:induction false} ExecPrompt(c: Config, actions: seq<Action>)
    ensures AllPrompt(Exec(c, actions))
  {
    if actions != [] {
      var before := actions[..|actions| - 1];
      ExecPrompt(c, before);
      ExecSound(c, before);
      StepPrompt(c, Exec(c, before), actions[|actions| - 1]);
    }
  }

  /** Readies sent by these validators have been accepted by whoever has not delivered. */
  lemma ReadiesTaken(c: Config, s: Net, v: ValidatorId, senders: set<ValidatorId>)
    requires NetInv(c, s) && v in s.nodes && !HasDelivered(s, v) && ReadiesDrained(c, s)
    requires senders <= c.NonFaulty() && forall w :: w in senders ==> Sent(s, Ready(w))
    ensures s.nodes[v].networkSize - |s.nodes[v].ready| >= |senders|
  {
    var st := s.nodes[v];
    forall w | w in senders
      ensures w in c.validators - st.ready
    {
      assert Drained(s, Ready(w));
      assert Accepted(st, Ready(w));
    }
    SubsetSize(senders, c.validators - st.ready);
    TakenSize(c.validators, st.ready);
  }

  /** Enough non-faulty Readies reach everybody: all of them have sent their own, and more deliver. */
  lemma Amplified(c: Config, s: Net, v: ValidatorId, senders: set<ValidatorId>)
    requires NetInv(c, s) && AllPrompt(s) && v in s.nodes && ReadiesDrained(c, s)
    requires senders <= c.NonFaulty() && forall w :: w in senders ==> Sent(s, Ready(w))
    ensures |senders| >= c.Thresholds().ready ==> s.nodes[v].status.IsReadySent()
    ensures |senders| >= c.Thresholds().delivery && |senders| > c.Thresholds().ready ==> HasDelivered(s, v)
  {
    if !HasDelivered(s, v) {
      ReadiesTaken(c, s, v, senders);
      hide ReadiesDrained, Authentic, Grounded;
    }
  }

  lemma AllReadiesSent(c: Config, s: Net)
    requires NetInv(c, s) && EverybodyHanded(c, s)
    requires forall v :: v in s.nodes ==> s.nodes[v].status.IsReadySent()
    ensures forall w :: w in c.NonFaulty() ==> Sent(s, Ready(w))
  {
    forall w | w in c.NonFaulty()
      ensures Sent(s, Ready(w))
    {
      ReadySentIffEvent(s.nodes[w], c.validators);
    }
  }

  /** Once all non-faulty validators have sent Ready and Readies are drained, all have delivered. */
  lemma AllReadyAllDeliver(c: Config, s: Net)
    requires NetInv(c, s) && AllPrompt(s) && c.Size() >= 2
    requires c.faulty <= c.validators && |c.faulty| <= (c.Size() - 1) / 3
    requires EverybodyHanded(c, s) && ReadiesDrained(c, s)
    requires forall v :: v in s.nodes ==> s.nodes[v].status.IsReadySent()
    ensures forall v :: v in c.NonFaulty() ==> HasDelivered(s, v)
  {
    TakenSize(c.validators, c.faulty);
    AllReadiesSent(c, s);
    forall v | v in c.NonFaulty()
      ensures HasDelivered(s, v)
    {
      Amplified(c, s, v, c.NonFaulty());
    }
  }

  /**
   * Totality over all runs. If one non-faulty validator has delivered, every non-faulty
   * one was handed the certificate and the sent Readies are drained, then every non-faulty
   * validator has delivered.
   */
  lemma {:induction false} Totality(c: Config, actions: seq<Action>, first: ValidatorId)
    requires c.Size() >= 1 && c.faulty <= c.validators && |c.faulty| <= (c.Size() - 1) / 3
    requires EverybodyHanded(c, Exec(c, actions)) && ReadiesDrained(c, Exec(c, actions))
    requires HasDelivered(Exec(c, actions), first)
    ensures forall v :: v in c.NonFaulty() ==> HasDelivered(Exec(c, actions), v)
  {
    var s := Exec(c, actions);
    ExecInv(c, actions);
    ExecPrompt(c, actions);
    hide Exec;
    if c.Size() == 1 {
      SubsetSize(c.NonFaulty(), c.validators);
      forall v | v in c.NonFaulty()
        ensures HasDelivered(s, v)
      {
        OnlyOne(c.NonFaulty(), v, first);
      }
    } else {
      QuorumIsReady(c, s, first);
      AllReadyAllDeliver(c, s);
    }
  }

  /** The Readies that delivered one validator make everybody send Ready. */
  lemma QuorumIsReady(c: Config, s: Net, first: ValidatorId)
    requires NetInv(c, s) && AllPrompt(s) && |c.faulty| <= c.Size() / 3
    requires ReadiesDrained(c, s) && HasDelivered(s, first)
    ensures forall v :: v in s.nodes ==> s.nodes[v].status.IsReadySent()
  {
    var quorum := c.validators - s.nodes[first].ready;
    TakenSize(c.validators, s.nodes[first].ready);
    DeliveryQuorumAmplifies(quorum, c.faulty, c.Size());
    forall w | w in quorum - c.faulty
      ensures Sent(s, Ready(w))
    {
      assert Accepted(s.nodes[first], Ready(w));
    }
    forall v | v in s.nodes
      ensures s.nodes[v].status.IsReadySent()
    {
      Amplified(c, s, v, quorum - c.faulty);
    }
  }

  /**
   * Validity over all runs. Once every non-faulty validator was handed the certificate
   * and all their votes are drained, every one of them has delivered, whatever the faulty
   * validators did.
   */
  lemma {:induction false} Validity(c: Config, actions: seq<Action>)
    requires c.Size() >= 1 && c.faulty <= c.validators && |c.faulty| <= (c.Size() - 1) / 3
    requires EverybodyHanded(c, Exec(c, actions))
    requires EchoesDrained(c, Exec(c, actions)) && ReadiesDrained(c, Exec(c, actions))
    ensures forall v :: v in c.NonFaulty() ==> HasDelivered(Exec(c, actions), v)
  {
    var s := Exec(c, actions);
    ExecInv(c, actions);
    ExecPrompt(c, actions);
    hide Exec, AllPrompt;
    TakenSize(c.validators, c.faulty);
    NonFaultySuffice(c.Size(), |c.faulty|);
    forall v | v in s.nodes
      ensures s.nodes[v].status.IsReadySent()
    {
      EchoesSuffice(c, s, v);
    }
    AllReadiesSent(c, s);
    forall v | v in c.NonFaulty()
      ensures HasDelivered(s, v)
    {
      AllVotesDeliver(c, s, v);
    }
  }

  lemma NonFaultyEchoed(c: Config, s: Net, v: ValidatorId)
    requires NetInv(c, s) && v in s.nodes && !HasDelivered(s, v) && EverybodyHanded(c, s) && EchoesDrained(c, s)
    ensures s.nodes[v].networkSize - |s.nodes[v].echo| >= |c.NonFaulty()|
  {
    hide Authentic, Grounded;
    forall w | w in c.NonFaulty()
      ensures w in Echoers(c, s, v)
    {
      assert Sent(s, Echo(w));
      assert Drained(s, Echo(w));
      assert Accepted(s.nodes[v], Echo(w));
    }
    SubsetSize(c.NonFaulty(), Echoers(c, s, v));
    TakenSize(c.validators, s.nodes[v].echo);
  }

  lemma EchoesSuffice(c: Config, s: Net, v: ValidatorId)
    requires NetInv(c, s) && AllPrompt(s) && v in s.nodes
    requires EverybodyHanded(c, s) && EchoesDrained(c, s)
    requires |c.NonFaulty()| >= c.Thresholds().echo
    ensures s.nodes[v].status.IsReadySent()
  {
    if !HasDelivered(s, v) {
      NonFaultyEchoed(c, s, v);
      hide EverybodyHanded, EchoesDrained, Authentic, Grounded;
    }
  }

  lemma AllVotesDeliver(c: Config, s: Net, v: ValidatorId)
    requires NetInv(c, s) && AllPrompt(s) && v in s.nodes
    requires EverybodyHanded(c, s) && EchoesDrained(c, s) && ReadiesDrained(c, s)
    requires |c.NonFaulty()| >= c.Thresholds().echo && |c.NonFaulty()| >= c.Thresholds().delivery
    requires forall w :: w in c.NonFaulty() ==> Sent(s, Ready(w))
    ensures HasDelivered(s, v)
  {
    if !HasDelivered(s, v) {
      NonFaultyEchoed(c, s, v);
      ReadiesTaken(c, s, v, c.NonFaulty());
      hide EverybodyHanded, EchoesDrained, ReadiesDrained, Authentic, Grounded;
    }
  }
}
