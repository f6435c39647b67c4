/**
 * A network of whole validators: task managers with their stores, many certificates of many
 * subnets, and a faulty subset that may send any vote. Votes of non-faulty validators arrive in
 * any order and any number of times, interleaved with everything the task managers do.
 */
module Cluster {
  import opened Wrappers
  import opened Certificates
  import opened Quorum
  import opened DoubleEcho
  import opened VoteOrder
  import opened FullNodeStore
  import opened TaskManager
  import opened NodeRuns
  import opened VoteRuns
  import opened Chains
  import opened ForkFreeRuns
  import opened NodeProgress
  import G = Agreement
  import V = ValidatorStore

  /** Of all certificates in `u`, those of `subnet` are followed. */
  datatype Setting = Setting(validators: set<ValidatorId>, faulty: set<ValidatorId>, u: Universe, subnet: SubnetId) {
    function Size(): nat { |validators| }

    function NonFaulty(): set<ValidatorId> { validators - faulty }

    function Thresholds(): Params { ParamsFor(Size()) }

    /** At most (n - 1) / 3 faulty validators. */
    predicate Bounded() {
      Size() >= 1 && faulty <= validators && |faulty| <= (Size() - 1) / 3
    }
  }

  /** A validator performs an action of its task manager. */
  datatype Event = Event(at: ValidatorId, action: Action)

  ghost function Local(events: seq<Event>, v: ValidatorId): seq<Action> {
    if events == [] then []
    else
      var before, last := Local(events[..|events| - 1], v), events[|events| - 1];
      if last.at == v then before + [last.action] else before
  }

  ghost function NodeAt(c: Setting, events: seq<Event>, v: ValidatorId): Node {
    Exec(c.validators, c.Thresholds(), Local(events, v))
  }

  ghost predicate Holds(c: Setting, events: seq<Event>, v: ValidatorId, id: CertificateId) {
    V.IsDelivered(NodeAt(c, events, v).store, id)
  }

  ghost function VotesAt(events: seq<Event>, v: ValidatorId, id: CertificateId): seq<Vote> {
    Arrived(Local(events, v), id)
  }

  function EventOf(vote: Vote): DoubleEcho.Event {
    match vote case Echo(_) => EchoEvent case Ready(_) => ReadyEvent
  }

  /** A task of the certificate, running or waiting, has put the event on the channel. */
  ghost predicate Shows(n: Node, id: CertificateId, e: DoubleEcho.Event) {
    || (id in n.running && e in n.running[id].state.events)
    || (exists q :: q in n.precedence && n.precedence[q].Id() == id && e in n.precedence[q].state.events)
  }

  /** The validator has sent the vote at some point of the run. */
  ghost predicate Sent(c: Setting, events: seq<Event>, id: CertificateId, vote: Vote) {
    exists k :: 0 <= k <= |events| && Shows(NodeAt(c, events[..k], vote.sender), id, EventOf(vote))
  }

  /** Authenticity: a vote of a non-faulty validator that arrives was sent before. */
  ghost predicate Genuine(c: Setting, events: seq<Event>) {
    forall i :: 0 <= i < |events| && events[i].action.OnVote? && events[i].action.vote.sender in c.NonFaulty() ==>
      Sent(c, events[..i], events[i].action.id, events[i].action.vote)
  }

  /** The subnet does not fork, and non-faulty validators are not handed what they delivered; others may do so. */
  ghost predicate Lawful(c: Setting, events: seq<Event>) {
    && ForkFree(c.u, c.subnet) && |c.u| <= MAX_U64 && Genuine(c, events)
    && forall v :: v in c.NonFaulty() ==> AdmissibleRun(c.validators, c.Thresholds(), c.u, c.subnet, Local(events, v))
  }

  // ----- Votes that arrived were sent -----

  lemma SentEarlier(c: Setting, events: seq<Event>, k: nat, id: CertificateId, vote: Vote)
    requires k <= |events| && Sent(c, events[..k], id, vote)
    ensures Sent(c, events, id, vote)
  {
    var j :| 0 <= j <= k && Shows(NodeAt(c, events[..k][..j], vote.sender), id, EventOf(vote));
    assert events[..k][..j] == events[..j];
  }

  lemma SentNow(c: Setting, events: seq<Event>, id: CertificateId, vote: Vote)
    requires Shows(NodeAt(c, events, vote.sender), id, EventOf(vote))
    ensures Sent(c, events, id, vote)
  {
    assert events[..|events|] == events;
  }

  lemma {:induction false} ArrivedWasSent(c: Setting, events: seq<Event>, v: ValidatorId, id: CertificateId, vote: Vote)
    requires Genuine(c, events) && vote in VotesAt(events, v, id) && vote.sender in c.NonFaulty()
    ensures Sent(c, events, id, vote)
  {
    var before, last := events[..|events| - 1], events[|events| - 1];
    hide Sent, Genuine;
    GenuineBefore(c, events);
    if vote in VotesAt(before, v, id) {
      ArrivedWasSent(c, before, v, id, vote);
    } else {
      NewlyArrived(before, last, v, id, vote);
      assert events == before + [last];
      GenuineLast(c, events);
    }
    SentEarlier(c, events, |events| - 1, id, vote);
  }

  lemma GenuineBefore(c: Setting, events: seq<Event>)
    requires Genuine(c, events) && events != []
    ensures Genuine(c, events[..|events| - 1])
  {
    hide Sent;
    var before := events[..|events| - 1];
    forall i | 0 <= i < |before| ensures before[i] == events[i] && before[..i] == events[..i] {}
  }

  lemma GenuineLast(c: Setting, events: seq<Event>)
    requires Genuine(c, events) && events != []
    requires events[|events| - 1].action.OnVote? && events[|events| - 1].action.vote.sender in c.NonFaulty()
    ensures var a := events[|events| - 1].action; Sent(c, events[..|events| - 1], a.id, a.vote)
  {
    hide Sent;
  }

  lemma NewlyArrived(before: seq<Event>, last: Event, v: ValidatorId, id: CertificateId, vote: Vote)
    requires vote !in VotesAt(before, v, id) && vote in VotesAt(before + [last], v, id)
    ensures last.at == v && last.action == OnVote(id, vote)
  {
    assert (before + [last])[..|before|] == before;
    if last.at == v {
      ArrivedStep(Local(before, v), last.action, id);
    }
  }

  // ----- Whoever delivered has sent Ready -----

  lemma {:induction false} LocalStep(c: Setting, before: seq<Event>, last: Event, v: ValidatorId)
    ensures Local(before + [last], v) == Local(before, v) + (if last.at == v then [last.action] else [])
    ensures NodeAt(c, before + [last], v) ==
            if last.at == v then Step(NodeAt(c, before, v), last.action) else NodeAt(c, before, v)
  {
    assert (before + [last])[..|before|] == before;
    if last.at == v {
      ExecSnoc(c.validators, c.Thresholds(), Local(before, v), last.action);
    }
    hide Exec, Step;
  }

  lemma SoundAt(c: Setting, events: seq<Event>, v: ValidatorId)
    ensures TasksSound(NodeAt(c, events, v)) && NodeAt(c, events, v).validators == c.validators
  {
    EveryRun(c.validators, c.Thresholds(), Local(events, v));
  }

  lemma ReadyShows(n: Node, id: CertificateId)
    requires TasksSound(n) && id in n.running && n.running[id].state.status.IsReadySent()
    ensures Shows(n, id, ReadyEvent)
  {
    assert Sound(n.running[id].state, n.validators);
  }

  lemma {:induction false} DeliveredWasReady(c: Setting, events: seq<Event>, v: ValidatorId, id: CertificateId)
    requires Holds(c, events, v, id)
    ensures Sent(c, events, id, Ready(v))
  {
    NothingAtFirst(c, v, id);
    var before, last := events[..|events| - 1], events[|events| - 1];
    assert events == before + [last];
    LocalStep(c, before, last, v);
    if Holds(c, before, v, id) {
      DeliveredWasReady(c, before, v, id);
      SentEarlier(c, events, |events| - 1, id, Ready(v));
    } else {
      var n := NodeAt(c, before, v);
      SoundAt(c, before, v);
      SoundAt(c, events, v);
      StepDelivered(n, last.action);
      WrittenHere(n, last.action, id);
      hide Exec, Step, TasksSound, Written;
      ReadyAfterWrite(n, id);
      ReadyShows(NodeAt(c, events, v), id);
      SentNow(c, events, id, Ready(v));
    }
  }

  lemma NothingAtFirst(c: Setting, v: ValidatorId, id: CertificateId)
    ensures !Holds(c, [], v, id)
  {
    assert NodeAt(c, [], v) == Init(c.validators, c.Thresholds());
  }

  lemma ReadyAfterWrite(n: Node, id: CertificateId)
    requires Written(n, Poll(id)) != []
    ensures id in Step(n, Poll(id)).running && Step(n, Poll(id)).running[id].state.status.IsReadySent()
  {
    PolledState(n, id);
    DeliveredStatus(n.running[id].state, n.tasks[id][0]);
    PollStep(n, id);
    PersistShape(n, id);
    hide DoPoll, Apply, V.Deliver;
  }

  // ----- Quiet networks -----

  /** Every non-faulty validator holds the certificate or has handled what it has for it; others may be under way. */
  ghost predicate Quiet(c: Setting, events: seq<Event>, id: CertificateId)
    requires id in c.u
  {
    forall v :: v in c.NonFaulty() ==>
      Holds(c, events, v, id) || NodeProgress.Settled(NodeAt(c, events, v), c.u[id])
  }

  /**
   * Votes of this kind that non-faulty validators sent have arrived at all of them that do not
   * hold the certificate; the command loop of one that does may have dropped them.
   */
  ghost predicate AllArrived(c: Setting, events: seq<Event>, id: CertificateId, kind: DoubleEcho.Event) {
    forall v, vote: Vote :: v in c.NonFaulty() && vote.sender in c.NonFaulty() && EventOf(vote) == kind ==>
      Sent(c, events, id, vote) ==> Holds(c, events, v, id) || vote in VotesAt(events, v, id)
  }

  /**
   * The certificate, and its chain, were handed to every non-faulty validator, the Readies for them
   * arrived and were handled.
   */
  ghost predicate Spread(c: Setting, events: seq<Event>, id: CertificateId, k: nat)
    requires AtDepth(c.u, id, k)
    decreases k
  {
    && (forall v :: v in c.NonFaulty() ==> Handed(Local(events, v), c.u[id]))
    && AllArrived(c, events, id, ReadyEvent) && Quiet(c, events, id)
    && (k > 0 ==> Spread(c, events, c.u[id].prevId, k - 1))
  }

  /** The task of the certificate at `v` has counted what arrived, and it did not suffice. */
  ghost predicate StuckAt(c: Setting, events: seq<Event>, v: ValidatorId, id: CertificateId) {
    Stuck(c.validators, c.Thresholds(), NodeAt(c, events, v), id, VotesAt(events, v, id))
  }

  lemma {:induction false} EitherWay(c: Setting, events: seq<Event>, v: ValidatorId, id: CertificateId)
    requires Of(c.u, id, c.subnet) && Lawful(c, events) && Quiet(c, events, id) && v in c.NonFaulty()
    requires Handed(Local(events, v), c.u[id]) && V.PrevDelivered(NodeAt(c, events, v).store, c.u[id])
    ensures Holds(c, events, v, id) || StuckAt(c, events, v, id)
  {
    assert c.u[id].id == id;
    hide ForkFree, Genuine, Exec, AdmissibleRun, NodeProgress.Settled;
    if !Holds(c, events, v, id) {
      DeliveredOrStuck(c.validators, c.Thresholds(), c.u, Local(events, v), c.u[id]);
    }
  }

  /** Readies sent by these validators have been counted by a stuck task. */
  lemma ReadiesCounted(c: Setting, events: seq<Event>, v: ValidatorId, id: CertificateId, senders: set<ValidatorId>)
    requires StuckAt(c, events, v, id) && !Holds(c, events, v, id)
    requires v in c.NonFaulty() && senders <= c.NonFaulty()
    requires AllArrived(c, events, id, ReadyEvent) && forall w :: w in senders ==> Sent(c, events, id, Ready(w))
    ensures var s := NodeAt(c, events, v).running[id].state; s.networkSize - |s.ready| >= |senders|
  {
    hide NodeAt, Sent, Holds;
    var s, arrived := NodeAt(c, events, v).running[id].state, VotesAt(events, v, id);
    forall w | w in senders
      ensures w in c.validators - s.ready
    {
      assert EventOf(Ready(w)) == ReadyEvent;
      assert Ready(w) in arrived;
      assert w in ReadySenders(arrived);
    }
    SubsetSize(senders, c.validators - s.ready);
    TakenSize(c.validators, s.ready);
  }

  /** Enough Readies were sent: everybody who is not done has sent Ready too. */
  lemma ReadySpreads(c: Setting, events: seq<Event>, v: ValidatorId, id: CertificateId, senders: set<ValidatorId>)
    requires Holds(c, events, v, id) || StuckAt(c, events, v, id)
    requires v in c.NonFaulty() && senders <= c.NonFaulty() && |senders| >= c.Thresholds().ready
    requires AllArrived(c, events, id, ReadyEvent) && forall w :: w in senders ==> Sent(c, events, id, Ready(w))
    ensures Sent(c, events, id, Ready(v))
  {
    if Holds(c, events, v, id) {
      DeliveredWasReady(c, events, v, id);
    } else {
      ReadiesCounted(c, events, v, id, senders);
      hide AllArrived, NodeAt;
      StuckIsReady(c, events, v, id);
    }
  }

  lemma StuckIsReady(c: Setting, events: seq<Event>, v: ValidatorId, id: CertificateId)
    requires StuckAt(c, events, v, id)
    requires var s := NodeAt(c, events, v).running[id].state;
             ReadyDue(c.Thresholds(), s.networkSize - |s.echo|, s.networkSize - |s.ready|)
    ensures Sent(c, events, id, Ready(v))
  {
    SoundAt(c, events, v);
    hide TasksSound;
    ReadyShows(NodeAt(c, events, v), id);
    SentNow(c, events, id, Ready(v));
  }

  /** The Readies behind one delivery. */
  lemma QuorumSent(c: Setting, events: seq<Event>, first: ValidatorId, id: CertificateId)
    returns (senders: set<ValidatorId>)
    requires Lawful(c, events) && c.Bounded() && first in c.NonFaulty() && Holds(c, events, first, id)
    ensures senders <= c.NonFaulty() && |senders| >= c.Thresholds().ready
    ensures forall w :: w in senders ==> Sent(c, events, id, Ready(w))
  {
    var arrived := VotesAt(events, first, id);
    DeliveredQuorum(c.validators, c.Thresholds(), Local(events, first), id);
    hide Sent, Exec, AdmissibleRun;
    var quorum := c.validators * ReadySenders(arrived);
    senders := quorum - c.faulty;
    DeliveryQuorumAmplifies(quorum, c.faulty, c.Size());
    forall w | w in senders
      ensures Sent(c, events, id, Ready(w))
    {
      assert Ready(w) in arrived;
      ArrivedWasSent(c, events, first, id, Ready(w));
    }
  }

  /** Everybody has sent Ready: more Readies than one have been counted, and they deliver. */
  lemma AllReadyDelivers(c: Setting, events: seq<Event>, v: ValidatorId, id: CertificateId)
    requires c.Bounded() && c.Size() >= 2 && v in c.NonFaulty() && AllArrived(c, events, id, ReadyEvent)
    requires forall w :: w in c.NonFaulty() ==> Sent(c, events, id, Ready(w))
    ensures Holds(c, events, v, id) || !StuckAt(c, events, v, id)
  {
    TakenSize(c.validators, c.faulty);
    if StuckAt(c, events, v, id) && !Holds(c, events, v, id) {
      ReadiesCounted(c, events, v, id, c.NonFaulty());
    }
  }

  /** One level of the chain: everybody holds the predecessor, one holds the certificate, so everybody does. */
  lemma {:induction false} LevelFollows(c: Setting, events: seq<Event>, first: ValidatorId, id: CertificateId)
    requires Of(c.u, id, c.subnet) && Lawful(c, events) && c.Bounded() && Quiet(c, events, id)
    requires first in c.NonFaulty() && Holds(c, events, first, id) && AllArrived(c, events, id, ReadyEvent)
    requires forall v :: v in c.NonFaulty() ==> Handed(Local(events, v), c.u[id])
    requires forall v :: v in c.NonFaulty() ==> V.PrevDelivered(NodeAt(c, events, v).store, c.u[id])
    ensures forall v :: v in c.NonFaulty() ==> Holds(c, events, v, id)
  {
    var senders := QuorumSent(c, events, first, id);
    hide AllArrived, Sent, Handed, V.PrevDelivered, StuckAt, Holds;
    forall v | v in c.NonFaulty()
      ensures Sent(c, events, id, Ready(v)) && (Holds(c, events, v, id) || StuckAt(c, events, v, id))
    {
      EitherWay(c, events, v, id);
      ReadySpreads(c, events, v, id, senders);
    }
    hide Lawful, Quiet;
    forall v | v in c.NonFaulty()
      ensures Holds(c, events, v, id)
    {
      if c.Size() == 1 {
        SubsetSize(c.NonFaulty(), c.validators);
        OnlyOne(c.NonFaulty(), v, first);
      } else {
        AllReadyDelivers(c, events, v, id);
      }
    }
  }

  /** A validator that holds a certificate holds its predecessor. */
  lemma HoldsPredecessor(c: Setting, events: seq<Event>, v: ValidatorId, id: CertificateId)
    requires Of(c.u, id, c.subnet) && Lawful(c, events) && v in c.NonFaulty() && Holds(c, events, v, id)
    requires c.u[id].prevId != INITIAL_CERTIFICATE_ID
    ensures Holds(c, events, v, c.u[id].prevId)
  {
    var actions := Local(events, v);
    var log := Log(c.validators, c.Thresholds(), actions);
    EveryForkFreeRun(c.validators, c.Thresholds(), c.u, c.subnet, actions);
    assert c.u[id].id == id;
    hide Exec, Log, AdmissibleRun;
    PredecessorDelivered(log, c.u, c.u[id]);
  }

  /**
   * Totality of the whole. If one non-faulty validator holds a certificate, every non-faulty one
   * was handed its chain, and the Readies they sent for it have arrived and were handled by all
   * that do not hold it, then every non-faulty validator holds the certificate.
   */
  lemma {:induction false} EverybodyHolds(c: Setting, events: seq<Event>, first: ValidatorId, id: CertificateId, k: nat)
    requires Lawful(c, events) && c.Bounded() && Of(c.u, id, c.subnet)
    requires AtDepth(c.u, id, k) && Spread(c, events, id, k)
    requires first in c.NonFaulty() && Holds(c, events, first, id)
    ensures forall v :: v in c.NonFaulty() ==> Holds(c, events, v, id)
    decreases k
  {
    hide Lawful, Quiet, AllArrived, Handed;
    if k > 0 {
      PredecessorAtHome(c, events, id);
      HoldsPredecessor(c, events, first, id);
      EverybodyHolds(c, events, first, c.u[id].prevId, k - 1);
    }
    LevelFollows(c, events, first, id);
  }

  /** ... and at the same position: its depth. */
  lemma {:induction false} EverybodyStores(c: Setting, events: seq<Event>, first: ValidatorId, id: CertificateId,
                                           k: nat, v: ValidatorId)
    requires Lawful(c, events) && c.Bounded() && Of(c.u, id, c.subnet)
    requires AtDepth(c.u, id, k) && Spread(c, events, id, k)
    requires first in c.NonFaulty() && Holds(c, events, first, id) && v in c.NonFaulty()
    ensures At(NodeAt(c, events, v).store.tables, Source(c.u[id].source), k) == Some(id)
  {
    EverybodyHolds(c, events, first, id, k);
    HeldAtDepth(c, events, v, id, k);
  }

  lemma PredecessorAtHome(c: Setting, events: seq<Event>, id: CertificateId)
    requires Lawful(c, events) && Of(c.u, id, c.subnet) && c.u[id].prevId != INITIAL_CERTIFICATE_ID
    ensures Of(c.u, c.u[id].prevId, c.subnet)
  {
    ParentKnown(c.u, c.subnet, id);
  }

  lemma {:induction false} HeldAtDepth(c: Setting, events: seq<Event>, v: ValidatorId, id: CertificateId, k: nat)
    requires Of(c.u, id, c.subnet) && AtDepth(c.u, id, k)
    requires Lawful(c, events) && v in c.NonFaulty() && Holds(c, events, v, id)
    ensures At(NodeAt(c, events, v).store.tables, Source(c.u[id].source), k) == Some(id)
  {
    G.StoredByDepth(G.Run(c.validators, c.Thresholds(), Local(events, v)), c.u, id, k);
  }

  // ----- Validity -----

  lemma EchoShows(n: Node, u: Universe, s: SubnetId, id: CertificateId)
    requires TasksSound(n) && Partition(n, u, s) && Of(u, id, s) && id in n.tasks
    ensures Shows(n, id, EchoEvent)
  {
    if id in n.running {
      assert Sound(n.running[id].state, n.validators);
    } else {
      var q :| q in n.precedence && n.precedence[q].Id() == id;
      assert IsStart(n.precedence[q].state, n.validators);
    }
  }

  /** Whoever was handed a certificate has sent its Echo. */
  lemma {:induction false} HandedWasEchoed(c: Setting, events: seq<Event>, v: ValidatorId, id: CertificateId)
    requires Of(c.u, id, c.subnet) && Lawful(c, events) && v in c.NonFaulty() && Handed(Local(events, v), c.u[id])
    ensures Sent(c, events, id, Echo(v))
  {
    var before, last := events[..|events| - 1], events[|events| - 1];
    assert events == before + [last];
    LocalStep(c, before, last, v);
    if Handed(Local(before, v), c.u[id]) {
      LawfulBefore(c, events);
      HandedWasEchoed(c, before, v, id);
      SentEarlier(c, events, |events| - 1, id, Echo(v));
    } else {
      NewlyHanded(Local(before, v), last.action, c.u[id]);
      assert c.u[id].id == id;
      SoundAt(c, events, v);
      PartitionAt(c, events, v);
      BroadcastHasContext(NodeAt(c, before, v), c.u[id], last.action.needGossip);
      hide Lawful, Exec, Step, TasksSound, Partition;
      EchoShows(NodeAt(c, events, v), c.u, c.subnet, id);
      SentNow(c, events, id, Echo(v));
    }
  }

  lemma NewlyHanded(before: seq<Action>, last: Action, cert: Certificate)
    requires !Handed(before, cert) && Handed(before + [last], cert)
    ensures last.OnBroadcast? && last.certificate == cert
  {
    var gossip :| OnBroadcast(cert, gossip) in before + [last];
    assert OnBroadcast(cert, gossip) !in before;
  }

  lemma PartitionAt(c: Setting, events: seq<Event>, v: ValidatorId)
    requires Lawful(c, events) && v in c.NonFaulty()
    ensures Partition(NodeAt(c, events, v), c.u, c.subnet)
  {
    EveryForkFreeRun(c.validators, c.Thresholds(), c.u, c.subnet, Local(events, v));
  }

  lemma LawfulBefore(c: Setting, events: seq<Event>)
    requires Lawful(c, events) && events != []
    ensures Lawful(c, events[..|events| - 1])
  {
    var before, last := events[..|events| - 1], events[|events| - 1];
    assert events == before + [last];
    forall v | v in c.NonFaulty()
      ensures AdmissibleRun(c.validators, c.Thresholds(), c.u, c.subnet, Local(before, v))
    {
      LocalStep(c, before, last, v);
      if last.at == v {
        assert Local(events, v)[..|Local(events, v)| - 1] == Local(before, v);
      }
    }
    GenuineBefore(c, events);
    hide ForkFree, Genuine, AdmissibleRun;
  }

  lemma EchoesCounted(c: Setting, events: seq<Event>, v: ValidatorId, id: CertificateId)
    requires StuckAt(c, events, v, id) && !Holds(c, events, v, id) && v in c.NonFaulty()
    requires AllArrived(c, events, id, EchoEvent) && forall w :: w in c.NonFaulty() ==> Sent(c, events, id, Echo(w))
    ensures var s := NodeAt(c, events, v).running[id].state; s.networkSize - |s.echo| >= |c.NonFaulty()|
  {
    hide NodeAt, Sent, Holds;
    var s, arrived := NodeAt(c, events, v).running[id].state, VotesAt(events, v, id);
    forall w | w in c.NonFaulty()
      ensures w in c.validators - s.echo
    {
      assert EventOf(Echo(w)) == EchoEvent;
      assert Echo(w) in arrived;
      assert w in EchoSenders(arrived);
    }
    SubsetSize(c.NonFaulty(), c.validators - s.echo);
    TakenSize(c.validators, s.echo);
  }

  lemma EchoSpreads(c: Setting, events: seq<Event>, v: ValidatorId, id: CertificateId)
    requires Holds(c, events, v, id) || StuckAt(c, events, v, id)
    requires v in c.NonFaulty() && |c.NonFaulty()| >= c.Thresholds().echo
    requires AllArrived(c, events, id, EchoEvent) && forall w :: w in c.NonFaulty() ==> Sent(c, events, id, Echo(w))
    ensures Sent(c, events, id, Ready(v))
  {
    if Holds(c, events, v, id) {
      DeliveredWasReady(c, events, v, id);
    } else {
      EchoesCounted(c, events, v, id);
      hide AllArrived, NodeAt;
      StuckIsReady(c, events, v, id);
    }
  }

  lemma AllVotesDeliver(c: Setting, events: seq<Event>, v: ValidatorId, id: CertificateId)
    requires v in c.NonFaulty() && |c.NonFaulty()| >= c.Thresholds().echo && |c.NonFaulty()| >= c.Thresholds().delivery
    requires AllArrived(c, events, id, EchoEvent) && AllArrived(c, events, id, ReadyEvent)
    requires forall w :: w in c.NonFaulty() ==> Sent(c, events, id, Echo(w)) && Sent(c, events, id, Ready(w))
    ensures Holds(c, events, v, id) || !StuckAt(c, events, v, id)
  {
    if StuckAt(c, events, v, id) && !Holds(c, events, v, id) {
      ReadiesCounted(c, events, v, id, c.NonFaulty());
      EchoesCounted(c, events, v, id);
    }
  }

  lemma {:induction false} LevelDelivers(c: Setting, events: seq<Event>, id: CertificateId)
    requires Of(c.u, id, c.subnet) && Lawful(c, events) && c.Bounded() && Quiet(c, events, id)
    requires AllArrived(c, events, id, EchoEvent) && AllArrived(c, events, id, ReadyEvent)
    requires forall v :: v in c.NonFaulty() ==> Handed(Local(events, v), c.u[id])
    requires forall v :: v in c.NonFaulty() ==> V.PrevDelivered(NodeAt(c, events, v).store, c.u[id])
    ensures forall v :: v in c.NonFaulty() ==> Holds(c, events, v, id)
  {
    TakenSize(c.validators, c.faulty);
    NonFaultySuffice(c.Size(), |c.faulty|);
    hide AllArrived, Sent, Handed, V.PrevDelivered, StuckAt, Holds, Lawful, Quiet;
    forall v | v in c.NonFaulty()
      ensures Sent(c, events, id, Echo(v)) && (Holds(c, events, v, id) || StuckAt(c, events, v, id))
    {
      HandedWasEchoed(c, events, v, id);
      EitherWay(c, events, v, id);
    }
    forall v | v in c.NonFaulty() ensures Sent(c, events, id, Ready(v)) { EchoSpreads(c, events, v, id); }
    forall v | v in c.NonFaulty() ensures Holds(c, events, v, id) { AllVotesDeliver(c, events, v, id); }
  }

  /** Echoes of the whole chain arrived as well. */
  ghost predicate Echoed(c: Setting, events: seq<Event>, id: CertificateId, k: nat)
    requires AtDepth(c.u, id, k)
    decreases k
  {
    AllArrived(c, events, id, EchoEvent) && (k > 0 ==> Echoed(c, events, c.u[id].prevId, k - 1))
  }

  /**
   * Validity of the whole. Once every non-faulty validator was handed the chain up to a
   * certificate, and the votes they sent for it have arrived and were handled by all that do not
   * hold it, every non-faulty validator holds the certificate, whatever the faulty ones did.
   */
  lemma {:induction false} EverybodyDelivers(c: Setting, events: seq<Event>, id: CertificateId, k: nat)
    requires Lawful(c, events) && c.Bounded() && Of(c.u, id, c.subnet)
    requires AtDepth(c.u, id, k) && Spread(c, events, id, k) && Echoed(c, events, id, k)
    ensures forall v :: v in c.NonFaulty() ==> Holds(c, events, v, id)
    decreases k
  {
    hide Lawful, Quiet, AllArrived, Handed;
    if k > 0 {
      PredecessorAtHome(c, events, id);
      EverybodyDelivers(c, events, c.u[id].prevId, k - 1);
    }
    LevelDelivers(c, events, id);
  }
}
