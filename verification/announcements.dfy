/** What a validator tells its clients about a delivery, and what its streams hold. */
module Announcements {
  import opened Wrappers
  import opened Certificates
  import opened Quorum
  import opened DoubleEcho
  import opened FullNodeStore
  import opened TaskManager
  import opened NodeRuns
  import opened Chains
  import opened ForkFreeRuns
  import V = ValidatorStore

  ghost function NewlySent(n: Node, a: Action): seq<DeliveredWithPositions> {
    if a.Poll? then Sent(n, a.id) else []
  }

  /** Everything the tasks of a run have sent to the clients, in order. */
  ghost function AllSent(validators: set<ValidatorId>, params: Params, actions: seq<Action>)
    : seq<DeliveredWithPositions>
  {
    if actions == [] then []
    else
      var before := actions[..|actions| - 1];
      AllSent(validators, params, before) + NewlySent(Exec(validators, params, before), actions[|actions| - 1])
  }

  /** The message tells the positions of the `i`-th delivery: how long its streams were before it. */
  ghost predicate Tells(log: seq<CertificateDelivered>, i: nat, m: DeliveredWithPositions) {
    && i < |log| && m.delivered == log[i]
    && var c := log[i].certificate;
       && m.positions.source == SourcePosition(c.source, Length(log[..i], Source(c.source)))
       && (forall x :: x in m.positions.targets <==> x in c.targets)
       && forall x :: x in m.positions.targets ==>
            m.positions.targets[x] == TargetPosition(x, c.source, Length(log[..i], Target(x, c.source)))
  }

  lemma SentIs(n: Node, a: Action)
    requires NewlySent(n, a) != []
    ensures a.Poll? && CanPoll(n, a.id)
    ensures var d := Delivering(n, a.id);
            var r := V.Deliver(n.store, d).result;
            r.Ok? && NewlySent(n, a) == [DeliveredWithPositions(d, r.value)] && Written(n, a) == [d]
  {
    V.DeliverTables(n.store, Delivering(n, a.id));
    hide V.Deliver, Insert, Delivering, Apply;
  }

  lemma SentTells(n: Node, log: seq<CertificateDelivered>, a: Action)
    requires RunInv(n, log) && NewlySent(n, a) != []
    ensures NewlySent(n, a) == [NewlySent(n, a)[0]] && Written(n, a) == [NewlySent(n, a)[0].delivered]
    ensures Tells(log + Written(n, a), |log|, NewlySent(n, a)[0])
  {
    hide NewlySent, Written, RunInv, V.Deliver, Delivering, Members, Step;
    SentIs(n, a);
    RunFacts(n, log);
    WrittenInOrder(n, log, a);
    hide Represents, InOrder, Tells, TasksSound, NeverAhead;
    AnswerTells(n.store, log, Delivering(n, a.id));
  }

  lemma AnswerTells(s: V.Store, log: seq<CertificateDelivered>, d: CertificateDelivered)
    requires Represents(s.tables, log) && InOrder(log, d) && V.Deliver(s, d).result.Ok?
    ensures Tells(log + [d], |log|, DeliveredWithPositions(d, V.Deliver(s, d).result.value))
  {
    hide Represents, V.Deliver, Members, TargetFull, V.StaleSuccessor;
    V.DeliverAnswers(s, log, d);
    assert (log + [d])[..|log|] == log;
  }

  lemma RunFacts(n: Node, log: seq<CertificateDelivered>)
    requires RunInv(n, log)
    ensures TasksSound(n) && Represents(n.store.tables, log) && NeverAhead(n, log)
  {
  }

  lemma TellsLater(log: seq<CertificateDelivered>, more: seq<CertificateDelivered>, i: nat, m: DeliveredWithPositions)
    requires Tells(log, i, m)
    ensures Tells(log + more, i, m)
  {
    assert (log + more)[..i] == log[..i] && (log + more)[i] == log[i];
  }

  /** Where each message stands in the log: the messages follow the order of the deliveries. */
  ghost predicate Follow(log: seq<CertificateDelivered>, sent: seq<DeliveredWithPositions>, places: seq<nat>) {
    && |places| == |sent|
    && (forall j :: 0 <= j < |sent| ==> Tells(log, places[j], sent[j]))
    && (forall j, k :: 0 <= j < k < |places| ==> places[j] < places[k])
  }

  lemma FollowMore(log: seq<CertificateDelivered>, sent: seq<DeliveredWithPositions>, places: seq<nat>,
                   more: seq<CertificateDelivered>)
    requires Follow(log, sent, places)
    ensures Follow(log + more, sent, places)
  {
    hide Tells;
    forall j | 0 <= j < |sent|
      ensures Tells(log + more, places[j], sent[j])
    {
      TellsLater(log, more, places[j], sent[j]);
    }
  }

  lemma FollowNext(log: seq<CertificateDelivered>, sent: seq<DeliveredWithPositions>, places: seq<nat>,
                   d: CertificateDelivered, m: DeliveredWithPositions)
    requires Follow(log, sent, places) && Tells(log + [d], |log|, m)
    ensures Follow(log + [d], sent + [m], places + [|log|])
  {
    FollowMore(log, sent, places, [d]);
    assert forall j :: 0 <= j < |places| ==> places[j] < |log|;
    hide Tells;
  }

  /**
   * In every run, whatever is broadcast: each message to the clients is about another delivery of the
   * log, in order, and names its place in the source stream and exactly its places in the target
   * streams.
   */
  lemma {:induction false} MessagesFollowLog(validators: set<ValidatorId>, params: Params, actions: seq<Action>)
    returns (places: seq<nat>)
    ensures Follow(Log(validators, params, actions), AllSent(validators, params, actions), places)
  {
    if actions == [] {
      places := [];
    } else {
      var before, last := actions[..|actions| - 1], actions[|actions| - 1];
      var n, log := Exec(validators, params, before), Log(validators, params, before);
      var sent := AllSent(validators, params, before);
      places := MessagesFollowLog(validators, params, before);
      EveryRun(validators, params, before);
      hide Exec, Follow, Tells, RunInv, Written, NewlySent;
      if NewlySent(n, last) == [] {
        assert sent + NewlySent(n, last) == sent;
        FollowMore(log, sent, places, Written(n, last));
      } else {
        SentTells(n, log, last);
        FollowNext(log, sent, places, Written(n, last)[0], NewlySent(n, last)[0]);
        places := places + [|log|];
      }
    }
  }

  // ----- What the streams hold -----

  lemma {:induction false} ToldIsStored(t: Tables, log: seq<CertificateDelivered>, i: nat, m: DeliveredWithPositions)
    requires Represents(t, log) && Tells(log, i, m)
    ensures var c := m.delivered.certificate;
            && At(t, Source(c.source), m.positions.source.position) == Some(c.id)
            && m.positions.source.subnet == c.source
            && forall x :: x in c.targets ==>
                 && x in m.positions.targets && m.positions.targets[x].target == x
                 && m.positions.targets[x].source == c.source
                 && At(t, Target(x, c.source), m.positions.targets[x].position) == Some(c.id)
  {
    var c := m.delivered.certificate;
    PlaceInStream(log, i, Source(c.source));
    forall x | x in c.targets
      ensures At(t, Target(x, c.source), Length(log[..i], Target(x, c.source))) == Some(c.id)
    {
      PlaceInStream(log, i, Target(x, c.source));
      hide Members, At;
    }
    hide Members, At;
  }

  /**
   * A client that was told positions finds the certificate there: in every run, in the source stream
   * and in the stream to each of its targets.
   */
  lemma {:induction false} ToldIsFound(validators: set<ValidatorId>, params: Params, actions: seq<Action>,
                                       m: DeliveredWithPositions)
    requires m in AllSent(validators, params, actions)
    ensures var t, c := Exec(validators, params, actions).store.tables, m.delivered.certificate;
            && At(t, Source(c.source), m.positions.source.position) == Some(c.id)
            && forall x :: x in c.targets ==>
                 x in m.positions.targets && At(t, Target(x, c.source), m.positions.targets[x].position) == Some(c.id)
  {
    var places := MessagesFollowLog(validators, params, actions);
    EveryRun(validators, params, actions);
    hide Exec, Log, AllSent, At, Tells, Represents;
    var j :| 0 <= j < |AllSent(validators, params, actions)| && AllSent(validators, params, actions)[j] == m;
    ToldIsStored(Exec(validators, params, actions).store.tables, Log(validators, params, actions), places[j], m);
  }

  // ----- A subnet that behaves hears of everything -----

  /** The deliveries of the subnet among the messages. */
  ghost function Heard(sent: seq<DeliveredWithPositions>, s: SubnetId): seq<CertificateDelivered> {
    if sent == [] then []
    else
      var before, last := Heard(sent[..|sent| - 1], s), sent[|sent| - 1];
      if last.delivered.certificate.source == s then before + [last.delivered] else before
  }

  lemma {:induction false} HeardMore(sent: seq<DeliveredWithPositions>, m: DeliveredWithPositions, s: SubnetId)
    ensures Heard(sent + [m], s) == Heard(sent, s) + (if m.delivered.certificate.source == s then [m.delivered] else [])
  {
    assert (sent + [m])[..|sent|] == sent;
  }

  /** Whatever is written for the subnet is sent. */
  lemma WrittenIsSent(n: Node, log: seq<CertificateDelivered>, u: Universe, s: SubnetId, a: Action)
    requires FullInv(n, log, u, s) && Written(n, a) != [] && Written(n, a)[0].certificate.source == s
    ensures NewlySent(n, a) != []
  {
    WrittenAtHome(n, log, u, s, a);
    hide FullInv, Delivering, V.Deliver;
    PersistSucceeds(n, log, u, s, a.id);
  }

  lemma WrittenAtHome(n: Node, log: seq<CertificateDelivered>, u: Universe, s: SubnetId, a: Action)
    requires FullInv(n, log, u, s) && Written(n, a) != [] && Written(n, a)[0].certificate.source == s
    ensures a.Poll? && Persists(n, a.id) && Of(u, a.id, s)
  {
    WrittenProven(n, a);
    assert n.running[a.id].Id() == a.id && Known(u, n.running[a.id].state.certificate);
  }

  /**
   * For every subnet that does not fork or come again, whatever others do: the clients are told of each
   * of its deliveries once, in the order of its stream.
   */
  lemma {:induction false} EveryDeliveryIsSent(validators: set<ValidatorId>, params: Params, u: Universe, s: SubnetId,
                                               actions: seq<Action>)
    requires ForkFree(u, s) && |u| <= MAX_U64 && AdmissibleRun(validators, params, u, s, actions)
    ensures Heard(AllSent(validators, params, actions), s) == Members(Log(validators, params, actions), Source(s))
  {
    if actions != [] {
      var before, last := actions[..|actions| - 1], actions[|actions| - 1];
      var n, log := Exec(validators, params, before), Log(validators, params, before);
      EveryDeliveryIsSent(validators, params, u, s, before);
      EveryForkFreeRun(validators, params, u, s, before);
      hide Exec, AdmissibleRun, ForkFree, FullInv, Heard, Members, Written, NewlySent;
      StepHeard(n, log, u, s, AllSent(validators, params, before), last);
    }
  }

  lemma {:induction false} StepHeard(n: Node, log: seq<CertificateDelivered>, u: Universe, s: SubnetId,
                                     sent: seq<DeliveredWithPositions>, a: Action)
    requires FullInv(n, log, u, s) && Heard(sent, s) == Members(log, Source(s))
    ensures Heard(sent + NewlySent(n, a), s) == Members(log + Written(n, a), Source(s))
  {
    FullIsRun(n, log, u, s);
    WrittenOne(n, a);
    hide FullInv, RunInv, Heard, Members, Written, NewlySent, Tells;
    if NewlySent(n, a) != [] {
      SentTells(n, log, a);
      HeardMore(sent, NewlySent(n, a)[0], s);
      Append(log, Written(n, a)[0], Source(s));
    } else {
      assert sent + NewlySent(n, a) == sent;
      if Written(n, a) == [] {
        assert log + Written(n, a) == log;
      } else {
        assert Written(n, a) == [Written(n, a)[0]];
        if Written(n, a)[0].certificate.source == s {
          WrittenIsSent(n, log, u, s, a);
        }
        Append(log, Written(n, a)[0], Source(s));
      }
    }
  }

  lemma FullIsRun(n: Node, log: seq<CertificateDelivered>, u: Universe, s: SubnetId)
    requires FullInv(n, log, u, s)
    ensures RunInv(n, log)
  {
  }
}
