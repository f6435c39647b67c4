/**
 * What happens to a certificate that is submitted to the command loop twice: in every network
 * that can deliver at all there is a schedule in which the task manager takes it up again after
 * it was delivered.
 */
module Resubmission {
  import opened Wrappers
  import opened Certificates
  import opened Quorum
  import opened DoubleEcho
  import opened VoteOrder
  import opened FullNodeStore
  import opened TaskManager
  import opened NodeRuns
  import opened VoteRuns
  import opened Chains
  import opened ForkFreeRuns
  import V = ValidatorStore
  import C = CommandLoop
  import T = Timeliness

  // ----- Votes that deliver -----

  /** Some votes of the validators lead to delivery. */
  predicate Reachable(n: nat, p: Params) {
    1 <= n && p.delivery <= n && (p.echo <= n || p.ready <= n)
  }

  /** A state that has taken a vote has acted on what is due. */
  ghost predicate Woken(s: State) {
    && !s.status.Pending? && |s.echo| <= s.networkSize && |s.ready| <= s.networkSize
    && (s.status == EchoSent ==>
          || |s.echo| + |s.ready| == 2 * s.networkSize
          || !SomethingDue(s.params, s.networkSize - |s.echo|, s.networkSize - |s.ready|))
  }

  lemma ApplyWoken(s: State, vote: Vote)
    requires Woken(s)
    ensures Woken(Apply(s, vote).state)
  {
    hide Woken;
    match vote
    case Echo(v) =>
      if v in s.echo {
        RemoveOne(s.echo, v);
        UpdateWoken(s, s.(echo := s.echo - {v}));
      }
    case Ready(v) =>
      if v in s.ready {
        RemoveOne(s.ready, v);
        UpdateWoken(s, s.(ready := s.ready - {v}, readies := s.readies + {v}));
      }
  }

  lemma UpdateWoken(s: State, t: State)
    requires Woken(s) && t.networkSize == s.networkSize && t.params == s.params && t.status == s.status
    requires |t.echo| <= |s.echo| && |t.ready| <= |s.ready|
    ensures Woken(UpdateStatus(t).state)
  {
  }

  lemma {:induction false} AllWoken(s: State, votes: seq<Vote>)
    requires Woken(s)
    ensures Woken(ApplyAll(s, votes))
  {
    if votes != [] {
      AllWoken(s, votes[..|votes| - 1]);
      hide Woken, Apply;
      ApplyWoken(ApplyAll(s, votes[..|votes| - 1]), votes[|votes| - 1]);
    }
  }

  lemma {:induction false} ApplyJoined(s: State, a: seq<Vote>, b: seq<Vote>)
    ensures ApplyAll(s, a + b) == ApplyAll(ApplyAll(s, a), b)
  {
    if b == [] {
      assert a + b == a;
    } else {
      assert (a + b)[..|a + b| - 1] == a + b[..|b| - 1];
      ApplyJoined(s, a, b[..|b| - 1]);
      hide Apply;
    }
  }

  /** One vote of every given validator. */
  lemma {:induction false} VotesOf(senders: set<ValidatorId>, readies: bool) returns (votes: seq<Vote>)
    ensures EchoSenders(votes) == (if readies then {} else senders)
    ensures ReadySenders(votes) == (if readies then senders else {})
    ensures forall i :: 0 <= i < |votes| ==> votes[i].sender in senders && votes[i].Ready? == readies
    decreases senders
  {
    if senders == {} {
      votes := [];
    } else {
      var v :| v in senders;
      var before := VotesOf(senders - {v}, readies);
      var last := if readies then Ready(v) else Echo(v);
      SendersOfAppend(before, last);
      votes := before + [last];
      hide EchoSenders, ReadySenders;
    }
  }

  /**
   * All Readies are in: with the next Echo a state that has sent Ready delivers, and one that has delivered
   * sends it.
   */
  ghost predicate Ripening(s: State, touched: bool) {
    && s.ready == {} && s.networkSize >= s.params.delivery && |s.echo| <= s.networkSize
    && (if touched
        then s.status == DeliveredWithReadySent
             || (s.status == Delivered && !ReadyDue(s.params, s.networkSize - |s.echo|, s.networkSize))
        else s.status in {ReadySent, Delivered, DeliveredWithReadySent})
  }

  lemma EchoRipens(s: State, touched: bool, v: ValidatorId)
    requires Ripening(s, touched) && v in s.echo
    ensures Ripening(Apply(s, Echo(v)).state, true)
  {
    RemoveOne(s.echo, v);
  }

  lemma LateEchoRipens(s: State, v: ValidatorId)
    requires Ripening(s, true)
    ensures Ripening(Apply(s, Echo(v)).state, true)
  {
    if v in s.echo {
      EchoRipens(s, true, v);
    }
  }

  lemma {:induction false} EchoesRipen(s: State, votes: seq<Vote>)
    requires Ripening(s, false) && votes != [] && votes[0].sender in s.echo
    requires forall i :: 0 <= i < |votes| ==> votes[i].Echo?
    ensures Ripening(ApplyAll(s, votes), true)
  {
    var before, last := votes[..|votes| - 1], votes[|votes| - 1];
    assert votes == before + [last];
    ApplyLast(s, before, last);
    hide Ripening, Apply;
    if before == [] {
      EchoRipens(s, false, last.sender);
    } else {
      EchoesRipen(s, before);
      LateEchoRipens(ApplyAll(s, before), last.sender);
    }
  }

  /** Taken in this order the votes lead to delivery. */
  ghost predicate Deliver(s: State, votes: seq<Vote>) {
    ApplyAll(s, votes).status == DeliveredWithReadySent
  }

  /** Readies of everybody and then Echoes of everybody deliver. */
  lemma DeliveringVotes(s: State, validators: set<ValidatorId>) returns (votes: seq<Vote>)
    requires IsStart(s, validators) && Reachable(|validators|, s.params)
    ensures (forall i :: 0 <= i < |votes| ==> votes[i].sender in validators) && Deliver(s, votes)
  {
    var readies := VotesOf(validators, true);
    var echoes := VotesOf(validators, false);
    votes := readies + echoes;
    hide ApplyAll, EchoSenders, ReadySenders, Ripening;
    AfterReadies(s, validators, readies);
    FirstEcho(validators, echoes);
    EchoesRipen(ApplyAll(s, readies), echoes);
    ApplyJoined(s, readies, echoes);
    AllTaken(validators, readies, echoes);
    SendersTaken(s, validators, votes);
    Ripe(ApplyAll(s, votes), validators);
  }

  lemma {:induction false} AfterReadies(s: State, validators: set<ValidatorId>, readies: seq<Vote>)
    requires IsStart(s, validators) && Reachable(|validators|, s.params)
    requires EchoSenders(readies) == {} && ReadySenders(readies) == validators
    ensures Ripening(ApplyAll(s, readies), false) && ApplyAll(s, readies).echo == validators
  {
    SendersTaken(s, validators, readies);
    AllWoken(s, readies);
    hide ApplyAll, EchoSenders, ReadySenders;
    assert validators - {} == validators && validators - validators == {};
  }

  lemma Ripe(s: State, validators: set<ValidatorId>)
    requires Ripening(s, true) && s.echo == {} && s.networkSize == |validators| && Reachable(|validators|, s.params)
    ensures s.status == DeliveredWithReadySent
  {
  }

  lemma AllTaken(validators: set<ValidatorId>, readies: seq<Vote>, echoes: seq<Vote>)
    requires ReadySenders(readies) == validators == EchoSenders(echoes)
    ensures validators - EchoSenders(readies + echoes) == {}
  {
    forall v | v in validators
      ensures v in EchoSenders(readies + echoes)
    {
      assert Echo(v) in echoes;
      assert Echo(v) in readies + echoes;
    }
  }

  lemma FirstEcho(validators: set<ValidatorId>, echoes: seq<Vote>)
    requires EchoSenders(echoes) == validators != {}
    ensures echoes != []
  {
  }

  // ----- A validator behind its command loop -----

  /** The certificates that exist, and the subnet that is followed. */
  datatype Arena = Arena(validators: set<ValidatorId>, params: Params, u: Universe, subnet: SubnetId) {
    ghost predicate Sane() {
      ForkFree(u, subnet) && |u| <= MAX_U64 && Reachable(|validators|, params)
    }

    ghost function After(events: seq<C.Event>): C.Loop { C.Exec(validators, params, events) }

    /** Exactly these certificates of the subnet were commanded, none of them too often. */
    ghost predicate Commands(events: seq<C.Event>, ids: seq<CertificateId>) {
      T.KnownEvents(u, events) && T.Commanded(events, subnet) == ids && T.NoRepeat(u, ids)
    }

    /** The task of a certificate that nothing has happened to. */
    ghost function Untouched(id: CertificateId): Task
      requires id in u
    {
      Task(Start(u[id], validators, params, false), [])
    }
  }

  lemma {:induction false} OneEvent(a: Arena, events: seq<C.Event>, e: C.Event)
    ensures a.After(events + [e]) == C.Step(a.After(events), e)
    ensures T.KnownEvents(a.u, events) && T.KnownEvent(a.u, e) ==> T.KnownEvents(a.u, events + [e])
    ensures T.Commanded(events + [e], a.subnet) == T.Commanded(events, a.subnet) + T.NewCommand(e, a.subnet)
  {
    assert (events + [e])[..|events|] == events;
    hide C.Step, T.KnownEvent;
  }

  /** Nothing but a command changes what was commanded. */
  lemma OneMore(a: Arena, events: seq<C.Event>, ids: seq<CertificateId>, e: C.Event)
    requires a.Commands(events, ids) && T.KnownEvent(a.u, e) && T.NewCommand(e, a.subnet) == []
    ensures a.Commands(events + [e], ids) && a.After(events + [e]) == C.Step(a.After(events), e)
  {
    OneEvent(a, events, e);
    assert ids + [] == ids;
    hide C.Exec, C.Step, T.Commanded, T.KnownEvent;
  }

  /** What is known of the validator when nothing was commanded too often. */
  lemma InvariantNow(a: Arena, events: seq<C.Event>, ids: seq<CertificateId>) returns (log: seq<CertificateDelivered>)
    requires a.Sane() && a.Commands(events, ids)
    ensures FullInv(a.After(events).node, log, a.u, a.subnet)
  {
    hide ForkFree, C.Exec, T.KnownEvents, T.Commanded, T.NoRepeat, FullInv, Log, T.TimelyRun;
    T.OnlyTimely(a.validators, a.params, a.u, a.subnet, events);
    T.TimelyInvariant(a.validators, a.params, a.u, a.subnet, events);
    log := Log(a.validators, a.params, C.Trace(a.validators, a.params, events));
  }

  /** The loop runs, has forwarded everything and read no completion; no vote waits for its certificate. */
  ghost predicate Current(l: C.Loop, a: Arena) {
    && l.open && l.inbox == [] && l.delivered == {}
    && l.node.validators == a.validators && l.node.params == a.params
    && l.node.buffered == map[] && l.node.finished == map[]
  }

  // ----- The commands come in -----

  /** The certificates of `seen` have come in, and nothing else has happened. */
  ghost predicate Lined(l: C.Loop, a: Arena, seen: seq<CertificateId>) {
    && Current(l, a) && l.node.store == V.EMPTY_STORE
    && (forall id :: id in l.node.tasks <==> id in seen)
    && forall id :: id in seen ==> Of(a.u, id, a.subnet) && InLine(l, a, id)
  }

  /** The certificate runs if it is a first one, and waits for its predecessor otherwise. */
  ghost predicate InLine(l: C.Loop, a: Arena, id: CertificateId)
    requires id in a.u
  {
    && id in l.node.tasks && l.node.tasks[id] == []
    && (if a.u[id].prevId == INITIAL_CERTIFICATE_ID
        then id in l.node.running && l.node.running[id] == a.Untouched(id)
        else Awaits(l, a, a.u[id].prevId, id))
  }

  ghost predicate Awaits(l: C.Loop, a: Arena, q: CertificateId, id: CertificateId)
    requires id in a.u
  {
    q in l.node.precedence && l.node.precedence[q] == a.Untouched(id)
  }

  lemma TakeUp(l: C.Loop, a: Arena, c: Certificate)
    requires Current(l, a) && a.validators != {}
    ensures C.Step(C.Step(l, C.OnCommand(C.Broadcast(c, false))), C.HandleMessage) ==
            l.(node := DoBroadcast(l.node, c, false))
  {
    hide DoBroadcast;
    assert l.completions + [] == l.completions;
  }

  lemma LineUp(l: C.Loop, a: Arena, seen: seq<CertificateId>, id: CertificateId)
    requires Lined(l, a, seen) && a.Sane() && Of(a.u, id, a.subnet)
    ensures Lined(l.(node := DoBroadcast(l.node, a.u[id], false)), a, seen + [id])
  {
    var n', l' := DoBroadcast(l.node, a.u[id], false), l.(node := DoBroadcast(l.node, a.u[id], false));
    assert a.u[id].id == id;
    if id in l.node.tasks {
      Rebroadcast(l.node, a.u[id], false);
    } else {
      BroadcastShape(l.node, a.u[id], false);
      assert NewTask(l.node, a.u[id], false) == a.Untouched(id);
      hide DoBroadcast, InLine, ForkFree;
      forall x | x in seen + [id]
        ensures Of(a.u, x, a.subnet) && InLine(l', a, x)
      {
        if x == id {
          NewInLine(l, l', a, id);
        } else {
          OtherPredecessor(a, x, id);
          StillInLine(l, l', a, x, id);
        }
      }
    }
  }

  /** What a certificate that comes in does to the collections while nothing is delivered. */
  ghost predicate ComesIn(l: C.Loop, l': C.Loop, a: Arena, id: CertificateId)
    requires id in a.u
  {
    && l'.node.tasks == l.node.tasks[id := []]
    && (if a.u[id].prevId == INITIAL_CERTIFICATE_ID
        then l'.node.running == l.node.running[id := a.Untouched(id)] && l'.node.precedence == l.node.precedence
        else && l'.node.running == l.node.running
             && l'.node.precedence == l.node.precedence[a.u[id].prevId := a.Untouched(id)])
  }

  lemma NewInLine(l: C.Loop, l': C.Loop, a: Arena, id: CertificateId)
    requires id in a.u && ComesIn(l, l', a, id)
    ensures InLine(l', a, id)
  {
  }

  lemma StillInLine(l: C.Loop, l': C.Loop, a: Arena, x: CertificateId, id: CertificateId)
    requires id in a.u && x in a.u && x != id && a.u[x].prevId != a.u[id].prevId
    requires InLine(l, a, x) && ComesIn(l, l', a, id)
    ensures InLine(l', a, x)
  {
  }

  lemma OtherPredecessor(a: Arena, x: CertificateId, y: CertificateId)
    requires ForkFree(a.u, a.subnet) && Of(a.u, x, a.subnet) && Of(a.u, y, a.subnet) && x != y
    ensures a.u[x].prevId != a.u[y].prevId
  {
    if a.u[x].prevId == a.u[y].prevId {
      OnlyChild(a.u, a.subnet, x, y);
    }
  }

  /** A schedule that commands the certificates and hands them over. */
  lemma {:induction false} CommandAll(a: Arena, ids: seq<CertificateId>) returns (events: seq<C.Event>)
    requires a.Sane() && T.NoRepeat(a.u, ids) && forall i :: 0 <= i < |ids| ==> Of(a.u, ids[i], a.subnet)
    ensures a.Commands(events, ids) && Lined(a.After(events), a, ids)
  {
    if ids == [] {
      events := [];
    } else {
      var before, last := ids[..|ids| - 1], ids[|ids| - 1];
      assert ids == before + [last];
      T.NoRepeatBefore(a.u, before, [last]);
      assert Known(a.u, a.u[last]) by { assert Of(a.u, last, a.subnet) && a.u[last].id == last; }
      events := CommandAll(a, before);
      hide ForkFree, C.Exec, T.KnownEvents, T.Commanded, T.NoRepeat, C.Step, Lined, DoBroadcast;
      var l, command := a.After(events), C.OnCommand(C.Broadcast(a.u[last], false));
      LinedIsCurrent(l, a, before);
      TakeUp(l, a, a.u[last]);
      LineUp(l, a, before, last);
      OneEvent(a, events, command);
      OneMore(a, events + [command], ids, C.HandleMessage);
      events := events + [command] + [C.HandleMessage];
    }
  }

  lemma LinedIsCurrent(l: C.Loop, a: Arena, seen: seq<CertificateId>)
    requires Lined(l, a, seen)
    ensures Current(l, a)
  {
  }

  // ----- One certificate is delivered -----

  /** Like `l`, but the task of the certificate is in state `st` with `sink` to take. */
  ghost function With(l: C.Loop, id: CertificateId, st: State, sink: seq<Vote>): C.Loop {
    l.(node := l.node.(tasks := l.node.tasks[id := sink], running := l.node.running[id := Task(st, [])]))
  }

  /** The task can take votes. */
  ghost predicate Booted(l: C.Loop, a: Arena, c: Certificate, st: State) {
    Current(l, a) && c.id in l.node.tasks && st.certificate == c && st.expectedPosition.Some?
  }

  lemma BootUp(l: C.Loop, id: CertificateId, st: State)
    requires id in l.node.tasks && l.node.tasks[id] == [] && id in l.node.running && l.node.running[id] == Task(st, [])
    requires st.expectedPosition.None? && NextPosition(l.node, st.certificate.source).Some?
    ensures C.Step(l, C.Internal(Boot(id))) ==
            With(l, id, st.(expectedPosition := NextPosition(l.node, st.certificate.source)), [])
  {
    hide NextPosition;
    assert l.completions + [] == l.completions && l.node.tasks[id := []] == l.node.tasks;
  }

  lemma VoteIn(l: C.Loop, a: Arena, c: Certificate, st: State, vote: Vote)
    requires Booted(l, a, c, st) && vote.sender in a.validators
    ensures C.Step(C.Step(With(l, c.id, st, []), C.OnCommand(C.OnSignedVote(c.id, vote, true))), C.HandleMessage) ==
            With(l, c.id, st, [vote])
  {
    assert [] + [vote] == [vote] && l.completions + [] == l.completions;
    assert l.node.tasks[c.id := []][c.id := [vote]] == l.node.tasks[c.id := [vote]];
  }

  lemma TakeVote(l: C.Loop, a: Arena, c: Certificate, st: State, vote: Vote)
    requires Booted(l, a, c, st) && Apply(st, vote).change != Some(DeliveredWithReadySent)
    ensures C.Step(With(l, c.id, st, [vote]), C.Internal(Poll(c.id))) == With(l, c.id, Apply(st, vote).state, [])
    ensures Booted(l, a, c, Apply(st, vote).state)
  {
    ApplyFrame(st, vote);
    hide Apply;
    var st' := Apply(st, vote).state;
    assert [vote][1..] == [] && l.completions + [] == l.completions;
    assert l.node.tasks[c.id := [vote]][c.id := []] == l.node.tasks[c.id := []];
    assert l.node.running[c.id := Task(st, [])][c.id := Task(st', [])] == l.node.running[c.id := Task(st', [])];
  }

  /** A run that has come to where the task is in state `st`. */
  ghost predicate At(a: Arena, events: seq<C.Event>, ids: seq<CertificateId>, l: C.Loop, c: Certificate, st: State,
                     sink: seq<Vote>) {
    a.Sane() && a.Commands(events, ids) && Booted(l, a, c, st) && a.After(events) == With(l, c.id, st, sink)
  }

  lemma Arrive(a: Arena, events: seq<C.Event>, ids: seq<CertificateId>, l: C.Loop, c: Certificate, st: State,
               vote: Vote)
    returns (more: seq<C.Event>)
    requires At(a, events, ids, l, c, st, []) && vote.sender in a.validators
    ensures At(a, more, ids, l, c, st, [vote])
  {
    hide C.Exec, C.Step, T.KnownEvents, T.Commanded, T.NoRepeat, Booted, With, ForkFree;
    var command := C.OnCommand(C.OnSignedVote(c.id, vote, true));
    VoteIn(l, a, c, st, vote);
    OneMore(a, events, ids, command);
    OneMore(a, events + [command], ids, C.HandleMessage);
    more := events + [command] + [C.HandleMessage];
  }

  lemma Feed(a: Arena, events: seq<C.Event>, ids: seq<CertificateId>, l: C.Loop, c: Certificate, st: State, vote: Vote)
    returns (more: seq<C.Event>)
    requires At(a, events, ids, l, c, st, []) && vote.sender in a.validators
    requires Apply(st, vote).change != Some(DeliveredWithReadySent)
    ensures At(a, more, ids, l, c, Apply(st, vote).state, [])
  {
    hide C.Exec, C.Step, T.KnownEvents, T.Commanded, T.NoRepeat, Booted, With, ForkFree, Apply;
    var arrived := Arrive(a, events, ids, l, c, st, vote);
    TakeVote(l, a, c, st, vote);
    OneMore(a, arrived, ids, C.Internal(Poll(c.id)));
    more := arrived + [C.Internal(Poll(c.id))];
  }

  lemma {:induction false} FeedAll(a: Arena, events: seq<C.Event>, ids: seq<CertificateId>, l: C.Loop, c: Certificate,
                                   st: State, votes: seq<Vote>)
    returns (more: seq<C.Event>)
    requires At(a, events, ids, l, c, st, []) && ApplyAll(st, votes).status != DeliveredWithReadySent
    requires forall i :: 0 <= i < |votes| ==> votes[i].sender in a.validators
    ensures At(a, more, ids, l, c, ApplyAll(st, votes), [])
  {
    if votes == [] {
      more := events;
    } else {
      var before, last := votes[..|votes| - 1], votes[|votes| - 1];
      assert votes == before + [last];
      ApplyLast(st, before, last);
      DeliveredStays(ApplyAll(st, before), last);
      hide ApplyAll, Apply, At;
      more := FeedAll(a, events, ids, l, c, st, before);
      more := Feed(a, more, ids, l, c, ApplyAll(st, before), last);
    }
  }

  /** The vote that delivers has arrived. */
  lemma {:induction false} FeedUntil(a: Arena, events: seq<C.Event>, ids: seq<CertificateId>, l: C.Loop,
                                     c: Certificate, st: State, votes: seq<Vote>)
    returns (more: seq<C.Event>, last: State, vote: Vote)
    requires At(a, events, ids, l, c, st, []) && st.status != DeliveredWithReadySent
    requires Deliver(st, votes)
    requires forall i :: 0 <= i < |votes| ==> votes[i].sender in a.validators
    ensures At(a, more, ids, l, c, last, [vote]) && Apply(last, vote).change == Some(DeliveredWithReadySent)
  {
    hide At;
    var before := votes[..|votes| - 1];
    if Deliver(st, before) {
      more, last, vote := FeedUntil(a, events, ids, l, c, st, before);
    } else {
      last, vote := ApplyAll(st, before), votes[|votes| - 1];
      DeliveredIsReported(last, vote);
      hide Apply, ApplyAll;
      more := FeedAll(a, events, ids, l, c, st, before);
      more := Arrive(a, more, ids, l, c, last, vote);
    }
  }

  /** Like `l`, but the certificate is delivered and gone, and its successor, if it had one waiting, runs. */
  ghost predicate Completed(l: C.Loop, l': C.Loop, a: Arena, id: CertificateId) {
    && Current(l', a) && l'.completions == l.completions + [id]
    && l'.node.tasks == l.node.tasks - {id} && l'.node.precedence == l.node.precedence - {id}
    && (id in l.node.precedence && l.node.precedence[id].Id() in l.node.tasks.Keys - {id} ==>
          var task := l.node.precedence[id];
          task.Id() in l'.node.running && l'.node.running[task.Id()] == task.(forwarding := []))
  }

  lemma PollDone(n: Node, id: CertificateId)
    requires Persists(n, id) && V.Deliver(n.store, Delivering(n, id)).result.Ok?
    ensures var n' := DoPoll(n, id);
            && n'.validators == n.validators && n'.params == n.params && n'.buffered == n.buffered
            && n'.tasks == n.tasks[id := n.tasks[id][1..]] && n'.precedence == n.precedence
            && n'.finished == n.finished[id := Success]
  {
    hide V.Deliver, Delivering;
  }

  /** The vote is taken and the certificate delivered. */
  lemma DeliverNow(l: C.Loop, a: Arena, c: Certificate, st: State, vote: Vote)
    requires Booted(l, a, c, st) && Persists(With(l, c.id, st, [vote]).node, c.id)
    requires var n := With(l, c.id, st, [vote]).node; V.Deliver(n.store, Delivering(n, c.id)).result.Ok?
    ensures var mid := C.Step(With(l, c.id, st, [vote]), C.Internal(Poll(c.id)));
            && mid.open && mid.inbox == [] && mid.delivered == {} && mid.completions == l.completions
            && mid.node.validators == a.validators && mid.node.params == a.params
            && mid.node.buffered == map[] && mid.node.finished == map[c.id := Success]
            && mid.node.tasks - {c.id} == l.node.tasks - {c.id} && mid.node.precedence == l.node.precedence
  {
    var n := With(l, c.id, st, [vote]).node;
    PollDone(n, c.id);
    PollStep(n, c.id);
    hide V.Deliver, Delivering, Apply, Persists, DoPoll, TaskManager.Step;
    assert l.completions + [] == l.completions;
    assert l.node.tasks[c.id := [vote]][c.id := [vote][1..]] - {c.id} == l.node.tasks - {c.id};
  }

  /** The completion frees the context and releases the successor. */
  lemma CompleteNow(l: C.Loop, mid: C.Loop, a: Arena, id: CertificateId)
    requires mid.open && mid.inbox == [] && mid.delivered == {} && mid.completions == l.completions
    requires mid.node.validators == a.validators && mid.node.params == a.params
    requires mid.node.buffered == map[] && mid.node.finished == map[id := Success]
    requires mid.node.tasks - {id} == l.node.tasks - {id} && mid.node.precedence == l.node.precedence
    ensures Completed(l, C.Step(mid, C.Internal(Complete(id))), a, id)
  {
    CompleteStep(mid.node, id);
    CompleteShape(mid.node, id);
    StepKeepsConfig(mid.node, Complete(id));
    ReleasesSame(l.node, mid.node, id);
    hide DoComplete, TaskManager.Step, Releases;
    assert map[id := Success] - {id} == map[];
  }

  lemma ReleasesSame(n: Node, n': Node, id: CertificateId)
    requires n'.tasks - {id} == n.tasks - {id} && n'.precedence == n.precedence && n'.buffered == map[]
    ensures Releases(n', id) <==> id in n.precedence && n.precedence[id].Id() in n.tasks.Keys - {id}
    ensures id in n.precedence ==> Buffer(n', n.precedence[id].Id()) == []
  {
    assert (n'.tasks - {id}).Keys == (n.tasks - {id}).Keys;
  }

  /** The vote is taken, the certificate delivered, and its task completed. */
  lemma Finish(a: Arena, events: seq<C.Event>, ids: seq<CertificateId>, l: C.Loop, c: Certificate, st: State,
               vote: Vote)
    returns (more: seq<C.Event>)
    requires At(a, events, ids, l, c, st, [vote]) && Apply(st, vote).change == Some(DeliveredWithReadySent)
    requires Of(a.u, c.id, a.subnet)
    ensures a.Commands(more, ids) && Completed(l, a.After(more), a, c.id)
  {
    hide FullInv, ForkFree, C.Exec, C.Step, T.KnownEvents, T.Commanded, T.NoRepeat, Completed, Apply;
    var log := InvariantNow(a, events, ids);
    var n := With(l, c.id, st, [vote]).node;
    assert Persists(n, c.id);
    hide With, Persists, Booted;
    PersistSucceeds(n, log, a.u, a.subnet, c.id);
    DeliverNow(l, a, c, st, vote);
    OneMore(a, events, ids, C.Internal(Poll(c.id)));
    var polled := events + [C.Internal(Poll(c.id))];
    CompleteNow(l, a.After(polled), a, c.id);
    OneMore(a, polled, ids, C.Internal(Complete(c.id)));
    more := polled + [C.Internal(Complete(c.id))];
  }

  /** The certificate runs, and nothing has happened to it. */
  ghost predicate Runs(l: C.Loop, a: Arena, id: CertificateId)
    requires id in a.u
  {
    && Current(l, a) && id in l.node.tasks && l.node.tasks[id] == []
    && id in l.node.running && l.node.running[id] == a.Untouched(id)
  }

  /** A running certificate gets its votes, is delivered and completed. */
  lemma DeliverOne(a: Arena, events: seq<C.Event>, ids: seq<CertificateId>, id: CertificateId)
    returns (more: seq<C.Event>)
    requires a.Sane() && a.Commands(events, ids) && Of(a.u, id, a.subnet) && Runs(a.After(events), a, id)
    ensures a.Commands(more, ids) && Completed(a.After(events), a.After(more), a, id)
  {
    var l, c, st := a.After(events), a.u[id], a.Untouched(id).state;
    assert c.id == id;
    StartSound(c, a.validators, a.params, false);
    hide ForkFree, C.Exec, C.Step, T.KnownEvents, T.Commanded, T.NoRepeat, NextPosition, FullInv, Apply, ApplyAll;
    var log := InvariantNow(a, events, ids);
    PositionsSuffice(l.node, log, a.u, a.subnet);
    BootUp(l, id, st);
    OneMore(a, events, ids, C.Internal(Boot(id)));
    var booted := events + [C.Internal(Boot(id))];
    var st' := st.(expectedPosition := NextPosition(l.node, a.subnet));
    assert IsStart(st', a.validators) && st'.status != DeliveredWithReadySent;
    var votes := DeliveringVotes(st', a.validators);
    assert At(a, booted, ids, l, c, st', []);
    hide At, IsStart, Runs, Completed;
    var last, vote;
    more, last, vote := FeedUntil(a, booted, ids, l, c, st', votes);
    more := Finish(a, more, ids, l, c, last, vote);
  }

  // ----- A chain is delivered -----

  lemma {:induction false} PathDepths(u: Universe, id: CertificateId, k: nat, j: nat)
    requires AtDepth(u, id, k) && j <= k
    ensures |PathTo(u, id, k)| == k + 1 && AtDepth(u, PathTo(u, id, k)[j], j) && PathTo(u, id, k)[k] == id
    ensures u[PathTo(u, id, k)[j]].prevId == (if j == 0 then INITIAL_CERTIFICATE_ID else PathTo(u, id, k)[j - 1])
    decreases k
  {
    if k > 0 {
      PathDepths(u, u[id].prevId, k - 1, if j < k then j else k - 1);
    }
  }

  /** The chain as a sequence: each certificate follows the one before it. */
  ghost predicate Path(a: Arena, path: seq<CertificateId>) {
    && path != []
    && (forall i, j :: 0 <= i < j < |path| ==> path[i] != path[j])
    && forall i :: 0 <= i < |path| ==>
         && Of(a.u, path[i], a.subnet)
         && a.u[path[i]].prevId == (if i == 0 then INITIAL_CERTIFICATE_ID else path[i - 1])
  }

  lemma {:induction false} PathIs(a: Arena, id: CertificateId, k: nat)
    requires ForkFree(a.u, a.subnet) && AtDepth(a.u, id, k) && Of(a.u, id, a.subnet)
    ensures Path(a, PathTo(a.u, id, k)) && |PathTo(a.u, id, k)| == k + 1 && PathTo(a.u, id, k)[k] == id
  {
    var path := PathTo(a.u, id, k);
    PathDepths(a.u, id, k, 0);
    hide PathTo;
    forall i | 0 <= i < |path|
      ensures Of(a.u, path[i], a.subnet) && AtDepth(a.u, path[i], i)
      ensures a.u[path[i]].prevId == (if i == 0 then INITIAL_CERTIFICATE_ID else path[i - 1])
    {
      PathDepths(a.u, id, k, i);
      PathAtHome(a.u, a.subnet, id, k, path[i]);
    }
    hide AtDepth;
    forall i, j | 0 <= i < j < |path| ensures path[i] != path[j] { DifferentDepths(a.u, path[i], path[j], i, j); }
  }

  /** The chain is delivered up to `path[i]`, which runs, and the rest waits behind it. */
  ghost predicate Primed(l: C.Loop, a: Arena, path: seq<CertificateId>, i: nat)
    requires Path(a, path) && i < |path|
  {
    && Runs(l, a, path[i])
    && forall j :: i < j < |path| ==>
         path[j] in l.node.tasks && l.node.tasks[path[j]] == [] && Awaits(l, a, path[j - 1], path[j])
  }

  lemma PathInLine(l: C.Loop, a: Arena, seen: seq<CertificateId>, path: seq<CertificateId>, j: nat)
    requires ForkFree(a.u, a.subnet) && Lined(l, a, seen) && Path(a, path) && j < |path| && path[j] in seen
    ensures Current(l, a) && path[j] in l.node.tasks && l.node.tasks[path[j]] == []
    ensures if j == 0 then path[j] in l.node.running && l.node.running[path[j]] == a.Untouched(path[j])
            else Awaits(l, a, path[j - 1], path[j])
  {
    assert InLine(l, a, path[j]);
    assert a.u[path[j]].prevId == (if j == 0 then INITIAL_CERTIFICATE_ID else path[j - 1]);
    assert j > 0 ==> Of(a.u, path[j - 1], a.subnet);
    hide Lined, Path, Current;
  }

  lemma PrimedFirst(l: C.Loop, a: Arena, seen: seq<CertificateId>, path: seq<CertificateId>)
    requires ForkFree(a.u, a.subnet) && Lined(l, a, seen) && Path(a, path) && forall x :: x in path ==> x in seen
    ensures Primed(l, a, path, 0)
  {
    hide ForkFree, Lined, Current, Awaits;
    PathInLine(l, a, seen, path, 0);
    forall j | 0 < j < |path|
      ensures path[j] in l.node.tasks && l.node.tasks[path[j]] == [] && Awaits(l, a, path[j - 1], path[j])
    {
      assert path[j] in path;
      PathInLine(l, a, seen, path, j);
    }
  }

  lemma PrimedNext(l: C.Loop, l': C.Loop, a: Arena, path: seq<CertificateId>, i: nat)
    requires Path(a, path) && i + 1 < |path| && Primed(l, a, path, i) && Completed(l, l', a, path[i])
    requires ForkFree(a.u, a.subnet)
    ensures Primed(l', a, path, i + 1)
  {
    var id, next := path[i], path[i + 1];
    assert Awaits(l, a, path[i + 1 - 1], path[i + 1]) && next != id;
    assert a.u[next].id == next;
    assert Runs(l', a, next) by { hide Path; }
    forall j | i + 1 < j < |path|
      ensures path[j] in l'.node.tasks && l'.node.tasks[path[j]] == [] && Awaits(l', a, path[j - 1], path[j])
    {
      assert path[j] != id && path[j - 1] != id;
      assert Awaits(l, a, path[j - 1], path[j]);
    }
  }

  /** The rest of the chain is delivered; the last certificate is gone and announced. */
  lemma {:induction false} DeliverChain(a: Arena, events: seq<C.Event>, ids: seq<CertificateId>,
                                        path: seq<CertificateId>, i: nat)
    returns (more: seq<C.Event>)
    requires a.Sane() && a.Commands(events, ids) && Path(a, path) && i < |path| && Primed(a.After(events), a, path, i)
    ensures a.Commands(more, ids)
    ensures var l, last := a.After(more), path[|path| - 1];
            Current(l, a) && last !in l.node.tasks && last in l.completions
    decreases |path| - i
  {
    assert Of(a.u, path[i], a.subnet);
    var l := a.After(events);
    hide C.Exec, T.KnownEvents, T.Commanded, T.NoRepeat, ForkFree, Path;
    more := DeliverOne(a, events, ids, path[i]);
    if i + 1 < |path| {
      PrimedNext(l, a.After(more), a, path, i);
      more := DeliverChain(a, more, ids, path, i + 1);
    }
  }

  // ----- Repeated commands -----

  /** The first command that repeats an earlier one with its chain. */
  lemma {:induction false} FirstRepeat(u: Universe, ids: seq<CertificateId>, j: nat) returns (first: nat)
    requires T.Repeats(u, ids, j)
    ensures first <= j && T.Repeats(u, ids, first) && T.NoRepeat(u, ids[..first])
  {
    hide T.Repeats;
    if i :| 0 <= i < j && T.Repeats(u, ids, i) {
      first := FirstRepeat(u, ids, i);
    } else {
      first := j;
      RepeatInRange(u, ids, j);
      forall i | 0 <= i < j
        ensures !T.Repeats(u, ids[..j], i)
      {
        RepeatBefore(u, ids, i, j);
      }
    }
  }

  lemma RepeatInRange(u: Universe, ids: seq<CertificateId>, j: nat)
    requires T.Repeats(u, ids, j)
    ensures j < |ids|
  {
  }

  lemma RepeatBefore(u: Universe, ids: seq<CertificateId>, i: nat, j: nat)
    requires i < j <= |ids|
    ensures T.Repeats(u, ids[..j], i) <==> T.Repeats(u, ids, i)
  {
    hide PathTo, AtDepth;
    assert ids[..j][..i] == ids[..i] && ids[..j][i] == ids[i];
  }

  /** The certificate of the repeated command is handed over after its task is gone. */
  lemma {:induction false} Untimely(a: Arena, events: seq<C.Event>, id: CertificateId)
    requires Of(a.u, id, a.subnet) && a.u[id].id == id && a.validators != {}
    requires var l := a.After(events); Current(l, a) && id !in l.node.tasks && id in l.completions
    ensures var command := C.OnCommand(C.Broadcast(a.u[id], false));
            !T.TimelyRun(a.validators, a.params, a.u, a.subnet, events + [command] + [C.HandleMessage])
  {
    var command := C.OnCommand(C.Broadcast(a.u[id], false));
    var commanded := events + [command];
    var all := commanded + [C.HandleMessage];
    OneEvent(a, events, command);
    assert all[..|all| - 1] == commanded;
    T.TimelySnoc(a.validators, a.params, a.u, a.subnet, all);
    hide C.Exec, T.TimelyRun;
  }

  lemma {:induction false} StillUntimely(a: Arena, events: seq<C.Event>, e: C.Event)
    requires !T.TimelyRun(a.validators, a.params, a.u, a.subnet, events)
    ensures !T.TimelyRun(a.validators, a.params, a.u, a.subnet, events + [e])
  {
    assert (events + [e])[..|events|] == events;
    hide C.Exec, T.Timely, C.Performed;
  }

  /** The remaining commands are given too. */
  lemma {:induction false} CommandRest(a: Arena, events: seq<C.Event>, ids: seq<CertificateId>)
    returns (more: seq<C.Event>)
    requires ForkFree(a.u, a.subnet) && T.KnownEvents(a.u, events)
    requires !T.TimelyRun(a.validators, a.params, a.u, a.subnet, events)
    requires forall i :: 0 <= i < |ids| ==> Of(a.u, ids[i], a.subnet)
    ensures T.KnownEvents(a.u, more) && T.Commanded(more, a.subnet) == T.Commanded(events, a.subnet) + ids
    ensures !T.TimelyRun(a.validators, a.params, a.u, a.subnet, more)
  {
    hide C.Exec, T.Commanded, T.KnownEvents, T.TimelyRun, C.Step;
    if ids == [] {
      more := events;
      assert T.Commanded(events, a.subnet) + ids == T.Commanded(events, a.subnet);
    } else {
      var before, last := ids[..|ids| - 1], ids[|ids| - 1];
      var command := C.OnCommand(C.Broadcast(a.u[last], false));
      assert Of(a.u, last, a.subnet) && a.u[last].id == last;
      hide ForkFree;
      var some := CommandRest(a, events, before);
      OneEvent(a, some, command);
      StillUntimely(a, some, command);
      more := some + [command];
      assert ids == before + [last];
    }
  }

  /** A schedule for commands of which one repeats `path`. */
  lemma {:induction false} ScheduleRepeat(a: Arena, before: seq<CertificateId>, path: seq<CertificateId>,
                                          rest: seq<CertificateId>)
    returns (events: seq<C.Event>)
    requires a.Sane() && T.NoRepeat(a.u, before) && Path(a, path) && forall x :: x in path ==> x in before
    requires forall i :: 0 <= i < |before| ==> Of(a.u, before[i], a.subnet)
    requires forall i :: 0 <= i < |rest| ==> Of(a.u, rest[i], a.subnet)
    ensures T.KnownEvents(a.u, events) && T.Commanded(events, a.subnet) == before + [path[|path| - 1]] + rest
    ensures !T.TimelyRun(a.validators, a.params, a.u, a.subnet, events)
  {
    var id := path[|path| - 1];
    assert Of(a.u, id, a.subnet) && a.u[id].id == id;
    hide Path, ForkFree, T.KnownEvents, T.Commanded, T.TimelyRun, T.NoRepeat, C.Exec, Lined;
    events := CommandAll(a, before);
    PrimedFirst(a.After(events), a, before, path);
    events := DeliverChain(a, events, before, path, 0);
    hide Current;
    Untimely(a, events, id);
    events := CommandAgain(a, events, before, id);
    events := CommandRest(a, events, rest);
  }

  lemma CommandAgain(a: Arena, events: seq<C.Event>, ids: seq<CertificateId>, id: CertificateId)
    returns (more: seq<C.Event>)
    requires a.Commands(events, ids) && Of(a.u, id, a.subnet) && a.u[id].id == id
    ensures more == events + [C.OnCommand(C.Broadcast(a.u[id], false))] + [C.HandleMessage]
    ensures T.KnownEvents(a.u, more) && T.Commanded(more, a.subnet) == ids + [id]
  {
    var command := C.OnCommand(C.Broadcast(a.u[id], false));
    hide T.KnownEvents, T.Commanded, T.NoRepeat, C.Exec, C.Step;
    OneEvent(a, events, command);
    OneEvent(a, events + [command], C.HandleMessage);
    more := events + [command] + [C.HandleMessage];
    assert ids + [id] + [] == ids + [id];
  }

  /**
   * Whoever commands a certificate again, after it and its whole chain were commanded, may find it
   * taken up again after delivery, in whatever order and with whatever other commands in between.
   */
  lemma {:induction false} RepeatIsUntimely(a: Arena, ids: seq<CertificateId>, j: nat) returns (events: seq<C.Event>)
    requires a.Sane() && T.Repeats(a.u, ids, j) && forall i :: 0 <= i < |ids| ==> Of(a.u, ids[i], a.subnet)
    ensures T.KnownEvents(a.u, events) && T.Commanded(events, a.subnet) == ids
    ensures !T.TimelyRun(a.validators, a.params, a.u, a.subnet, events)
  {
    hide PathTo, AtDepth, Path, ForkFree, T.KnownEvents, T.Commanded, T.TimelyRun, T.NoRepeat, C.Exec;
    var first := FirstRepeat(a.u, ids, j);
    var before, rest := ids[..first], ids[first + 1..];
    var k: nat :| AtDepth(a.u, ids[first], k) && forall x :: x in PathTo(a.u, ids[first], k) ==> x in before;
    PathIs(a, ids[first], k);
    assert before + [ids[first]] + rest == ids;
    events := ScheduleRepeat(a, before, PathTo(a.u, ids[first], k), rest);
  }

  // ----- Thresholds out of reach -----

  /** Whatever is written had its thresholds reached by votes of the validators. */
  lemma WrittenReachable(n: Node, a: Action)
    requires TasksSound(n) && Written(n, a) != []
    ensures Reachable(|n.validators|, n.params)
  {
    var s, vote := n.running[a.id].state, n.tasks[a.id][0];
    ApplySound(s, vote, n.validators);
    DeliveredStatus(s, vote);
    PolledKeepsPosition(n, a.id);
    TakesKnown(s, vote, n.validators);
  }

  lemma TakesKnown(s: State, vote: Vote, validators: set<ValidatorId>)
    requires Sound(s, validators) && Apply(s, vote).change.Some?
    ensures |validators| >= 1
  {
    assert vote.sender in validators;
  }

  lemma {:induction false} NothingWritten(validators: set<ValidatorId>, params: Params, actions: seq<Action>)
    requires !Reachable(|validators|, params)
    ensures Log(validators, params, actions) == []
  {
    if actions != [] {
      var before, last := actions[..|actions| - 1], actions[|actions| - 1];
      NothingWritten(validators, params, before);
      EveryRun(validators, params, before);
      hide Exec, Written, RunInv, Reachable;
      var n := Exec(validators, params, before);
      if Written(n, last) != [] {
        assert TasksSound(n) by { RunIsSound(n, Log(validators, params, before)); }
        WrittenReachable(n, last);
      }
    }
  }

  lemma RunIsSound(n: Node, log: seq<CertificateDelivered>)
    requires RunInv(n, log)
    ensures TasksSound(n)
  {
  }

  ghost predicate KnownInbox(l: C.Loop, u: Universe) {
    forall i :: 0 <= i < |l.inbox| ==>
      !l.inbox[i].Submit? && (l.inbox[i].OnBroadcast? ==> Known(u, l.inbox[i].certificate))
  }

  lemma StepInboxKnown(l: C.Loop, u: Universe, e: C.Event)
    requires KnownInbox(l, u) && T.KnownEvent(u, e)
    ensures KnownInbox(C.Step(l, e), u)
  {
    hide TaskManager.Step, Known;
  }

  lemma {:induction false} InboxKnown(validators: set<ValidatorId>, params: Params, u: Universe, events: seq<C.Event>)
    requires T.KnownEvents(u, events)
    ensures KnownInbox(C.Exec(validators, params, events), u)
  {
    if events != [] {
      var before, e := events[..|events| - 1], events[|events| - 1];
      InboxKnown(validators, params, u, before);
      assert T.KnownEvent(u, e);
      hide C.Step, T.KnownEvent, KnownInbox;
      StepInboxKnown(C.Exec(validators, params, before), u, e);
    }
  }

  lemma {:induction false} UnreachableIsTimely(validators: set<ValidatorId>, params: Params, u: Universe, s: SubnetId,
                                               events: seq<C.Event>)
    requires ForkFree(u, s) && |u| <= MAX_U64 && T.KnownEvents(u, events) && !Reachable(|validators|, params)
    ensures T.TimelyRun(validators, params, u, s, events)
  {
    if events != [] {
      var before, e := events[..|events| - 1], events[|events| - 1];
      assert T.KnownEvent(u, e) && T.KnownEvents(u, before);
      hide ForkFree, T.KnownEvents, T.KnownEvent, Reachable, T.TimelyRun, T.Timely;
      UnreachableIsTimely(validators, params, u, s, before);
      T.TimelySnoc(validators, params, u, s, events);
      C.EveryLoopRun(validators, params, before);
      C.RunOfManager(validators, params, before);
      InboxKnown(validators, params, u, before);
      var l, trace := C.Exec(validators, params, before), C.Trace(validators, params, before);
      NothingWritten(validators, params, trace);
      EveryRun(validators, params, trace);
      hide C.Exec, Exec, Log;
      NothingStored(l.node);
      if C.Performed(l, e) != [] {
        NothingIsTimely(l, u, s, e);
      }
    }
  }

  lemma NothingStored(n: Node)
    requires RunInv(n, [])
    ensures n.store.tables.certificates == map[]
  {
    assert n.store.tables.certificates.Keys == LogIds([]) == {};
  }

  lemma NothingIsTimely(l: C.Loop, u: Universe, s: SubnetId, e: C.Event)
    requires C.Truthful(l) && l.node.store.tables.certificates == map[] && KnownInbox(l, u) && T.KnownEvent(u, e)
    requires C.Performed(l, e) != []
    ensures T.Timely(l, u, s, C.Performed(l, e)[0])
  {
    var a := C.Performed(l, e)[0];
    if a.OnBroadcast? {
      assert !V.IsDelivered(l.node.store, a.certificate.id);
    }
  }

  /**
   * For every sequence of commands for certificates of a subnet: the filter keeps delivered ones out
   * in all schedules exactly if nothing can be delivered, or no command repeats an earlier one whose
   * whole chain was commanded before it.
   */
  lemma {:induction false} HarmlessIff(a: Arena, ids: seq<CertificateId>)
    requires ForkFree(a.u, a.subnet) && |a.u| <= MAX_U64 && forall i :: 0 <= i < |ids| ==> Of(a.u, ids[i], a.subnet)
    ensures (forall events :: T.KnownEvents(a.u, events) && T.Commanded(events, a.subnet) == ids ==>
               T.TimelyRun(a.validators, a.params, a.u, a.subnet, events))
            <==> !Reachable(|a.validators|, a.params) || T.NoRepeat(a.u, ids)
  {
    hide Reachable, ForkFree, T.KnownEvents, T.Commanded, T.TimelyRun, T.Repeats;
    if Reachable(|a.validators|, a.params) && !T.NoRepeat(a.u, ids) {
      var j :| 0 <= j < |ids| && T.Repeats(a.u, ids, j);
      var events := RepeatIsUntimely(a, ids, j);
      assert T.KnownEvents(a.u, events) && T.Commanded(events, a.subnet) == ids;
    } else {
      forall events | T.KnownEvents(a.u, events) && T.Commanded(events, a.subnet) == ids
        ensures T.TimelyRun(a.validators, a.params, a.u, a.subnet, events)
      {
        if Reachable(|a.validators|, a.params) {
          T.OnlyTimely(a.validators, a.params, a.u, a.subnet, events);
        } else {
          UnreachableIsTimely(a.validators, a.params, a.u, a.subnet, events);
        }
      }
    }
  }

  /** A chain and then its last certificate once more: such a sequence exists for every certificate. */
  lemma {:induction false} TwiceRepeats(u: Universe, id: CertificateId, k: nat)
    requires AtDepth(u, id, k)
    ensures T.Repeats(u, PathTo(u, id, k) + [id], k + 1)
  {
    var path := PathTo(u, id, k);
    PathDepths(u, id, k, k);
    assert (path + [id])[..k + 1] == path && (path + [id])[k + 1] == id;
  }

  /**
   * The filter suffices for all submitters exactly in networks that deliver nothing: as soon as
   * some certificate can be delivered, submitting it twice can have it taken up again.
   */
  lemma {:induction false} FilterSufficesIff(a: Arena, id: CertificateId, k: nat)
    requires ForkFree(a.u, a.subnet) && |a.u| <= MAX_U64 && AtDepth(a.u, id, k) && Of(a.u, id, a.subnet)
    ensures (forall events :: T.KnownEvents(a.u, events) ==>
               T.TimelyRun(a.validators, a.params, a.u, a.subnet, events))
            <==> !Reachable(|a.validators|, a.params)
  {
    var ids := PathTo(a.u, id, k) + [id];
    TwiceRepeats(a.u, id, k);
    PathIs(a, id, k);
    hide Reachable, ForkFree, T.KnownEvents, T.Commanded, T.TimelyRun, T.Repeats, PathTo, AtDepth;
    if Reachable(|a.validators|, a.params) {
      var events := RepeatIsUntimely(a, ids, k + 1);
      assert T.KnownEvents(a.u, events);
    } else {
      forall events | T.KnownEvents(a.u, events)
        ensures T.TimelyRun(a.validators, a.params, a.u, a.subnet, events)
      {
        UnreachableIsTimely(a.validators, a.params, a.u, a.subnet, events);
      }
    }
  }
}
