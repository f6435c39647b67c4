/**
 * How many faulty validators totality survives: at most (n - 1) / 3, although the thresholds
 * are derived from a tolerance of n / 3.
 */
module NetworkLimits {
  import opened Certificates
  import opened Quorum
  import opened DoubleEcho
  import opened Network

  /** One delivery leads to delivery everywhere once everybody is handed and Readies are drained. */
  ghost predicate Total(c: Config, s: Net) {
    EverybodyHanded(c, s) && ReadiesDrained(c, s) && (exists v :: HasDelivered(s, v)) ==>
      forall v :: v in c.NonFaulty() ==> HasDelivered(s, v)
  }

  lemma {:induction false} ExecLast(c: Config, actions: seq<Action>, a: Action)
    ensures Exec(c, actions + [a]) == Step(c, Exec(c, actions), a)
  {
    assert (actions + [a])[..|actions|] == actions;
    hide Step;
  }

  /** A run that hands the certificate to all of `who`. */
  lemma {:induction false} HandAll(c: Config, who: set<ValidatorId>) returns (actions: seq<Action>)
    requires who <= c.NonFaulty()
    ensures Exec(c, actions).nodes.Keys == who
    ensures forall v :: v in who ==>
              Exec(c, actions).nodes[v] == Start(c.certificate, c.validators, c.Thresholds(), false)
  {
    if who == {} {
      actions := [];
    } else {
      var v :| v in who;
      var before := HandAll(c, who - {v});
      actions := before + [Hand(v, false)];
      ExecLast(c, before, Hand(v, false));
    }
  }

  /** `s'` is `s` after validator `v` took votes of `senders` only, all of them unless it delivered. */
  ghost predicate Fed(s: Net, s': Net, v: ValidatorId, echoes: set<ValidatorId>, readies: set<ValidatorId>) {
    && v in s.nodes && s'.nodes.Keys == s.nodes.Keys
    && (forall w :: w in s.nodes && w != v ==> s'.nodes[w] == s.nodes[w])
    && (forall vote :: Sent(s, vote) ==> Sent(s', vote))
    && Took(s.nodes[v], s'.nodes[v], echoes, readies)
  }

  ghost predicate Took(st: State, st': State, echoes: set<ValidatorId>, readies: set<ValidatorId>) {
    && st.ready - readies <= st'.ready <= st.ready
    && (st'.status == DeliveredWithReadySent
        || (st'.echo == st.echo - echoes && st'.ready == st.ready - readies))
  }

  lemma TookOne(st: State, mid: State, vote: Vote, echoes: set<ValidatorId>, readies: set<ValidatorId>)
    requires Took(st, mid, echoes, readies) && mid.status != DeliveredWithReadySent
    ensures Took(st, Apply(mid, vote).state,
                 echoes + (if vote.Echo? then {vote.sender} else {}),
                 readies + (if vote.Ready? then {vote.sender} else {}))
  {
    ApplyFrame(mid, vote);
    hide Apply;
  }

  lemma StillDelivered(st: State, mid: State, echoes: set<ValidatorId>, readies: set<ValidatorId>,
                       echoes': set<ValidatorId>, readies': set<ValidatorId>)
    requires Took(st, mid, echoes, readies) && mid.status == DeliveredWithReadySent && readies <= readies'
    ensures Took(st, mid, echoes', readies')
  {
  }

  lemma FedOne(c: Config, s: Net, mid: Net, v: ValidatorId, echoes: set<ValidatorId>, readies: set<ValidatorId>,
               vote: Vote)
    requires Fed(s, mid, v, echoes, readies) && (vote.sender in c.NonFaulty() ==> Sent(s, vote))
    ensures Fed(s, Step(c, mid, Receive(v, vote)), v,
                echoes + (if vote.Echo? then {vote.sender} else {}),
                readies + (if vote.Ready? then {vote.sender} else {}))
  {
    hide Apply, Took, Sent;
    var s' := Step(c, mid, Receive(v, vote));
    forall x | Sent(s, x)
      ensures Sent(s', x)
    {
      SentGrows(c, mid, Receive(v, vote), x);
    }
    var more := echoes + (if vote.Echo? then {vote.sender} else {});
    var further := readies + (if vote.Ready? then {vote.sender} else {});
    if mid.nodes[v].status == DeliveredWithReadySent {
      StillDelivered(s.nodes[v], mid.nodes[v], echoes, readies, more, further);
    } else {
      TookOne(s.nodes[v], mid.nodes[v], vote, echoes, readies);
    }
  }

  /** Continues a run by feeding one validator the votes of given senders. */
  lemma {:induction false} Feed(c: Config, actions: seq<Action>, v: ValidatorId, echoes: set<ValidatorId>,
                                readies: set<ValidatorId>)
    returns (more: seq<Action>)
    requires v in Exec(c, actions).nodes
    requires forall w :: w in echoes && w in c.NonFaulty() ==> Sent(Exec(c, actions), Echo(w))
    requires forall w :: w in readies && w in c.NonFaulty() ==> Sent(Exec(c, actions), Ready(w))
    ensures Fed(Exec(c, actions), Exec(c, more), v, echoes, readies)
    decreases |echoes| + |readies|
  {
    if echoes == {} && readies == {} {
      more := actions;
    } else {
      var vote: Vote;
      if echoes != {} {
        var w :| w in echoes;
        vote := Echo(w);
        more := Feed(c, actions, v, echoes - {w}, readies);
        assert echoes - {w} + {w} == echoes && readies + {} == readies;
      } else {
        var w :| w in readies;
        vote := Ready(w);
        more := Feed(c, actions, v, echoes, readies - {w});
        assert readies - {w} + {w} == readies && echoes + {} == echoes;
      }
      var mid := Exec(c, more);
      ExecLast(c, more, Receive(v, vote));
      more := more + [Receive(v, vote)];
      hide Fed, Step, Exec, Sent;
      if vote.Echo? {
        FedOne(c, Exec(c, actions), mid, v, echoes - {vote.sender}, readies, vote);
      } else {
        FedOne(c, Exec(c, actions), mid, v, echoes, readies - {vote.sender}, vote);
      }
    }
  }

  // ----- A run that breaks totality -----

  /**
   * Non-faulty validators whose Readies, together with those of the faulty, deliver, but not
   * alone; the other non-faulty ones, if any, do not even follow them.
   */
  ghost predicate Lure(c: Config, some: set<ValidatorId>) {
    && c.Size() >= 3 && c.faulty <= c.validators && some <= c.NonFaulty()
    && |some| < c.Thresholds().delivery <= |some| + |c.faulty|
    && (some == c.NonFaulty() || |some| < c.Thresholds().ready)
  }

  /** Everybody was handed the certificate; those in `who` have sent Ready on echoes alone, nobody else has any vote. */
  ghost predicate Echoed(c: Config, s: Net, who: set<ValidatorId>) {
    && s.nodes.Keys == c.NonFaulty()
    && (forall v :: v in s.nodes ==> s.nodes[v].ready == c.validators)
    && (forall v :: v in s.nodes && v !in who ==> s.nodes[v].echo == c.validators)
    && (forall v :: v in who ==> v in s.nodes && s.nodes[v].status == ReadySent)
  }

  lemma {:induction false} StatusOf(c: Config, actions: seq<Action>, v: ValidatorId)
    requires c.Size() >= 3 && v in Exec(c, actions).nodes
    ensures NodeSound(c, Exec(c, actions).nodes[v]) && IsSettled(Exec(c, actions).nodes[v])
  {
    ExecSound(c, actions);
    ExecSettled(c, actions);
    hide Exec;
  }

  lemma {:induction false} EchoAll(c: Config, actions: seq<Action>, who: set<ValidatorId>) returns (more: seq<Action>)
    requires c.Size() >= 3 && Echoed(c, Exec(c, actions), {}) && who <= c.NonFaulty()
    ensures Echoed(c, Exec(c, more), who)
  {
    if who == {} {
      more := actions;
    } else {
      var v :| v in who;
      var before := EchoAll(c, actions, who - {v});
      AllEchoesSent(c, before);
      more := Feed(c, before, v, c.validators, {});
      hide Exec, Fed, Sent;
      OneMoreEchoed(c, before, more, who - {v}, v);
    }
  }

  lemma {:induction false} AllEchoesSent(c: Config, actions: seq<Action>)
    requires Exec(c, actions).nodes.Keys == c.NonFaulty()
    ensures forall w :: w in c.NonFaulty() ==> Sent(Exec(c, actions), Echo(w))
  {
    ExecSound(c, actions);
  }

  lemma {:induction false} OneMoreEchoed(c: Config, before: seq<Action>, more: seq<Action>, who: set<ValidatorId>,
                                         v: ValidatorId)
    requires c.Size() >= 3 && Echoed(c, Exec(c, before), who) && v in c.NonFaulty()
    requires Fed(Exec(c, before), Exec(c, more), v, c.validators, {})
    ensures Echoed(c, Exec(c, more), who + {v})
  {
    hide Exec, Echoed, Fed, NodeSound, IsSettled;
    var s, s' := Exec(c, before), Exec(c, more);
    NoReadyTaken(c, s, s', who, v);
    StatusOf(c, before, v);
    StatusOf(c, more, v);
    EchoesSend(c, s.nodes[v], s'.nodes[v]);
    EchoedGrows(c, s, s', who, v);
  }

  lemma NoReadyTaken(c: Config, s: Net, s': Net, who: set<ValidatorId>, v: ValidatorId)
    requires Echoed(c, s, who) && Fed(s, s', v, c.validators, {})
    ensures v in s.nodes && v in s'.nodes && s'.nodes[v].ready == c.validators
    ensures s'.nodes[v].status == DeliveredWithReadySent || s'.nodes[v].echo == s.nodes[v].echo - c.validators
  {
    hide Sent;
    assert c.validators - {} == c.validators;
  }

  lemma EchoedGrows(c: Config, s: Net, s': Net, who: set<ValidatorId>, v: ValidatorId)
    requires Echoed(c, s, who) && Fed(s, s', v, c.validators, {})
    requires s'.nodes[v].status == ReadySent && s'.nodes[v].ready == c.validators
    ensures Echoed(c, s', who + {v})
  {
    hide Sent, Took;
  }

  /** Echoes of everybody and no Ready: the state has sent Ready and not delivered. */
  lemma EchoesSend(c: Config, st: State, st': State)
    requires c.Size() >= 3 && NodeSound(c, st) && NodeSound(c, st') && IsSettled(st') && st'.ready == c.validators
    requires st'.status == DeliveredWithReadySent || st'.echo == st.echo - c.validators
    ensures st'.status == ReadySent
  {
    ThresholdsInRange(c.Size());
    if st'.status != DeliveredWithReadySent {
      assert st'.echo == {};
    }
  }

  /** `first` has delivered; the others have Readies of `some` only, those in `done` all of them. */
  ghost predicate Split(c: Config, s: Net, some: set<ValidatorId>, first: ValidatorId, done: set<ValidatorId>) {
    && s.nodes.Keys == c.NonFaulty() && HasDelivered(s, first)
    && (forall w :: w in some ==> Sent(s, Ready(w)))
    && (forall v :: v in s.nodes && v != first ==> c.validators - some <= s.nodes[v].ready)
    && (forall v :: v in s.nodes && v != first && v !in some ==> s.nodes[v].echo == c.validators)
    && (forall v :: v in done ==> v in s.nodes && v != first && s.nodes[v].ready == c.validators - some)
  }

  lemma DeliverFirst(c: Config, actions: seq<Action>, some: set<ValidatorId>, first: ValidatorId)
    returns (more: seq<Action>)
    requires Lure(c, some) && Echoed(c, Exec(c, actions), some) && first in some
    ensures Split(c, Exec(c, more), some, first, {})
  {
    hide Exec, Sent, NodeSound, IsSettled, Took;
    SomeReadiesSent(c, actions, some);
    more := Feed(c, actions, first, {}, some + c.faulty);
    StatusOf(c, more, first);
    FirstDelivers(c, some, Exec(c, actions).nodes[first], Exec(c, more).nodes[first]);
  }

  lemma {:induction false} SomeReadiesSent(c: Config, actions: seq<Action>, some: set<ValidatorId>)
    requires c.Size() >= 3 && Echoed(c, Exec(c, actions), some)
    ensures forall w :: w in some ==> Sent(Exec(c, actions), Ready(w))
  {
    forall w | w in some
      ensures Sent(Exec(c, actions), Ready(w))
    {
      StatusOf(c, actions, w);
      ReadySentIffEvent(Exec(c, actions).nodes[w], c.validators);
    }
  }

  lemma FirstDelivers(c: Config, some: set<ValidatorId>, st: State, st': State)
    requires Lure(c, some) && NodeSound(c, st') && IsSettled(st') && st.ready == c.validators
    requires Took(st, st', {}, some + c.faulty)
    ensures st'.status == DeliveredWithReadySent
  {
    if st'.status != DeliveredWithReadySent {
      ReadiesDeliver(c, some, st');
    }
  }

  lemma ReadiesDeliver(c: Config, some: set<ValidatorId>, st: State)
    requires Lure(c, some) && NodeSound(c, st) && IsSettled(st) && st.ready == c.validators - (some + c.faulty)
    ensures st.status == DeliveredWithReadySent
  {
    var taken := some + c.faulty;
    TakenSize(c.validators, taken);
    TakenSize(taken, some);
    assert taken - some == c.faulty;
  }

  /** Readies of `some` alone are fewer than a delivery quorum: nobody else delivers. */
  lemma TooFew(c: Config, some: set<ValidatorId>, st: State)
    requires Lure(c, some) && NodeSound(c, st) && IsSettled(st) && c.validators - some <= st.ready
    ensures st.status != DeliveredWithReadySent
    ensures some != c.NonFaulty() && st.echo == c.validators ==> !st.status.IsReadySent()
  {
    SubsetSize(c.validators - some, st.ready);
    TakenSize(c.validators, some);
    ThresholdsInRange(c.Size());
  }

  lemma {:induction false} FeedOthers(c: Config, actions: seq<Action>, some: set<ValidatorId>, first: ValidatorId,
                                      done: set<ValidatorId>)
    returns (more: seq<Action>)
    requires Lure(c, some) && Split(c, Exec(c, actions), some, first, {}) && done <= c.NonFaulty() - {first}
    ensures Split(c, Exec(c, more), some, first, done)
  {
    if done == {} {
      more := actions;
    } else {
      var v :| v in done;
      var before := FeedOthers(c, actions, some, first, done - {v});
      more := Feed(c, before, v, {}, some);
      OneMoreSplit(c, before, more, some, first, done - {v}, v);
    }
  }

  lemma {:induction false} OneMoreSplit(c: Config, before: seq<Action>, more: seq<Action>, some: set<ValidatorId>,
                                        first: ValidatorId, done: set<ValidatorId>, v: ValidatorId)
    requires Lure(c, some) && Split(c, Exec(c, before), some, first, done) && v in c.NonFaulty() && v != first
    requires Fed(Exec(c, before), Exec(c, more), v, {}, some)
    ensures Split(c, Exec(c, more), some, first, done + {v})
  {
    hide Exec, Sent, NodeSound, IsSettled, Lure;
    var s, s' := Exec(c, before), Exec(c, more);
    StatusOf(c, before, v) by { LureSize(c, some); }
    StatusOf(c, more, v) by { LureSize(c, some); }
    OnlySomeReadies(c, some, s.nodes[v], s'.nodes[v]);
    hide Split, Fed;
    SplitStep(c, s, s', some, first, done, v);
  }

  lemma LureSize(c: Config, some: set<ValidatorId>)
    requires Lure(c, some)
    ensures c.Size() >= 3
  {
  }

  lemma SplitStep(c: Config, s: Net, s': Net, some: set<ValidatorId>, first: ValidatorId, done: set<ValidatorId>,
                  v: ValidatorId)
    requires Split(c, s, some, first, done) && v in c.NonFaulty() && v != first && Fed(s, s', v, {}, some)
    requires s'.nodes[v].ready == c.validators - some && s'.nodes[v].echo == s.nodes[v].echo
    ensures Split(c, s', some, first, done + {v})
  {
    hide Sent;
  }

  lemma OnlySomeReadies(c: Config, some: set<ValidatorId>, st: State, st': State)
    requires Lure(c, some) && NodeSound(c, st) && NodeSound(c, st') && IsSettled(st')
    requires c.validators - some <= st.ready && Took(st, st', {}, some)
    ensures st'.ready == c.validators - some && st'.echo == st.echo
  {
    assert st.ready - some == c.validators - some;
    TooFew(c, some, st');
  }

  /** A reachable state in which `first` has delivered and nobody else has, with nothing left to take. */
  lemma ReachSplit(c: Config, some: set<ValidatorId>, first: ValidatorId) returns (actions: seq<Action>)
    requires Lure(c, some) && first in some
    ensures Split(c, Exec(c, actions), some, first, c.NonFaulty() - {first})
  {
    var handed := HandAll(c, c.NonFaulty());
    assert Echoed(c, Exec(c, handed), {});
    hide Exec, Echoed, Split;
    var echoed := EchoAll(c, handed, some);
    var split := DeliverFirst(c, echoed, some, first);
    actions := FeedOthers(c, split, some, first, c.NonFaulty() - {first});
  }

  /** Nothing that was sent is left to take. */
  lemma {:induction false} SplitDrained(c: Config, actions: seq<Action>, some: set<ValidatorId>, first: ValidatorId)
    requires Lure(c, some) && first in some && Split(c, Exec(c, actions), some, first, c.NonFaulty() - {first})
    ensures EverybodyHanded(c, Exec(c, actions)) && ReadiesDrained(c, Exec(c, actions))
  {
    var s := Exec(c, actions);
    forall w | w in c.NonFaulty()
      ensures Drained(s, Ready(w))
    {
      if w in some {
        hide Sent;
      } else {
        StatusOf(c, actions, w);
        TooFew(c, some, s.nodes[w]);
        ReadySentIffEvent(s.nodes[w], c.validators);
      }
    }
    hide Exec, Sent, Drained;
  }

  /** Whom to lure, for every number of faulty validators beyond (n - 1) / 3. */
  lemma FindLure(c: Config) returns (some: set<ValidatorId>)
    requires c.faulty <= c.validators && |c.faulty| > (c.Size() - 1) / 3 && |c.NonFaulty()| >= 2
    ensures Lure(c, some) && some != {}
  {
    TakenSize(c.validators, c.faulty);
    var f := c.Size() / 3;
    if |c.faulty| <= f {
      some := c.NonFaulty();
    } else {
      some := SomeSubset(c.NonFaulty(), if |c.faulty| > 2 * f then 1 else 2 * f + 1 - |c.faulty|);
    }
  }

  /** With more than (n - 1) / 3 faulty validators some run delivers at one validator and never at the others. */
  lemma BreakTotality(c: Config) returns (actions: seq<Action>)
    requires c.faulty <= c.validators && |c.faulty| > (c.Size() - 1) / 3 && |c.NonFaulty()| >= 2
    ensures !Total(c, Exec(c, actions))
  {
    var some := FindLure(c);
    var first :| first in some;
    var second := Outsider(c.NonFaulty(), {first});
    actions := ReachSplit(c, some, first);
    SplitDrained(c, actions, some, first);
    hide Exec, NodeSound, IsSettled;
    StatusOf(c, actions, second);
    TooFew(c, some, Exec(c, actions).nodes[second]);
    hide Sent, Drained;
  }

  /**
   * Totality holds in all runs exactly when at most (n - 1) / 3 validators are faulty, or there
   * are not two non-faulty ones to disagree.
   */
  lemma {:induction false} TotalityIff(c: Config)
    requires c.faulty <= c.validators
    ensures (forall actions :: Total(c, Exec(c, actions)))
            <==> |c.faulty| <= (c.Size() - 1) / 3 || |c.NonFaulty()| <= 1
  {
    if |c.faulty| <= (c.Size() - 1) / 3 || |c.NonFaulty()| <= 1 {
      forall actions
        ensures Total(c, Exec(c, actions))
      {
        TotalIn(c, actions);
      }
    } else {
      var actions := BreakTotality(c);
    }
  }

  lemma {:induction false} TotalIn(c: Config, actions: seq<Action>)
    requires c.faulty <= c.validators && (|c.faulty| <= (c.Size() - 1) / 3 || |c.NonFaulty()| <= 1)
    ensures Total(c, Exec(c, actions))
  {
    var s := Exec(c, actions);
    ExecSound(c, actions);
    hide Exec, NodeSound, Sent;
    if EverybodyHanded(c, s) && ReadiesDrained(c, s) {
      if v :| HasDelivered(s, v) {
        if |c.NonFaulty()| <= 1 {
          forall w | w in c.NonFaulty() ensures HasDelivered(s, w) { OnlyOne(c.NonFaulty(), v, w); }
        } else {
          Totality(c, actions, v);
        }
      }
    }
  }
}
