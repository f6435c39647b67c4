/** A window, reached by a concrete run: a waiting task whose predecessor is already delivered. */
module Windows {
  import opened Wrappers
  import opened Certificates
  import opened Quorum
  import opened DoubleEcho
  import opened TaskManager
  import opened NodeRuns
  import opened Chains
  import opened ForkFreeRuns
  import opened Agreement
  import V = ValidatorStore

  const FIRST: Certificate := Certificate(1, INITIAL_CERTIFICATE_ID, 0, [])
  const SECOND: Certificate := Certificate(2, 1, 0, [])
  const BOTH: Universe := map[1 := FIRST, 2 := SECOND]

  ghost function Then(r: Run, a: Action): Run {
    Run(r.validators, r.params, r.actions + [a])
  }

  lemma Extend(r: Run, u: Universe, s: SubnetId, a: Action)
    requires r.Over(u, s) && Admissible(r.Node(), u, s, a)
    ensures Then(r, a).Over(u, s) && Then(r, a).Node() == Step(r.Node(), a)
  {
    assert (r.actions + [a])[..|r.actions|] == r.actions;
    hide Step, Admissible;
  }

  const OPENED: State := Start(FIRST, {7}, Params(1, 1, 1), false)
  const BOOTED: State := OPENED.(expectedPosition := Some(0))

  /** The first certificate runs in state `st` with `votes` in its sink; the second one waits. */
  ghost predicate Halfway(n: Node, st: State, votes: seq<Vote>) {
    && 1 in n.running && n.running[1].state == st && 1 in n.tasks && n.tasks[1] == votes
    && 1 in n.precedence && n.finished == map[] && n.store == V.EMPTY_STORE
  }

  lemma Opening(r: Run) returns (r': Run)
    requires r == Run({7}, Params(1, 1, 1), [])
    ensures r'.Over(BOTH, 0) && Halfway(r'.Node(), OPENED, []) && |r'.actions| == 2
  {
    TwoInAChain();
    Beginning(r);
    hide ForkFree, DoBroadcast, Exec, AdmissibleRun;
    Extend(r, BOTH, 0, OnBroadcast(FIRST, false));
    var one := Then(r, OnBroadcast(FIRST, false));
    BroadcastShape(r.Node(), FIRST, false);
    Extend(one, BOTH, 0, OnBroadcast(SECOND, false));
    r' := Then(one, OnBroadcast(SECOND, false));
    BroadcastShape(one.Node(), SECOND, false);
  }

  lemma {:induction false} Beginning(r: Run)
    requires r == Run({7}, Params(1, 1, 1), [])
    ensures r.Node() == Init({7}, Params(1, 1, 1)) && AdmissibleRun({7}, Params(1, 1, 1), BOTH, 0, [])
  {
  }

  lemma TwoInAChain()
    ensures ForkFree(BOTH, 0) && |BOTH| <= MAX_U64
  {
  }

  lemma Voting(n: Node, st: State, votes: seq<Vote>, vote: Vote)
    requires Halfway(n, st, votes)
    ensures Halfway(Step(n, OnVote(1, vote)), st, votes + [vote])
  {
  }

  lemma Booting(n: Node, votes: seq<Vote>)
    requires Halfway(n, OPENED, votes)
    ensures Halfway(Step(n, Boot(1)), BOOTED, votes)
  {
  }

  lemma Polling(n: Node, st: State, votes: seq<Vote>, vote: Vote)
    requires Halfway(n, st, [vote] + votes) && st.expectedPosition.Some?
    requires Apply(st, vote).change != Some(DeliveredWithReadySent)
    ensures Halfway(Step(n, Poll(1)), Apply(st, vote).state, votes)
  {
    hide Apply;
  }

  lemma Delivering(n: Node, st: State, vote: Vote)
    requires Halfway(n, st, [vote]) && st.expectedPosition.Some? && st.certificate == FIRST
    requires Apply(st, vote).change == Some(DeliveredWithReadySent)
    ensures var n' := Step(n, Poll(1));
            && 1 in n'.precedence && V.IsDelivered(n'.store, 1)
            && n'.finished == map[1 := Success] && n'.tasks.Keys == n.tasks.Keys
  {
    ApplyFrame(st, vote);
    hide Apply;
    V.DeliverTables(n.store, TaskManager.Delivering(n, 1));
    PromotionSucceeds(n.store, TaskManager.Delivering(n, 1));
    hide V.Deliver;
  }

  /** The two votes of the only validator lead to Ready and to delivery. */
  lemma Counting()
    ensures var ready := Apply(BOOTED, Echo(7));
            && ready.change == Some(ReadySent) && ready.state.expectedPosition == Some(0)
            && ready.state.certificate == FIRST
            && Apply(ready.state, Ready(7)).change == Some(DeliveredWithReadySent)
  {
    assert {7} - {7} == {};
  }

  /** The waiting second certificate stays where it is while the first one is delivered. */
  lemma WaitingBehindDelivered() returns (r: Run)
    ensures r.Over(BOTH, 0)
    ensures 1 in r.Node().precedence && V.IsDelivered(r.Node().store, 1)
  {
    hide Step, Exec, Halfway, Apply, V.IsDelivered, AdmissibleRun, ForkFree;
    r := Opening(Run({7}, Params(1, 1, 1), []));
    Voting(r.Node(), OPENED, [], Echo(7));
    Extend(r, BOTH, 0, OnVote(1, Echo(7)));
    r := Then(r, OnVote(1, Echo(7)));
    Voting(r.Node(), OPENED, [Echo(7)], Ready(7));
    Extend(r, BOTH, 0, OnVote(1, Ready(7)));
    r := Then(r, OnVote(1, Ready(7)));
    Booting(r.Node(), [Echo(7), Ready(7)]);
    Extend(r, BOTH, 0, Boot(1));
    r := Then(r, Boot(1));
    Counting();
    Polling(r.Node(), BOOTED, [Ready(7)], Echo(7));
    Extend(r, BOTH, 0, Poll(1));
    r := Then(r, Poll(1));
    Delivering(r.Node(), Apply(BOOTED, Echo(7)).state, Ready(7));
    Extend(r, BOTH, 0, Poll(1));
    r := Then(r, Poll(1));
  }
}
