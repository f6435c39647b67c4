/** When the block loops of a sequencer stop, when they listen, and how they catch up. */
module BlockLoops {
  import opened Wrappers
  import opened Certificates
  import opened Sequencer

  /** A block is asked for. */
  predicate AsksForBlock(w: Worker) {
    w.phase.Listening? || (w.phase.Syncing? && w.latest < w.phase.upTo)
  }

  /** The height of the chain is asked for. */
  predicate AsksForHeight(w: Worker) {
    w.phase.Syncing? && w.latest >= w.phase.upTo
  }

  /** The answer ends the task. */
  predicate Fatal(mint: Mint, w: Worker, e: Event)
    requires w.latest >= -1
  {
    match e
    case Queried(_) => false
    case QueryFailed => AsksForHeight(w)
    case Fetched(Failed) => AsksForBlock(w)
    case Fetched(NotAvailable) => AsksForBlock(w) && w.phase.Syncing?
    case Fetched(Available(targets)) =>
      var block := Block(w.latest + 1, targets);
      AsksForBlock(w) && mint(Previous(w.ledger), block) == LastKnown(w.ledger, block)
  }

  /** The answer ends the synchronisation: the chain is as high as what was certified. */
  predicate Arrives(w: Worker, e: Event) {
    e.Queried? && AsksForHeight(w) && e.current == w.latest
  }

  lemma {:induction false} RunNext(mint: Mint, o: Origin, events: seq<Event>, e: Event)
    ensures Run(mint, o, events + [e]) == Step(mint, Run(mint, o, events), e)
  {
    assert (events + [e])[..|events|] == events;
    hide Step;
  }

  lemma {:induction false} StepPhase(mint: Mint, o: Origin, w: Worker, e: Event)
    requires OneChain(o, w) && Clean(o, w)
    ensures var w' := Step(mint, w, e);
            && (w'.phase.Stopped? <==> w.phase.Stopped? || Fatal(mint, w, e))
            && (w'.phase.Listening? <==> Arrives(w, e) || (w.phase.Listening? && !Fatal(mint, w, e)))
  {
    if e.Fetched? && e.result.Available? && AsksForBlock(w) {
      CertifiedIff(mint, o, w, e.result.targets);
    }
    hide Process, OneChain, Clean, LastKnown;
  }

  ghost predicate FatalBefore(mint: Mint, o: Origin, events: seq<Event>, i: nat)
    requires i < |events|
  {
    Fatal(mint, Run(mint, o, events[..i]), events[i])
  }

  /**
   * A task has stopped exactly if it could not start, or some answer ended it: a failed query or block,
   * an unavailable block during synchronisation, or one whose certificate repeats the last known id.
   */
  lemma {:induction false} StoppedIff(mint: Mint, o: Origin, events: seq<Event>)
    ensures Run(mint, o, events).phase.Stopped? <==>
            || (o.startBlock == Some(0) && (o.head.None? || o.checked))
            || exists i :: 0 <= i < |events| && FatalBefore(mint, o, events, i)
  {
    if events != [] {
      var before, e := events[..|events| - 1], events[|events| - 1];
      StoppedIff(mint, o, before);
      EveryRunOneChain(mint, o, before);
      StepPhase(mint, o, Run(mint, o, before), e);
      hide Step, Fatal, OneChain, Clean;
      forall i | 0 <= i < |before|
        ensures FatalBefore(mint, o, events, i) <==> FatalBefore(mint, o, before, i)
      {
        assert before[..i] == events[..i] && before[i] == events[i];
      }
      assert FatalBefore(mint, o, events, |before|) <==> Fatal(mint, Run(mint, o, before), e);
    }
  }

  ghost predicate ArrivesBefore(mint: Mint, o: Origin, events: seq<Event>, i: nat)
    requires i < |events|
  {
    Arrives(Run(mint, o, events[..i]), events[i])
  }

  /** A task listens exactly if it has not stopped and some query found it as high as the chain. */
  lemma {:induction false} ListensIff(mint: Mint, o: Origin, events: seq<Event>)
    ensures Run(mint, o, events).phase.Listening? <==>
            && !Run(mint, o, events).phase.Stopped?
            && exists i :: 0 <= i < |events| && ArrivesBefore(mint, o, events, i)
  {
    if events != [] {
      var before, e := events[..|events| - 1], events[|events| - 1];
      ListensIff(mint, o, before);
      EveryRunOneChain(mint, o, before);
      StepPhase(mint, o, Run(mint, o, before), e);
      StoppedNow(mint, Run(mint, o, before), e);
      hide Step, Fatal, Arrives, OneChain, Clean;
      forall i | 0 <= i < |before|
        ensures ArrivesBefore(mint, o, events, i) <==> ArrivesBefore(mint, o, before, i)
      {
        assert before[..i] == events[..i] && before[i] == events[i];
      }
      assert ArrivesBefore(mint, o, events, |before|) <==> Arrives(Run(mint, o, before), e);
    }
  }

  /** Nothing is fatal to a task that has stopped, and no query that arrives is. */
  lemma StoppedNow(mint: Mint, w: Worker, e: Event)
    requires w.latest >= -1
    ensures w.phase.Stopped? ==> !Fatal(mint, w, e) && !Arrives(w, e)
    ensures Arrives(w, e) ==> !Fatal(mint, w, e)
  {
  }

  function Times<T>(x: T, k: nat): seq<T> {
    seq(k, _ => x)
  }

  /**
   * While it listens, the task asks for a block that is not there yet again and again without any
   * change, and then certifies it as if it had been there at once.
   */
  lemma {:induction false} RetriesChangeNothing(mint: Mint, o: Origin, events: seq<Event>, k: nat, e: Event)
    requires Run(mint, o, events).phase.Listening?
    ensures Run(mint, o, events + Times(Fetched(NotAvailable), k)) == Run(mint, o, events)
    ensures Run(mint, o, events + Times(Fetched(NotAvailable), k) + [e]) == Run(mint, o, events + [e])
  {
    hide Run, Step;
    var all := events + Times(Fetched(NotAvailable), k);
    if k == 0 {
      assert all == events;
    } else {
      RetriesChangeNothing(mint, o, events, k - 1, e);
      var fewer := events + Times(Fetched(NotAvailable), k - 1);
      assert all == fewer + [Fetched(NotAvailable)];
      RunNext(mint, o, fewer, Fetched(NotAvailable));
      RetryOnce(mint, Run(mint, o, events));
    }
    RunNext(mint, o, all, e);
    RunNext(mint, o, events, e);
  }

  lemma RetryOnce(mint: Mint, w: Worker)
    requires w.latest >= -1 && w.phase.Listening?
    ensures Step(mint, w, Fetched(NotAvailable)) == w
  {
  }

  /** No id repeats the one it is derived from, or the initial one. */
  ghost predicate NeverRepeats(mint: Mint) {
    forall id, b :: mint(id, b) != id && mint(id, b) != INITIAL_CERTIFICATE_ID
  }

  /** The blocks come in one by one. */
  function Blocks(blocks: seq<seq<SubnetId>>): seq<Event> {
    seq(|blocks|, i requires 0 <= i < |blocks| => Fetched(Available(blocks[i])))
  }

  /** What the worker has certified since: these blocks, in order, with the next numbers. */
  ghost predicate HasCertified(w: Worker, w': Worker, blocks: seq<seq<SubnetId>>) {
    && w'.latest == w.latest + |blocks| && |w'.emitted| == |w.emitted| + |blocks| && w.emitted <= w'.emitted
    && forall i :: 0 <= i < |blocks| ==> IsCertificateOf(w'.emitted[|w.emitted| + i], blocks[i], w.latest + 1 + i)
  }

  ghost predicate IsCertificateOf(e: Emitted, targets: seq<SubnetId>, number: int) {
    e.certificate.targets == targets && e.block == number
  }

  lemma {:induction false} TakesBlocks(mint: Mint, o: Origin, events: seq<Event>, blocks: seq<seq<SubnetId>>)
    requires NeverRepeats(mint)
    requires var w := Run(mint, o, events);
             w.phase.Listening? || (w.phase.Syncing? && w.latest + |blocks| <= w.phase.upTo)
    ensures var w, w' := Run(mint, o, events), Run(mint, o, events + Blocks(blocks));
            w'.phase == w.phase && HasCertified(w, w', blocks)
  {
    hide Run, Step, Blocks, OneChain, Clean, NeverRepeats;
    if blocks == [] {
      NoBlocks(events);
    } else {
      var before, last := blocks[..|blocks| - 1], blocks[|blocks| - 1];
      TakesBlocks(mint, o, events, before);
      assert blocks == before + [last];
      BlocksNext(events, before, last);
      var some := events + Blocks(before);
      RunNext(mint, o, some, Fetched(Available(last)));
      EveryRunOneChain(mint, o, some);
      TakesOne(mint, o, Run(mint, o, some), last);
      CertifiedMore(Run(mint, o, events), Run(mint, o, some), Run(mint, o, some + [Fetched(Available(last))]),
                    before, last);
      hide HasCertified;
    }
  }

  lemma NoBlocks(events: seq<Event>)
    ensures events + Blocks([]) == events
  {
  }

  lemma BlocksNext(events: seq<Event>, blocks: seq<seq<SubnetId>>, last: seq<SubnetId>)
    ensures events + Blocks(blocks + [last]) == events + Blocks(blocks) + [Fetched(Available(last))]
  {
  }

  lemma CertifiedMore(w: Worker, mid: Worker, w': Worker, blocks: seq<seq<SubnetId>>, last: seq<SubnetId>)
    requires HasCertified(w, mid, blocks) && w'.latest == mid.latest + 1
    requires |w'.emitted| == |mid.emitted| + 1 && mid.emitted <= w'.emitted
    requires w'.emitted[|mid.emitted|].certificate.targets == last && w'.emitted[|mid.emitted|].block == mid.latest + 1
    ensures HasCertified(w, w', blocks + [last])
  {
    var all := blocks + [last];
    forall i | 0 <= i < |all|
      ensures IsCertificateOf(w'.emitted[|w.emitted| + i], all[i], w.latest + 1 + i)
    {
      if i < |blocks| {
        assert all[i] == blocks[i] && w'.emitted[|w.emitted| + i] == mid.emitted[|w.emitted| + i];
        assert IsCertificateOf(mid.emitted[|w.emitted| + i], blocks[i], w.latest + 1 + i);
      }
    }
  }

  /** One more block is certified. */
  lemma TakesOne(mint: Mint, o: Origin, w: Worker, targets: seq<SubnetId>)
    requires NeverRepeats(mint) && OneChain(o, w) && Clean(o, w) && AsksForBlock(w)
    ensures var w' := Step(mint, w, Fetched(Available(targets)));
            && w'.phase == w.phase && w'.latest == w.latest + 1
            && |w'.emitted| == |w.emitted| + 1 && w.emitted <= w'.emitted
            && w'.emitted[|w.emitted|].certificate.targets == targets && w'.emitted[|w.emitted|].block == w.latest + 1
  {
    NotKnown(mint, w.ledger, Block(w.latest + 1, targets));
    CertifiedIff(mint, o, w, targets);
    ProcessedLatest(mint, w, targets);
    hide Process, OneChain, Clean, LastKnown, NeverRepeats;
  }

  lemma ProcessedLatest(mint: Mint, w: Worker, targets: seq<SubnetId>)
    requires w.latest >= -1 && !Process(mint, w, targets).phase.Stopped?
    ensures Process(mint, w, targets).latest == w.latest + 1
  {
    hide Generate, Recent;
  }

  lemma NotKnown(mint: Mint, l: Ledger, b: Block)
    requires NeverRepeats(mint)
    ensures mint(Previous(l), b) != LastKnown(l, b)
  {
  }

  /**
   * Catching up. A task that asks for the height, hears how far behind it is, gets the missing blocks
   * and hears the same height again has certified exactly these blocks, in order, and listens.
   */
  lemma {:induction false} CatchesUp(mint: Mint, o: Origin, events: seq<Event>, blocks: seq<seq<SubnetId>>)
    requires NeverRepeats(mint) && AsksForHeight(Run(mint, o, events))
    ensures var w := Run(mint, o, events);
            var height := Queried(w.latest + |blocks|);
            var w' := Run(mint, o, events + [height] + Blocks(blocks) + [height]);
            w'.phase.Listening? && HasCertified(w, w', blocks)
  {
    var w := Run(mint, o, events);
    var height := Queried(w.latest + |blocks|);
    hide Run, Process, NeverRepeats;
    RunNext(mint, o, events, height);
    RunNext(mint, o, events + [height] + Blocks(blocks), height);
    var asked := Run(mint, o, events + [height]);
    assert asked.latest == w.latest && asked.emitted == w.emitted;
    if |blocks| == 0 {
      assert asked.phase.Listening?;
    } else {
      assert asked.phase == Syncing(w.latest + |blocks|);
    }
    TakesBlocks(mint, o, events + [height], blocks);
  }
}
