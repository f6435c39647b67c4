/**
 * The sequencer's side: one certificate per finalized block, each naming the one before it
 * (certification.rs), and the block loops that drive it (proxy.rs).
 */
module Sequencer {
  import opened Wrappers
  import opened Certificates

  const BLOCK_HISTORY_LENGTH: nat := 256

  /** A finalized block with the targets of its cross-subnet messages. */
  datatype Block = Block(number: nat, targets: seq<SubnetId>)

  /** How ids are derived from a predecessor and a block; hashing itself is not modelled. */
  type Mint = (CertificateId, Block) -> CertificateId

  datatype Ledger = Ledger(
    lastCertificateId: Option<CertificateId>,
    finalizedBlocks: seq<Block>,
    subnet: SubnetId,
    startBlock: Option<nat>)

  datatype Outcome =
    | Generated(certificates: seq<Certificate>)
    | InvalidPreviousCertificateId
    | SameCertificateTwice

  datatype Generation = Generation(ledger: Ledger, outcome: Outcome)

  function Previous(l: Ledger): CertificateId {
    match l.lastCertificateId
    case Some(id) => id
    case None => INITIAL_CERTIFICATE_ID
  }

  function Certify(mint: Mint, l: Ledger, b: Block): Certificate {
    Certificate(mint(Previous(l), b), Previous(l), l.subnet, b.targets)
  }

  /** One certificate per block; the predecessor does not advance within the batch. */
  function CertifyAll(mint: Mint, l: Ledger, blocks: seq<Block>): seq<Certificate> {
    seq(|blocks|, i requires 0 <= i < |blocks| => Certify(mint, l, blocks[i]))
  }

  predicate IsGenesis(l: Ledger) {
    l.finalizedBlocks != [] && (l.finalizedBlocks[0].number == 0 || l.startBlock.Some?)
  }

  /** `generate_certificates`. */
  function Generate(mint: Mint, l: Ledger): Generation {
    var certificates := CertifyAll(mint, l, l.finalizedBlocks);
    if !IsGenesis(l) && l.lastCertificateId.None? then
      Generation(l, InvalidPreviousCertificateId)
    else
      var lastKnown := if IsGenesis(l) then INITIAL_CERTIFICATE_ID else l.lastCertificateId.value;
      if exists i :: 0 <= i < |certificates| && certificates[i].id == lastKnown then
        Generation(l, SameCertificateTwice)
      else
        Generation(
          l.(lastCertificateId := if certificates == [] then l.lastCertificateId
                                  else Some(certificates[|certificates| - 1].id),
             finalizedBlocks := []),
          Generated(certificates))
  }

  /** The newest `BLOCK_HISTORY_LENGTH` blocks. */
  function Recent(blocks: seq<Block>): seq<Block> {
    if |blocks| > BLOCK_HISTORY_LENGTH then blocks[|blocks| - BLOCK_HISTORY_LENGTH..] else blocks
  }

  /** The history never exceeds its bound, and only the oldest blocks are dropped. */
  lemma RecentKeepsNewest(blocks: seq<Block>)
    ensures var kept, n := Recent(blocks), |blocks|;
            && |kept| == (if n <= 256 then n else 256)
            && forall i :: 0 <= i < |kept| ==> kept[i] == blocks[n - |kept| + i]
  {
  }

  /**
   * A generation for any number of blocks: one certificate per block, in order, all naming the same
   * predecessor; the last one becomes the head and the history is emptied. It fails, and changes
   * nothing, if there is no predecessor and the first block is no genesis, or if some new id is the
   * last known one: the initial id for a genesis, else the predecessor.
   */
  lemma GenerateIs(mint: Mint, l: Ledger)
    ensures var g, blocks, previous := Generate(mint, l), l.finalizedBlocks,
                    if l.lastCertificateId.Some? then l.lastCertificateId.value else INITIAL_CERTIFICATE_ID;
            var genesis := blocks != [] && (blocks[0].number == 0 || l.startBlock.Some?);
            var lost := !genesis && l.lastCertificateId.None?;
            var known := if genesis then INITIAL_CERTIFICATE_ID else previous;
            && (g.outcome.InvalidPreviousCertificateId? <==> lost)
            && (g.outcome.SameCertificateTwice? <==>
                  !lost && exists i :: 0 <= i < |blocks| && mint(previous, blocks[i]) == known)
            && (!g.outcome.Generated? ==> g.ledger == l)
            && (g.outcome.Generated? ==>
                  && |g.outcome.certificates| == |blocks|
                  && (forall i :: 0 <= i < |blocks| ==>
                        g.outcome.certificates[i] ==
                        Certificate(mint(previous, blocks[i]), previous, l.subnet, blocks[i].targets))
                  && g.ledger == l.(finalizedBlocks := [],
                                    lastCertificateId := if blocks == [] then l.lastCertificateId
                                                         else Some(mint(previous, blocks[|blocks| - 1]))))
  {
    var certificates, blocks := CertifyAll(mint, l, l.finalizedBlocks), l.finalizedBlocks;
    assert forall i :: 0 <= i < |blocks| ==> certificates[i] == Certify(mint, l, blocks[i]);
    if i :| 0 <= i < |blocks| && mint(Previous(l), blocks[i]) == (if IsGenesis(l) then 0 else Previous(l)) {
      assert certificates[i].id == mint(Previous(l), blocks[i]);
    }
  }

  /** The object behind the certification lock. */
  class Certification {
    const mint: Mint
    const subnet: SubnetId
    const startBlock: Option<nat>
    var lastCertificateId: Option<CertificateId>
    var finalizedBlocks: seq<Block>

    function View(): Ledger
      reads this
    {
      Ledger(lastCertificateId, finalizedBlocks, subnet, startBlock)
    }

    constructor (mint: Mint, subnet: SubnetId, head: Option<CertificateId>, startBlock: Option<nat>)
      ensures this.mint == mint && View() == Ledger(head, [], subnet, startBlock)
    {
      this.mint, this.subnet, this.startBlock := mint, subnet, startBlock;
      lastCertificateId, finalizedBlocks := head, [];
    }

    /** Keeps the newest blocks when the history overflows. */
    method AppendBlocks(blocks: seq<Block>)
      modifies this`finalizedBlocks
      ensures finalizedBlocks == Recent(old(finalizedBlocks) + blocks)
    {
      ghost var all := finalizedBlocks + blocks;
      finalizedBlocks := finalizedBlocks + blocks;
      while |finalizedBlocks| > BLOCK_HISTORY_LENGTH
        invariant |finalizedBlocks| <= |all| && finalizedBlocks == all[|all| - |finalizedBlocks|..]
        invariant |finalizedBlocks| < BLOCK_HISTORY_LENGTH ==> finalizedBlocks == all
      {
        finalizedBlocks := finalizedBlocks[1..];
      }
    }

    method GenerateCertificates() returns (outcome: Outcome)
      modifies this
      ensures Generation(View(), outcome) == Generate(mint, old(View()))
    {
      var generated: seq<Certificate> := [];
      for i := 0 to |finalizedBlocks|
        invariant View() == old(View())
        invariant generated == CertifyAll(mint, View(), finalizedBlocks)[..i]
      {
        generated := generated + [Certify(mint, View(), finalizedBlocks[i])];
      }
      assert generated == CertifyAll(mint, View(), finalizedBlocks);
      var genesis := finalizedBlocks != [] && (finalizedBlocks[0].number == 0 || startBlock.Some?);
      if !genesis && lastCertificateId.None? {
        return InvalidPreviousCertificateId;
      }
      var lastKnown := if genesis then INITIAL_CERTIFICATE_ID else lastCertificateId.value;
      for i := 0 to |generated|
        invariant View() == old(View())
        invariant forall j :: 0 <= j < i ==> generated[j].id != lastKnown
      {
        if generated[i].id == lastKnown {
          assert CertifyAll(mint, View(), finalizedBlocks)[i].id == lastKnown;
          return SameCertificateTwice;
        }
      }
      if generated != [] {
        lastCertificateId := Some(generated[|generated| - 1].id);
      }
      finalizedBlocks := [];
      outcome := Generated(generated);
    }
  }

  // ----- Chains -----

  function IdBefore(first: CertificateId, certificates: seq<Certificate>, i: nat): CertificateId
    requires i <= |certificates|
  {
    if i == 0 then first else certificates[i - 1].id
  }

  /** Each certificate names the one before it, the first one names `first`. */
  predicate Linked(first: CertificateId, certificates: seq<Certificate>) {
    forall i :: 0 <= i < |certificates| ==> certificates[i].prevId == IdBefore(first, certificates, i)
  }

  lemma LinkedAppend(first: CertificateId, certificates: seq<Certificate>, c: Certificate)
    requires Linked(first, certificates) && c.prevId == IdBefore(first, certificates, |certificates|)
    ensures Linked(first, certificates + [c])
  {
    var longer := certificates + [c];
    forall i | 0 <= i < |longer|
      ensures longer[i].prevId == IdBefore(first, longer, i)
    {
      assert IdBefore(first, longer, i) == IdBefore(first, certificates, i);
    }
  }

  /**
   * A batch is a chain exactly when it has at most one block: within a batch all
   * certificates name the same predecessor. No id equals the id it is derived from.
   */
  lemma BatchLinkedIff(mint: Mint, l: Ledger)
    requires forall b :: mint(Previous(l), b) != Previous(l)
    ensures Linked(Previous(l), CertifyAll(mint, l, l.finalizedBlocks)) <==> |l.finalizedBlocks| <= 1
  {
    var certificates := CertifyAll(mint, l, l.finalizedBlocks);
    if |certificates| > 1 {
      assert IdBefore(Previous(l), certificates, 1) == mint(Previous(l), l.finalizedBlocks[0]);
    }
  }

  // ----- The block loops -----

  /** Where the sequencer starts: the head known to the TCE, or the configured start block. */
  datatype Origin = Origin(
    head: Option<CertificateId>,
    headPosition: nat,
    startBlock: Option<nat>,
    subnet: SubnetId,
    checked: bool)

  function FirstBlock(o: Origin): nat {
    if o.head.Some? then o.headPosition + 1
    else if o.startBlock.Some? then o.startBlock.value
    else 0
  }

  datatype Phase = Syncing(upTo: int) | Listening | Stopped

  datatype Emitted = Emitted(certificate: Certificate, block: nat)

  datatype Worker = Worker(ledger: Ledger, latest: int, phase: Phase, emitted: seq<Emitted>)

  /**
   * The block before a configured start block of zero underflows: the task panics, or waits for
   * a height no chain reaches. Either way it certifies nothing.
   */
  function FirstPhase(o: Origin): Phase {
    if o.startBlock == Some(0) && (o.head.None? || o.checked) then Stopped else Syncing(FirstBlock(o) - 1)
  }

  function Begin(o: Origin): Worker {
    Worker(Ledger(o.head, [], o.subnet, o.startBlock), FirstBlock(o) - 1, FirstPhase(o), [])
  }

  datatype Fetch = Available(targets: seq<SubnetId>) | NotAvailable | Failed

  datatype Event =
    | Queried(current: int)
    | QueryFailed
    | Fetched(result: Fetch)

  /** `process_next_block` with a block that was available. */
  function Process(mint: Mint, w: Worker, targets: seq<SubnetId>): Worker
    requires w.latest >= -1
  {
    var block := Block(w.latest + 1, targets);
    var g := Generate(mint, w.ledger.(finalizedBlocks := Recent(w.ledger.finalizedBlocks + [block])));
    match g.outcome
    case Generated(certificates) =>
      Worker(g.ledger, w.latest + 1, w.phase,
             w.emitted + seq(|certificates|, i requires 0 <= i < |certificates| =>
                                               Emitted(certificates[i], w.latest + 1)))
    case _ => w.(ledger := g.ledger, phase := Stopped)
  }

  /** One event of the synchronisation loop or of the listening loop. */
  function Step(mint: Mint, w: Worker, e: Event): Worker
    requires w.latest >= -1
  {
    match e
    case Queried(current) =>
      // asked again only once the previous answer has been caught up with
      if !w.phase.Syncing? || w.latest < w.phase.upTo then w
      else if w.latest == current then w.(phase := Listening)
      else w.(phase := Syncing(current))
    case QueryFailed =>
      if !w.phase.Syncing? || w.latest < w.phase.upTo then w else w.(phase := Stopped)
    case Fetched(result) =>
      if w.phase.Stopped? || (w.phase.Syncing? && w.latest >= w.phase.upTo) then w
      else
        match result
        case Available(targets) => Process(mint, w, targets)
        case NotAvailable => if w.phase.Listening? then w else w.(phase := Stopped)
        case Failed => w.(phase := Stopped)
  }

  function Run(mint: Mint, o: Origin, events: seq<Event>): (w: Worker)
    ensures w.latest >= -1
  {
    if events == [] then Begin(o)
    else Step(mint, Run(mint, o, events[..|events| - 1]), events[|events| - 1])
  }

  /** The task that owns the certification and runs the block loops, proved against `Step`. */
  class BlockTask {
    const certification: Certification
    var latest: int
    var phase: Phase
    var emitted: seq<Emitted>

    ghost predicate Valid()
      reads this
    {
      latest >= -1
    }

    function View(): Worker
      reads this, certification
    {
      Worker(certification.View(), latest, phase, emitted)
    }

    constructor (mint: Mint, o: Origin)
      ensures Valid() && View() == Begin(o) && certification.mint == mint && fresh(certification)
    {
      certification := new Certification(mint, o.subnet, o.head, o.startBlock);
      latest := FirstBlock(o) - 1;
      phase := if o.startBlock == Some(0) && (o.head.None? || o.checked) then Stopped else Syncing(FirstBlock(o) - 1);
      emitted := [];
    }

    method ProcessNextBlock(targets: seq<SubnetId>) returns (failed: bool)
      requires Valid()
      modifies this`emitted, certification
      ensures var after := Process(certification.mint, old(View()), targets);
              && certification.View() == after.ledger && emitted == after.emitted
              && failed == (after.latest == latest)
      ensures failed ==> Process(certification.mint, old(View()), targets) == View().(phase := Stopped)
      ensures !failed ==> Process(certification.mint, old(View()), targets) == View().(latest := latest + 1)
    {
      certification.AppendBlocks([Block(latest + 1, targets)]);
      var outcome := certification.GenerateCertificates();
      if !outcome.Generated? {
        return true;
      }
      var block := latest + 1;
      emitted := emitted + seq(|outcome.certificates|, i requires 0 <= i < |outcome.certificates| =>
                                 Emitted(outcome.certificates[i], block));
      return false;
    }

    method OnEvent(e: Event)
      requires Valid()
      modifies this, certification
      ensures Valid() && View() == Step(certification.mint, old(View()), e)
    {
      match e
      case Queried(current) =>
        if phase.Syncing? && latest >= phase.upTo {
          if latest == current {
            phase := Listening;
          } else {
            phase := Syncing(current);
          }
        }
      case QueryFailed =>
        if phase.Syncing? && latest >= phase.upTo {
          phase := Stopped;
        }
      case Fetched(result) =>
        if phase.Stopped? || (phase.Syncing? && latest >= phase.upTo) {
          return;
        }
        match result
        case Available(targets) =>
          var failed := ProcessNextBlock(targets);
          if failed {
            phase := Stopped;
          } else {
            latest := latest + 1;
          }
        case NotAvailable =>
          if !phase.Listening? {
            phase := Stopped;
          }
        case Failed =>
          phase := Stopped;
    }
  }

  ghost function Produced(w: Worker): seq<Certificate> {
    seq(|w.emitted|, i requires 0 <= i < |w.emitted| => w.emitted[i].certificate)
  }

  function ChainStart(o: Origin): CertificateId {
    if o.head.Some? then o.head.value else INITIAL_CERTIFICATE_ID
  }

  /** Blocks come consecutively, one certificate each, and the certificates form one chain. */
  ghost predicate OneChain(o: Origin, w: Worker) {
    && w.ledger.subnet == o.subnet && w.ledger.startBlock == o.startBlock
    && (forall i :: 0 <= i < |w.emitted| ==>
          w.emitted[i].block == FirstBlock(o) + i && w.emitted[i].certificate.source == o.subnet)
    && Linked(ChainStart(o), Produced(w))
    && w.latest == FirstBlock(o) + |w.emitted| - 1
    && Previous(w.ledger) == (if w.emitted == [] then ChainStart(o) else w.emitted[|w.emitted| - 1].certificate.id)
  }

  /** While the loops run there is no leftover block and a predecessor to name. */
  ghost predicate Clean(o: Origin, w: Worker) {
    !w.phase.Stopped? ==>
      w.ledger.finalizedBlocks == [] && (w.ledger.lastCertificateId.Some? || (w.emitted == [] && o.head.None?))
  }

  lemma ProcessOne(mint: Mint, o: Origin, w: Worker, targets: seq<SubnetId>)
    requires OneChain(o, w) && Clean(o, w) && !w.phase.Stopped?
    ensures var blocks := Recent(w.ledger.finalizedBlocks + [Block(w.latest + 1, targets)]);
            var g := Generate(mint, w.ledger.(finalizedBlocks := blocks));
            !g.outcome.InvalidPreviousCertificateId?
    ensures OneChain(o, Process(mint, w, targets)) && Clean(o, Process(mint, w, targets))
  {
    var block := Block(w.latest + 1, targets);
    var l := w.ledger.(finalizedBlocks := [block]);
    assert Recent(w.ledger.finalizedBlocks + [block]) == [block];
    var certificates := CertifyAll(mint, l, [block]);
    assert |certificates| == 1 && certificates[0].prevId == Previous(w.ledger);
    var w' := Process(mint, w, targets);
    if w'.emitted != w.emitted {
      assert w'.emitted == w.emitted + [Emitted(certificates[0], w.latest + 1)];
      assert Produced(w') == Produced(w) + [certificates[0]];
      LinkedAppend(ChainStart(o), Produced(w), certificates[0]);
    }
  }

  lemma StepOneChain(mint: Mint, o: Origin, w: Worker, e: Event)
    requires OneChain(o, w) && Clean(o, w)
    ensures OneChain(o, Step(mint, w, e)) && Clean(o, Step(mint, w, e))
  {
    if e.Fetched? && e.result.Available? && !w.phase.Stopped? {
      ProcessOne(mint, o, w, e.result.targets);
    }
    hide Process;
    var w' := Step(mint, w, e);
    assert w'.emitted == w.emitted ==> Produced(w') == Produced(w);
  }

  /**
   * Over any run of the block loops, with retries and errors, the certified blocks are the
   * consecutive ones from the first, each once, and the certificates are one linear chain
   * that continues the head.
   */
  lemma {:induction false} EveryRunOneChain(mint: Mint, o: Origin, events: seq<Event>)
    ensures OneChain(o, Run(mint, o, events)) && Clean(o, Run(mint, o, events))
  {
    if events != [] {
      EveryRunOneChain(mint, o, events[..|events| - 1]);
      StepOneChain(mint, o, Run(mint, o, events[..|events| - 1]), events[|events| - 1]);
      hide Step, OneChain, Clean;
    }
  }

  /** The id a new certificate must not repeat: the initial one for a block taken as genesis, else the predecessor's. */
  function LastKnown(l: Ledger, b: Block): CertificateId {
    if b.number == 0 || l.startBlock.Some? then INITIAL_CERTIFICATE_ID else Previous(l)
  }

  /**
   * An available block that the loops wait for is certified, with its number and its targets,
   * exactly when its id does not repeat the last known one; otherwise the task stops.
   */
  lemma {:induction false} AvailableIsCertified(mint: Mint, o: Origin, events: seq<Event>, targets: seq<SubnetId>)
    requires var w := Run(mint, o, events);
             !w.phase.Stopped? && (w.phase.Syncing? ==> w.latest < w.phase.upTo)
    ensures var w := Run(mint, o, events);
            var block := Block(w.latest + 1, targets);
            var after := Step(mint, w, Fetched(Available(targets)));
            if mint(Previous(w.ledger), block) == LastKnown(w.ledger, block) then
              after.phase.Stopped? && after.emitted == w.emitted
            else
              && |after.emitted| == |w.emitted| + 1 && w.emitted <= after.emitted && after.phase == w.phase
              && after.emitted[|w.emitted|].block == FirstBlock(o) + |w.emitted|
              && after.emitted[|w.emitted|].certificate.targets == targets
  {
    hide Run, Process, OneChain, Clean, LastKnown;
    EveryRunOneChain(mint, o, events);
    var w := Run(mint, o, events);
    LatestIs(o, w);
    CertifiedIff(mint, o, w, targets);
  }

  lemma LatestIs(o: Origin, w: Worker)
    requires OneChain(o, w)
    ensures w.latest + 1 == FirstBlock(o) + |w.emitted|
  {
  }

  lemma CertifiedIff(mint: Mint, o: Origin, w: Worker, targets: seq<SubnetId>)
    requires OneChain(o, w) && Clean(o, w) && !w.phase.Stopped?
    ensures var block := Block(w.latest + 1, targets);
            var after := Process(mint, w, targets);
            if mint(Previous(w.ledger), block) == LastKnown(w.ledger, block) then
              after.phase.Stopped? && after.emitted == w.emitted
            else
              after.phase == w.phase
              && after.emitted == w.emitted + [Emitted(Certify(mint, w.ledger, block), w.latest + 1)]
  {
    var block := Block(w.latest + 1, targets);
    var l := w.ledger.(finalizedBlocks := [block]);
    assert Recent(w.ledger.finalizedBlocks + [block]) == [block];
    var certificates := CertifyAll(mint, l, [block]);
    assert certificates == [Certify(mint, w.ledger, block)];
    hide OneChain;
    assert certificates[0].id == mint(Previous(w.ledger), block);
  }

  /** A configured start block of zero certifies nothing without a head, or at all if overflow is checked. */
  lemma {:induction false} NothingFromZero(mint: Mint, o: Origin, events: seq<Event>)
    requires o.startBlock == Some(0) && (o.head.None? || o.checked)
    ensures Run(mint, o, events).phase.Stopped? && Run(mint, o, events).emitted == []
  {
    if events != [] {
      NothingFromZero(mint, o, events[..|events| - 1]);
      hide Process;
    }
  }

  /** The number of the `i`-th certified block, from the head, the configured start block or genesis. */
  lemma {:induction false} CertifiedBlocks(mint: Mint, o: Origin, events: seq<Event>, i: nat)
    requires i < |Run(mint, o, events).emitted|
    ensures Run(mint, o, events).emitted[i].block ==
            match o.head
            case Some(_) => o.headPosition + 1 + i
            case None => (match o.startBlock case Some(first) => first + i case None => i)
  {
    EveryRunOneChain(mint, o, events);
    hide Run;
  }
}
