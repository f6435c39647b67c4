/** Several sequencers together: a subnet that only one of them serves never forks. */
module Subnets {
  import opened Certificates
  import opened Chains
  import S = Sequencer

  ghost predicate DistinctIds(certificates: seq<Certificate>) {
    && (forall i, j :: 0 <= i < j < |certificates| ==> certificates[i].id != certificates[j].id)
    && (forall i :: 0 <= i < |certificates| ==> certificates[i].id != INITIAL_CERTIFICATE_ID)
  }

  /** The certificates by id. */
  ghost function ById(certificates: seq<Certificate>): Universe {
    if certificates == [] then map[]
    else
      var last := certificates[|certificates| - 1];
      ById(certificates[..|certificates| - 1])[last.id := last]
  }

  lemma {:induction false} ByIdIs(certificates: seq<Certificate>)
    requires DistinctIds(certificates)
    ensures forall i :: 0 <= i < |certificates| ==> Known(ById(certificates), certificates[i])
    ensures forall id :: id in ById(certificates) ==> exists i :: 0 <= i < |certificates| && certificates[i].id == id
  {
    if certificates != [] {
      var before := certificates[..|certificates| - 1];
      ByIdIs(before);
      forall id | id in ById(certificates)
        ensures exists i :: 0 <= i < |certificates| && certificates[i].id == id
      {
        if id in ById(before) {
          var i :| 0 <= i < |before| && before[i].id == id;
          assert certificates[i].id == id;
        } else {
          assert certificates[|certificates| - 1].id == id;
        }
      }
    }
  }

  // ----- Chains side by side -----

  ghost function Joined(chains: seq<seq<Certificate>>): seq<Certificate> {
    if chains == [] then [] else Joined(chains[..|chains| - 1]) + chains[|chains| - 1]
  }

  ghost function Offset(chains: seq<seq<Certificate>>, k: nat): nat
    requires k <= |chains|
  {
    |Joined(chains[..k])|
  }

  lemma {:induction false} InJoined(chains: seq<seq<Certificate>>, k: nat, j: nat)
    requires k < |chains| && j < |chains[k]|
    ensures Offset(chains, k) + j < |Joined(chains)| && Joined(chains)[Offset(chains, k) + j] == chains[k][j]
  {
    var before := chains[..|chains| - 1];
    if k < |before| {
      InJoined(before, k, j);
      assert before[..k] == chains[..k];
    }
  }

  lemma {:induction false} FromJoined(chains: seq<seq<Certificate>>, i: nat) returns (k: nat, j: nat)
    requires i < |Joined(chains)|
    ensures k < |chains| && j < |chains[k]| && Joined(chains)[i] == chains[k][j]
  {
    var before := chains[..|chains| - 1];
    if i < |Joined(before)| {
      k, j := FromJoined(before, i);
    } else {
      k, j := |chains| - 1, i - |Joined(before)|;
    }
  }

  /** Chains that each start from nothing and stay in one subnet. */
  ghost predicate Strands(chains: seq<seq<Certificate>>, subnets: seq<SubnetId>) {
    && |chains| == |subnets|
    && (forall k :: 0 <= k < |chains| ==>
          && S.Linked(INITIAL_CERTIFICATE_ID, chains[k])
          && forall j :: 0 <= j < |chains[k]| ==> chains[k][j].source == subnets[k])
  }

  /** The certificate of a strand, its predecessor and its subnet. */
  lemma StrandLink(chains: seq<seq<Certificate>>, subnets: seq<SubnetId>, k: nat, j: nat)
    requires Strands(chains, subnets) && k < |chains| && j < |chains[k]|
    ensures chains[k][j].source == subnets[k]
    ensures chains[k][j].prevId == (if j == 0 then INITIAL_CERTIFICATE_ID else chains[k][j - 1].id)
  {
    assert chains[k][j].prevId == S.IdBefore(INITIAL_CERTIFICATE_ID, chains[k], j);
  }

  lemma {:induction false} StrandKnown(chains: seq<seq<Certificate>>, k: nat, j: nat)
    requires DistinctIds(Joined(chains)) && k < |chains| && j < |chains[k]|
    ensures Known(ById(Joined(chains)), chains[k][j]) && chains[k][j].id != INITIAL_CERTIFICATE_ID
  {
    InJoined(chains, k, j);
    ByIdIs(Joined(chains));
    hide ById, Joined;
  }

  /** Within a strand different places hold different ids. */
  lemma {:induction false} StrandDistinct(chains: seq<seq<Certificate>>, k: nat, i: nat, j: nat)
    requires DistinctIds(Joined(chains)) && k < |chains| && i < |chains[k]| && j < |chains[k]|
    ensures chains[k][i].id == chains[k][j].id ==> i == j
  {
    InJoined(chains, k, i);
    InJoined(chains, k, j);
    hide Joined;
  }

  lemma FindStrand(chains: seq<seq<Certificate>>, id: CertificateId) returns (k: nat, j: nat)
    requires DistinctIds(Joined(chains)) && id in ById(Joined(chains))
    ensures k < |chains| && j < |chains[k]| && chains[k][j].id == id && ById(Joined(chains))[id] == chains[k][j]
  {
    ByIdIs(Joined(chains));
    var i :| 0 <= i < |Joined(chains)| && Joined(chains)[i].id == id;
    k, j := FromJoined(chains, i);
    hide ById, Joined;
    StrandKnown(chains, k, j);
  }

  lemma {:induction false} SamePredecessor(chains: seq<seq<Certificate>>, subnets: seq<SubnetId>, k: nat, i: nat,
                                           j: nat)
    requires Strands(chains, subnets) && DistinctIds(Joined(chains)) && k < |chains|
    requires i < |chains[k]| && j < |chains[k]| && chains[k][i].prevId == chains[k][j].prevId
    ensures i == j
  {
    hide Strands, DistinctIds, Joined;
    StrandLink(chains, subnets, k, i);
    StrandLink(chains, subnets, k, j);
    if i > 0 { StrandKnown(chains, k, i - 1); }
    if j > 0 { StrandKnown(chains, k, j - 1); }
    if i > 0 && j > 0 { StrandDistinct(chains, k, i - 1, j - 1); }
  }

  lemma {:induction false} StrandsForkFree(chains: seq<seq<Certificate>>, subnets: seq<SubnetId>, own: nat)
    requires Strands(chains, subnets) && DistinctIds(Joined(chains)) && own < |subnets|
    requires forall k :: 0 <= k < |subnets| && k != own ==> subnets[k] != subnets[own]
    ensures ForkFree(ById(Joined(chains)), subnets[own])
  {
    var u, s := ById(Joined(chains)), subnets[own];
    hide DistinctIds, Joined, ById, S.Linked;
    forall id | id in u
      ensures u[id].id == id && id != INITIAL_CERTIFICATE_ID
      ensures u[id].prevId != INITIAL_CERTIFICATE_ID ==> (u[id].source == s <==> Of(u, u[id].prevId, s))
    {
      var k, j := FindStrand(chains, id);
      StrandKnown(chains, k, j);
      StrandLink(chains, subnets, k, j);
      if j > 0 {
        StrandKnown(chains, k, j - 1);
        StrandLink(chains, subnets, k, j - 1);
      }
    }
    forall a, b | Of(u, a, s) && Of(u, b, s) && u[a].prevId == u[b].prevId
      ensures a == b
    {
      var k, i := FindStrand(chains, a);
      var l, j := FindStrand(chains, b);
      StrandLink(chains, subnets, k, i);
      StrandLink(chains, subnets, l, j);
      assert k == own == l;
      SamePredecessor(chains, subnets, k, i, j);
    }
  }

  // ----- Sequencers side by side -----

  /** A run of one subnet's sequencer. */
  datatype Site = Site(mint: S.Mint, origin: S.Origin, events: seq<S.Event>) {
    ghost function Worker(): S.Worker { S.Run(mint, origin, events) }

    ghost function Certificates(): seq<Certificate> { S.Produced(Worker()) }
  }

  ghost function ChainsOf(sites: seq<Site>): seq<seq<Certificate>> {
    seq(|sites|, k requires 0 <= k < |sites| => sites[k].Certificates())
  }

  ghost function SubnetsOf(sites: seq<Site>): seq<SubnetId> {
    seq(|sites|, k requires 0 <= k < |sites| => sites[k].origin.subnet)
  }

  /**
   * Sequencers that start from nothing and mint different ids, one of them alone in its subnet; other
   * subnets may have several.
   */
  ghost predicate Independent(sites: seq<Site>, own: nat) {
    && own < |sites|
    && (forall k :: 0 <= k < |sites| ==> sites[k].origin.head.None?)
    && (forall k :: 0 <= k < |sites| && k != own ==> sites[k].origin.subnet != sites[own].origin.subnet)
    && DistinctIds(Joined(ChainsOf(sites)))
  }

  /** Everything that some of the sequencers have certified, by id. */
  ghost function AllCertificates(sites: seq<Site>): Universe {
    ById(Joined(ChainsOf(sites)))
  }

  /** Together they do not fork that subnet, and each one's certificates are among them. */
  lemma SequencersForkFree(sites: seq<Site>, own: nat)
    requires Independent(sites, own)
    ensures ForkFree(AllCertificates(sites), sites[own].origin.subnet)
    ensures forall k, j :: 0 <= k < |sites| && 0 <= j < |sites[k].Certificates()| ==>
              Known(AllCertificates(sites), sites[k].Certificates()[j])
  {
    var chains, subnets := ChainsOf(sites), SubnetsOf(sites);
    hide DistinctIds, ById, Joined, ForkFree;
    forall k | 0 <= k < |chains|
      ensures S.Linked(INITIAL_CERTIFICATE_ID, chains[k])
      ensures forall j :: 0 <= j < |chains[k]| ==> chains[k][j].source == subnets[k]
    {
      S.EveryRunOneChain(sites[k].mint, sites[k].origin, sites[k].events);
    }
    StrandsForkFree(chains, subnets, own);
    forall k, j | 0 <= k < |sites| && 0 <= j < |sites[k].Certificates()|
      ensures Known(ById(Joined(chains)), sites[k].Certificates()[j])
    {
      StrandKnown(chains, k, j);
    }
  }

  // ----- Depths -----

  ghost predicate AllKnown(u: Universe, w: S.Worker) {
    forall j :: 0 <= j < |w.emitted| ==> Known(u, w.emitted[j].certificate)
  }

  lemma EmittedChain(o: S.Origin, w: S.Worker, i: nat)
    requires S.OneChain(o, w) && i < |w.emitted|
    ensures w.emitted[i].block == S.FirstBlock(o) + i && w.emitted[i].certificate.source == o.subnet
    ensures w.emitted[i].certificate.prevId == (if i > 0 then w.emitted[i - 1].certificate.id else S.ChainStart(o))
  {
    var chain := S.Produced(w);
    assert chain[i].prevId == S.IdBefore(S.ChainStart(o), chain, i);
  }

  lemma {:induction false} DepthKnown(u: Universe, id: CertificateId, k: nat)
    requires AtDepth(u, id, k)
    ensures id in u
  {
  }

  lemma {:induction false} FirstDepth(u: Universe, id: CertificateId)
    requires id in u && u[id].prevId == INITIAL_CERTIFICATE_ID
    ensures AtDepth(u, id, 0)
  {
  }

  /**
   * In any universe that knows them, the certificates of a sequencer have consecutive depths, from
   * zero or from behind the head it started from.
   */
  lemma {:induction false} EmittedDepth(u: Universe, o: S.Origin, w: S.Worker, base: nat, i: nat)
    requires INITIAL_CERTIFICATE_ID !in u && S.OneChain(o, w) && AllKnown(u, w) && i < |w.emitted|
    requires if o.head.None? then base == 0 else base > 0 && AtDepth(u, o.head.value, base - 1)
    ensures AtDepth(u, w.emitted[i].certificate.id, base + i)
  {
    hide S.OneChain, AtDepth;
    var c := w.emitted[i].certificate;
    assert Known(u, c);
    EmittedChain(o, w, i);
    if i == 0 && o.head.None? {
      FirstDepth(u, c.id);
    } else {
      if i > 0 {
        EmittedDepth(u, o, w, base, i - 1);
      }
      DepthKnown(u, c.prevId, base + i - 1);
      SuccessorDepth(u, c.id, base + i - 1);
    }
  }
}
