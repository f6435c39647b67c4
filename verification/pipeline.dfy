/** From the sequencer's blocks to the positions on every validator. */
module Pipeline {
  import opened Wrappers
  import opened Certificates
  import opened Quorum
  import opened FullNodeStore
  import opened TaskManager
  import opened Chains
  import opened ForkFreeRuns
  import opened Agreement
  import opened Subnets
  import S = Sequencer
  import C = CommandLoop
  import T = Timeliness

  lemma {:induction false} BlockDepth(site: Site, u: Universe, i: nat)
    requires site.origin.head.None? && AllKnown(u, site.Worker()) && ForkFree(u, site.origin.subnet)
    requires i < |site.Worker().emitted|
    ensures AtDepth(u, site.Worker().emitted[i].certificate.id, i)
  {
    S.EveryRunOneChain(site.mint, site.origin, site.events);
    assert INITIAL_CERTIFICATE_ID !in u;
    hide S.Run, S.OneChain, AllKnown, ForkFree, AtDepth;
    EmittedDepth(u, site.origin, site.Worker(), 0, i);
  }

  lemma {:induction false} BlockNumber(site: Site, i: nat)
    requires site.origin.head.None? && i < |site.Worker().emitted|
    ensures site.Worker().emitted[i].block == i <==> site.origin.startBlock.None?
  {
    hide S.Run;
    S.CertifiedBlocks(site.mint, site.origin, site.events, i);
    if site.origin.startBlock == Some(0) {
      S.NothingFromZero(site.mint, site.origin, site.events);
    }
  }

  /**
   * A sequencer that starts without a head certifies its blocks; whatever validator delivers
   * them in whatever schedule, together with whatever other subnets send, the certificate of
   * the `i`-th block is at position `i` of the subnet's stream. Its block number is its
   * position exactly when no start block was configured.
   */
  lemma BlockPosition(site: Site, r: Agreement.Run, u: Universe, i: nat, p: nat)
    requires site.origin.head.None? && AllKnown(u, site.Worker())
    requires r.Over(u, site.origin.subnet) && i < |site.Worker().emitted|
    requires At(r.Node().store.tables, Source(site.origin.subnet), p) == Some(site.Worker().emitted[i].certificate.id)
    ensures p == i
    ensures site.Worker().emitted[i].block == p <==> site.origin.startBlock.None?
  {
    var id := site.Worker().emitted[i].certificate.id;
    PositionIsDepth(r, u, site.origin.subnet, p, id);
    BlockDepth(site, u, i);
    BlockNumber(site, i);
    hide *;
    DepthUnique(u, id, p, i);
  }

  /** The same behind the command loop, if the subnet's certificates are submitted at most once each. */
  lemma {:induction false} SubmittedBlockPosition(site: Site, u: Universe, validators: set<ValidatorId>,
                                                  params: Params, loop: seq<C.Event>, i: nat, p: nat)
    requires site.origin.head.None? && AllKnown(u, site.Worker()) && ForkFree(u, site.origin.subnet)
    requires |u| <= MAX_U64 && T.Distinct(T.Commanded(loop, site.origin.subnet)) && T.KnownEvents(u, loop)
    requires i < |site.Worker().emitted|
    requires At(C.Exec(validators, params, loop).node.store.tables, Source(site.origin.subnet), p) ==
             Some(site.Worker().emitted[i].certificate.id)
    ensures p == i
  {
    hide ForkFree, C.Exec, T.Commanded, T.Distinct, S.Run, At, AdmissibleRun, Exec, AllKnown;
    T.OnceIsTimely(validators, params, u, site.origin.subnet, loop);
    T.TimelyIffAdmissible(validators, params, u, site.origin.subnet, loop);
    C.RunOfManager(validators, params, loop);
    BlockPosition(site, Agreement.Run(validators, params, C.Trace(validators, params, loop)), u, i, p);
  }

  /**
   * The whole pipeline: any number of sequencers, their certificates submitted to a validator in
   * any order and any interleaving. For a subnet that one of them serves alone and whose certificates
   * are submitted at most once each, whatever others do: wherever the certificate of its `i`-th
   * block is delivered, it is at position `i`.
   */
  lemma {:induction false} EverySubnet(sites: seq<Site>, validators: set<ValidatorId>, params: Params,
                                       loop: seq<C.Event>, k: nat, i: nat, p: nat)
    requires Independent(sites, k) && i < |sites[k].Worker().emitted|
    requires |AllCertificates(sites)| <= MAX_U64
    requires T.Distinct(T.Commanded(loop, sites[k].origin.subnet)) && T.KnownEvents(AllCertificates(sites), loop)
    requires At(C.Exec(validators, params, loop).node.store.tables, Source(sites[k].origin.subnet), p) ==
             Some(sites[k].Worker().emitted[i].certificate.id)
    ensures p == i
  {
    SequencersForkFree(sites, k);
    var u := AllCertificates(sites);
    hide ForkFree, AllCertificates, C.Exec, T.Commanded, T.Distinct, T.KnownEvents, S.Run, At;
    forall j | 0 <= j < |sites[k].Worker().emitted|
      ensures Known(u, sites[k].Worker().emitted[j].certificate)
    {
      assert sites[k].Certificates()[j] == sites[k].Worker().emitted[j].certificate;
    }
    SubmittedBlockPosition(sites[k], u, validators, params, loop, i, p);
  }
}
