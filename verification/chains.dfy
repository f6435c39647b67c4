/** Chains of certificates linked by `prev_id`, and what it means that a subnet does not fork. */
module Chains {
  import opened Certificates

  type Universe = map<CertificateId, Certificate>

  predicate Known(u: Universe, c: Certificate) {
    c.id in u && u[c.id] == c
  }

  /** The id names a certificate of the subnet. */
  predicate Of(u: Universe, id: CertificateId, s: SubnetId) {
    id in u && u[id].source == s
  }

  /**
   * Ids name certificates, the certificates of `s` and no others follow certificates of `s`, and
   * no two of them the same one. Other subnets may fork.
   */
  ghost predicate ForkFree(u: Universe, s: SubnetId) {
    && (forall id :: id in u ==> u[id].id == id && id != INITIAL_CERTIFICATE_ID)
    && (forall id :: id in u && u[id].prevId != INITIAL_CERTIFICATE_ID ==>
          (u[id].source == s <==> Of(u, u[id].prevId, s)))
    && (forall a, b :: Of(u, a, s) && Of(u, b, s) && u[a].prevId == u[b].prevId ==> a == b)
  }

  /** The certificate is the `k`-th successor of a first certificate of its subnet. */
  predicate AtDepth(u: Universe, id: CertificateId, k: nat)
    decreases k
  {
    && id in u
    && if k == 0 then u[id].prevId == INITIAL_CERTIFICATE_ID
       else u[id].prevId != INITIAL_CERTIFICATE_ID && AtDepth(u, u[id].prevId, k - 1)
  }

  lemma {:induction false} DepthUnique(u: Universe, id: CertificateId, j: nat, k: nat)
    requires AtDepth(u, id, j) && AtDepth(u, id, k)
    ensures j == k
    decreases j
  {
    if j > 0 && k > 0 {
      DepthUnique(u, u[id].prevId, j - 1, k - 1);
    }
  }

  lemma ParentKnown(u: Universe, s: SubnetId, id: CertificateId)
    requires ForkFree(u, s) && Of(u, id, s) && u[id].prevId != INITIAL_CERTIFICATE_ID
    ensures Of(u, u[id].prevId, s)
  {
  }

  lemma OnlyChild(u: Universe, s: SubnetId, a: CertificateId, b: CertificateId)
    requires ForkFree(u, s) && Of(u, a, s) && Of(u, b, s) && u[a].prevId == u[b].prevId
    ensures a == b
  {
  }

  /** A subnet that does not fork has one certificate per depth. */
  lemma {:induction false} LevelUnique(u: Universe, s: SubnetId, a: CertificateId, b: CertificateId, k: nat)
    requires ForkFree(u, s) && AtDepth(u, a, k) && AtDepth(u, b, k) && Of(u, a, s) && Of(u, b, s)
    ensures a == b
    decreases k
  {
    hide ForkFree;
    if k > 0 {
      ParentKnown(u, s, a);
      ParentKnown(u, s, b);
      LevelUnique(u, s, u[a].prevId, u[b].prevId, k - 1);
    }
    OnlyChild(u, s, a, b);
  }

  lemma {:induction false} DifferentDepths(u: Universe, a: CertificateId, b: CertificateId, j: nat, k: nat)
    requires AtDepth(u, a, j) && AtDepth(u, b, k) && j != k
    ensures a != b
  {
    if a == b {
      DepthUnique(u, a, j, k);
    }
  }

  /** The chain up to the certificate, first certificate first. */
  ghost function PathTo(u: Universe, id: CertificateId, k: nat): seq<CertificateId>
    requires AtDepth(u, id, k)
    decreases k
  {
    if k == 0 then [id] else PathTo(u, u[id].prevId, k - 1) + [id]
  }

  lemma {:induction false} PathAtHome(u: Universe, s: SubnetId, id: CertificateId, k: nat, x: CertificateId)
    requires ForkFree(u, s) && AtDepth(u, id, k) && Of(u, id, s) && x in PathTo(u, id, k)
    ensures Of(u, x, s)
    decreases k
  {
    if k > 0 && x != id {
      ParentKnown(u, s, id);
      PathAtHome(u, s, u[id].prevId, k - 1, x);
    }
  }

  lemma {:induction false} SuccessorDepth(u: Universe, id: CertificateId, k: nat)
    requires id in u && u[id].prevId != INITIAL_CERTIFICATE_ID && AtDepth(u, u[id].prevId, k)
    ensures AtDepth(u, id, k + 1)
  {
  }
}
