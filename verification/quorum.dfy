/** Threshold arithmetic of `ReliableBroadcastParams::new` and the quorum facts it is chosen for. */
module Quorum {
  datatype Params = Params(echo: nat, ready: nat, delivery: nat)

  /** `ReliableBroadcastParams::new(n)`. */
  function ParamsFor(n: nat): Params {
    var f := n / 3;
    Params(1 + (n + f) / 2, 1 + f, 2 * f + 1)
  }

  lemma SubsetSize<T>(a: set<T>, b: set<T>)
    requires a <= b
    ensures |a| <= |b|
  {
    assert b == a + (b - a);
  }

  lemma SplitSize<T>(a: set<T>, b: set<T>)
    ensures |a| == |a * b| + |a - b|
  {
    assert a == a * b + (a - b);
  }

  /** A set larger than `b` has a member outside `b`. */
  lemma Outsider<T>(a: set<T>, b: set<T>) returns (x: T)
    requires |a| > |b|
    ensures x in a && x !in b
  {
    SplitSize(a, b);
    SubsetSize(a * b, b);
    x :| x in a - b;
  }

  lemma OnlyOne<T>(s: set<T>, x: T, y: T)
    requires |s| <= 1 && x in s && y in s
    ensures x == y
  {
    SubsetSize({x, y}, s);
  }

  /** Every threshold is positive and reachable by a network of `n` validators. */
  lemma ThresholdsInRange(n: nat)
    requires n >= 1
    ensures var p := ParamsFor(n);
            1 <= p.ready <= p.delivery <= n && p.ready <= p.echo <= n
  {
  }

  /** Two echo quorums share more validators than can be faulty. */
  lemma EchoQuorumsIntersect<T>(network: set<T>, a: set<T>, b: set<T>)
    requires a <= network && b <= network
    requires |a| >= ParamsFor(|network|).echo && |b| >= ParamsFor(|network|).echo
    ensures |a * b| > |network| / 3
  {
    SplitSize(a, b);
    assert (a - b) + b <= network;
    SubsetSize((a - b) + b, network);
    assert |(a - b) + b| == |a - b| + |b|;
  }

  /** A delivery quorum holds enough non-faulty validators to trigger everybody's Ready. */
  lemma DeliveryQuorumAmplifies<T>(quorum: set<T>, faulty: set<T>, n: nat)
    requires |faulty| <= n / 3
    requires |quorum| >= ParamsFor(n).delivery
    ensures |quorum - faulty| >= ParamsFor(n).ready
  {
    SplitSize(quorum, faulty);
    SubsetSize(quorum * faulty, faulty);
  }

  /**
   * The non-faulty validators reach all three thresholds on their own exactly when
   * at most (n - 1) / 3 validators are faulty. With `n / 3` faulty ones and `n` a
   * multiple of three they do not, although the thresholds are derived from `n / 3`.
   */
  lemma NonFaultySuffice(n: nat, faulty: nat)
    requires 1 <= n && faulty <= n
    ensures var p := ParamsFor(n);
            (n - faulty >= p.echo && n - faulty >= p.ready && n - faulty >= p.delivery)
            <==> faulty <= (n - 1) / 3
  {
  }

  lemma SomeSubset<T>(all: set<T>, k: nat) returns (part: set<T>)
    requires k <= |all|
    ensures part <= all && |part| == k
  {
    if k == |all| {
      part := all;
    } else {
      var x :| x in all;
      part := SomeSubset(all - {x}, k);
    }
  }

  // ----- The thresholds are the least that serve their purpose -----

  /** Any two sets of that many validators share more than can be faulty. */
  ghost predicate Intersecting<T(!new)>(network: set<T>, q: nat) {
    forall a: set<T>, b: set<T> :: a <= network && b <= network && |a| >= q && |b| >= q ==> |a * b| > |network| / 3
  }

  /** Any set of that many validators has a non-faulty member, whoever the faulty ones are. */
  ghost predicate Trustworthy<T(!new)>(network: set<T>, q: nat) {
    forall a: set<T>, faulty: set<T> ::
      a <= network && |a| >= q && faulty <= network && |faulty| <= |network| / 3 ==> a - faulty != {}
  }

  /** Any set of that many validators keeps `ready` non-faulty members, whoever the faulty ones are. */
  ghost predicate Amplifying<T(!new)>(network: set<T>, q: nat, ready: nat) {
    forall a: set<T>, faulty: set<T> ::
      a <= network && |a| >= q && faulty <= network && |faulty| <= |network| / 3 ==> |a - faulty| >= ready
  }

  /** Two sets of the same size that overlap as little as possible. */
  lemma LittleOverlap<T>(network: set<T>, q: nat) returns (a: set<T>, b: set<T>)
    requires q <= |network|
    ensures a <= network && b <= network && |a| == q == |b|
    ensures |a * b| == if 2 * q <= |network| then 0 else 2 * q - |network|
  {
    a := SomeSubset(network, q);
    SplitSize(network, a);
    assert network * a == a;
    if 2 * q <= |network| {
      b := SomeSubset(network - a, q);
      assert a * b == {};
    } else {
      var shared := SomeSubset(a, 2 * q - |network|);
      b := (network - a) + shared;
      assert a * b == shared;
    }
  }

  /** The echo threshold is the least number of which any two sets intersect in more than n / 3 validators. */
  lemma EchoIsLeast<T(!new)>(network: set<T>, q: nat)
    ensures Intersecting(network, q) <==> q >= ParamsFor(|network|).echo
  {
    if q >= ParamsFor(|network|).echo {
      forall a: set<T>, b: set<T> | a <= network && b <= network && |a| >= q && |b| >= q
        ensures |a * b| > |network| / 3
      {
        EchoQuorumsIntersect(network, a, b);
      }
    } else {
      var a, b := LittleOverlap(network, q);
      assert |a * b| <= |network| / 3;
    }
  }

  /** The ready threshold is the least number of which any set has a non-faulty member among n / 3 faulty ones. */
  lemma ReadyIsLeast<T(!new)>(network: set<T>, q: nat)
    ensures Trustworthy(network, q) <==> q >= ParamsFor(|network|).ready
  {
    if q >= ParamsFor(|network|).ready {
      forall a: set<T>, faulty: set<T> | a <= network && |a| >= q && faulty <= network && |faulty| <= |network| / 3
        ensures a - faulty != {}
      {
        var x := Outsider(a, faulty);
        assert x in a - faulty;
      }
    } else {
      var a := SomeSubset(network, q);
      assert a - a == {};
    }
  }

  /** The delivery threshold is the least number of which any set keeps a ready quorum of non-faulty members. */
  lemma DeliveryIsLeast<T(!new)>(network: set<T>, q: nat)
    ensures Amplifying(network, q, ParamsFor(|network|).ready) <==> q >= ParamsFor(|network|).delivery
  {
    var n := |network|;
    if q >= ParamsFor(n).delivery {
      forall a: set<T>, faulty: set<T> | a <= network && |a| >= q && faulty <= network && |faulty| <= n / 3
        ensures |a - faulty| >= ParamsFor(n).ready
      {
        DeliveryQuorumAmplifies(a, faulty, n);
      }
    } else {
      var a := SomeSubset(network, q);
      var faulty := SomeSubset(a, if q <= n / 3 then q else n / 3);
      SplitSize(a, faulty);
      assert a * faulty == faulty;
      assert |a - faulty| < ParamsFor(n).ready;
    }
  }
}
