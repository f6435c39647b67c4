/** The values that travel through the delivery pipeline (topos-uci and topos-core types). */
module Certificates {
  import opened Wrappers

  type CertificateId = nat
  type SubnetId = nat
  type ValidatorId = nat

  /** The all-zero id: the `prev_id` of the first certificate of a subnet. */
  const INITIAL_CERTIFICATE_ID: CertificateId := 0

  const MAX_U64: nat := 0xFFFF_FFFF_FFFF_FFFF

  datatype Certificate = Certificate(
    id: CertificateId,
    prevId: CertificateId,
    source: SubnetId,
    targets: seq<SubnetId>)

  /** Place of a certificate in the stream of its source subnet. */
  datatype SourcePosition = SourcePosition(subnet: SubnetId, position: nat)

  /** Place of a certificate in the stream from one source subnet to one target subnet. */
  datatype TargetPosition = TargetPosition(target: SubnetId, source: SubnetId, position: nat)

  datatype ProofOfDelivery = ProofOfDelivery(
    certificateId: CertificateId,
    deliveryPosition: SourcePosition,
    readies: set<ValidatorId>,
    threshold: nat)

  datatype CertificateDelivered = CertificateDelivered(
    certificate: Certificate,
    proof: ProofOfDelivery)

  /** `Position::increment`: the next 64-bit position, if there is one. */
  function Increment(position: nat): (r: Option<nat>)
  {
    if position < MAX_U64 then Some(position + 1) else None
  }
}
