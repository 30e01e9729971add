/**
 * Hashes, credit bases and the canonical credit context of an evaluation.
 *
 * A hash is "sha256:" followed by 64 lower-case hexadecimal digits, so its text order is the
 * numeric order of the digest and a hash is modelled by that number.
 */
module CreditModel {
  import opened Wrappers

  type Hash = nat

  datatype CreditBasis =
    | AcceptedLineage(evidence: Hash, receipt: Hash)
    | FindingDisposition(finding: Hash, disposition: Hash)

  datatype CreditContext = CreditContext(lineages: seq<(Hash, Hash)>, dispositions: seq<(Hash, Hash)>)

  predicate SortedUnique(values: seq<Hash>) {
    forall i, j :: 0 <= i < j < |values| ==> values[i] < values[j]
  }

  /** Lineages sorted and unique as pairs, dispositions sorted with one disposition per finding. */
  predicate ValidContext(context: CreditContext) {
    && (forall i, j :: 0 <= i < j < |context.lineages| ==>
          context.lineages[i].0 < context.lineages[j].0
          || (context.lineages[i].0 == context.lineages[j].0 && context.lineages[i].1 < context.lineages[j].1))
    && (forall i, j :: 0 <= i < j < |context.dispositions| ==> context.dispositions[i].0 < context.dispositions[j].0)
  }

  predicate Accepted(claim: CreditBasis, context: CreditContext) {
    match claim
    case AcceptedLineage(evidence, receipt) => (evidence, receipt) in context.lineages
    case FindingDisposition(finding, disposition) => (finding, disposition) in context.dispositions
  }

  predicate Creditable(claim: Option<CreditBasis>, context: CreditContext) {
    claim.Some? ==> Accepted(claim.value, context)
  }
}
