/** Content digests.  A digest is represented by the preimage that is hashed, so
    equality of digests is equality of preimages: the hash is taken to be free
    of collisions. */
module Digests {
  import opened Prelude
  import opened Json
  import opened Text
  import opened Canonical
  import opened CanonicalEquality

  datatype ArtifactKind =
    | OperationInput | OperationOutput | Proof | Delegation | ApprovalRequest
    | ApprovalDecision | AgentCheckpoint | AgentEvent | Generic

  const DOMAIN_LABEL := "Proof-Canonical-JSON-v1"

  function KindName(kind: ArtifactKind): string {
    match kind
    case OperationInput => "operation-input"
    case OperationOutput => "operation-output"
    case Proof => "proof"
    case Delegation => "delegation"
    case ApprovalRequest => "approval-request"
    case ApprovalDecision => "approval-decision"
    case AgentCheckpoint => "agent-checkpoint"
    case AgentEvent => "agent-event"
    case Generic => "generic"
  }

  datatype ContentDigest = ContentDigest(preimage: string)

  const NUL := "\0"

  function Digest(kind: ArtifactKind, text: string): ContentDigest {
    ContentDigest(DOMAIN_LABEL + NUL + (KindName(kind) + (NUL + text)))
  }

  /** The digest of a value, absent when the value has no canonical text. */
  function CanonicalDigest(kind: ArtifactKind, v: Value, parse: Reparse): Option<ContentDigest> {
    match CanonicalValue(v, parse)
    case Ok(text) => Some(Digest(kind, text))
    case Err(_) => None
  }

  predicate NotNul(c: char) {
    c != '\0'
  }

  lemma KindNameInjective(k: ArtifactKind, l: ArtifactKind)
    requires KindName(k) == KindName(l)
    ensures k == l
  {
    var s, t := KindName(k), KindName(l);
    assert |s| == |t| && s[0] == t[0];
    assert |s| > 9 ==> s[9] == t[9];
  }

  lemma KindNameHasNoNul(k: ArtifactKind)
    ensures All(NotNul, KindName(k))
  {
  }

  /** Domain separation: a digest determines the kind and the text. */
  lemma DigestInjective(k: ArtifactKind, l: ArtifactKind, s: string, t: string)
    requires Digest(k, s) == Digest(l, t)
    ensures k == l && s == t
  {
    var n := |DOMAIN_LABEL| + 1;
    var x, y := KindName(k) + (NUL + s), KindName(l) + (NUL + t);
    assert x == Digest(k, s).preimage[n..] == Digest(l, t).preimage[n..] == y;
    KindNameHasNoNul(k);
    KindNameHasNoNul(l);
    FirstTokenUnique(NotNul, KindName(k), KindName(l), NUL + s, NUL + t);
    assert s == (NUL + s)[1..] == (NUL + t)[1..] == t;
    KindNameInjective(k, l);
  }

  /** Digests of values agree exactly when the kinds and the values do. */
  lemma ValueDigestInjective(k: ArtifactKind, l: ArtifactKind, a: Value, b: Value, parse: Reparse)
    requires WellFormed(a) && WellFormed(b)
    requires CanonicalDigest(k, a, parse).Some?
    ensures CanonicalDigest(k, a, parse) == CanonicalDigest(l, b, parse) <==> k == l && Agree(a, b, Printed)
  {
    SameTextIffAgree(a, b, parse);
    if CanonicalDigest(k, a, parse) == CanonicalDigest(l, b, parse) {
      DigestInjective(k, l, CanonicalValue(a, parse).value, CanonicalValue(b, parse).value);
    }
  }
}
