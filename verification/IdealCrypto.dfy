/**
 Idealised cryptography for the custody protocol.

 A hash or a fingerprint is the thing hashed, a sealed box is a key addressed to a public key, a
 ciphertext opens only under its own key and associated data, and shares are symbols: only the first
 `threshold` of them, all genuine and of one split, reconstruct the key of that split.
 */
module IdealCrypto {
  import opened Wrappers

  type Id = string

  datatype Kind = PaperKind | AnswersKind

  /** The authority numbers the keys it generates; anyone may hold foreign keys. */
  datatype Key = Kek(n: nat) | Foreign(n: nat)

  datatype AssociatedData = AssociatedData(bundleId: Id, kind: Kind, examId: Id)

  datatype Envelope = Encrypted(key: Key, ad: AssociatedData, content: nat) | NotAead(bytes: nat)

  datatype Box = Box(publicKey: nat, key: Key) | NotABox

  /** A share as submitted: its header fields are what its bytes say, `genuine` whether a split made it. */
  datatype Share = Share(splitId: nat, x: nat, threshold: nat, genuine: bool) | NotAShare

  datatype MediumEntry = MediumEntry(centreId: Id, box: Box)

  /** An offline release medium; `authentic` is whether the authority signed exactly this body. */
  datatype Medium = Medium(
    bundleId: Id, examId: Id, releasedAt: int, fingerprint: Key, entries: seq<MediumEntry>, authentic: bool)

  const GARBAGE := Foreign(0)

  function PaperBundleId(examId: Id): Id {
    examId + ":paper"
  }

  function BundleId(examId: Id, kind: Kind): Id {
    if kind == PaperKind then PaperBundleId(examId) else examId + ":answers"
  }

  function Decrypt(key: Key, envelope: Envelope, ad: AssociatedData): Option<nat> {
    if envelope.Encrypted? && envelope.key == key && envelope.ad == ad then Some(envelope.content) else None
  }

  function Open(box: Box, publicKey: nat): Option<Key> {
    if box.Box? && box.publicKey == publicKey then Some(box.key) else None
  }

  predicate Parsed(shares: seq<Share>) {
    forall i | 0 <= i < |shares| :: shares[i].Share?
  }

  /** The checks of the combiner: one split, one threshold, enough shares, indices distinct and in range. */
  predicate Combinable(shares: seq<Share>)
    requires Parsed(shares)
  {
    && shares != [] && |shares| >= shares[0].threshold
    && (forall i | 0 <= i < |shares| ::
         shares[i].splitId == shares[0].splitId && shares[i].threshold == shares[0].threshold
           && 1 <= shares[i].x <= 255)
    && forall i, j | 0 <= i < j < |shares| :: shares[i].x != shares[j].x
  }

  /** The shares that the combiner uses are all genuine. */
  predicate Quorum(shares: seq<Share>)
    requires Parsed(shares) && Combinable(shares)
  {
    shares[0].threshold > 0 && forall i | 0 <= i < shares[0].threshold :: shares[i].genuine
  }

  function Combine(shares: seq<Share>): Option<Key> {
    if !Parsed(shares) || !Combinable(shares) then None
    else if Quorum(shares) then Some(Kek(shares[0].splitId))
    else Some(GARBAGE)
  }
}
