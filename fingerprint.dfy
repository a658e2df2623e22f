/** The content fingerprint and the idempotency key built from it.

    The fingerprint itself (SHA-256 rendered as lower-case hexadecimal) is a
    foreign library call; it is modelled as any total function of type
    Hasher, which is deterministic by construction and always returns a
    64-character lower-case hex string. */
module Fingerprint {
  import opened Common

  const HexDigits := "0123456789abcdef"
  const DigestLength: nat := 64

  /** A lower-case hexadecimal string of the length of a SHA-256 digest. */
  predicate IsHexDigest(s: string)
  {
    |s| == DigestLength && forall i | 0 <= i < |s| :: s[i] in HexDigits
  }

  type Digest = s: string | IsHexDigest(s) witness seq(64, _ => '0')

  /** The hexdigest of the content; supplied by whoever builds a ledger. */
  type Hasher = Bytes -> Digest

  /** The idempotency key "user_id:hash". */
  function Key(userId: string, hash: Digest): string
  {
    userId + ":" + hash
  }

  /** Because the digest has a fixed length, the key determines both the
      submitter and the digest, even when the submitter contains ':'. */
  lemma KeyInjective(u1: string, h1: Digest, u2: string, h2: Digest)
    ensures Key(u1, h1) == Key(u2, h2) <==> u1 == u2 && h1 == h2
  {
    var k1, k2 := Key(u1, h1), Key(u2, h2);
    if k1 == k2 {
      // Equal lengths of the digests make the submitters equally long, so
      // the key splits at the same place on both sides.
      assert |u1| == |u2|;
      assert u1 == k1[..|u1|] == k2[..|u2|] == u2;
      assert h1 == k1[|u1| + 1..] == k2[|u2| + 1..] == h2;
    }
  }
}
