/** Public keys as the runner compares and locks them: copied into a 48-byte
    array, so shorter keys are zero-padded and longer keys truncated. */
module Keys {
  import opened Rules

  /** The length of the fixed-size key array. */
  const KeyLength: nat := 48

  /** A normalised key. */
  type Key = k: seq<byte> | |k| == KeyLength witness seq(48, _ => 0)

  /** Go's `copy(key[:], pubKey)` into a zeroed `[48]byte`. */
  function Normalise(pubKey: seq<byte>): (k: Key)
    ensures |pubKey| <= KeyLength ==> k[..|pubKey|] == pubKey
    ensures forall i :: |pubKey| <= i < KeyLength ==> k[i] == 0
    ensures |pubKey| >= KeyLength ==> k == pubKey[..KeyLength]
  {
    seq(KeyLength, i requires 0 <= i < KeyLength => if i < |pubKey| then pubKey[i] else 0)
  }

  /** Full-length keys are compared exactly: two 48-byte keys count as the
      same key only when they are equal. */
  lemma FullKeysCollideOnlyWhenEqual(a: seq<byte>, b: seq<byte>)
    requires |a| == KeyLength && |b| == KeyLength
    ensures Normalise(a) == Normalise(b) <==> a == b
  {
  }

  /** A short key and the same key with a trailing zero byte are the same
      normalised key. */
  lemma TrailingZeroIsIgnored(pubKey: seq<byte>)
    requires |pubKey| < KeyLength
    ensures Normalise(pubKey + [0]) == Normalise(pubKey)
  {
    var a, b := Normalise(pubKey + [0]), Normalise(pubKey);
    forall i | 0 <= i < KeyLength
      ensures a[i] == b[i]
    {
      if i < |pubKey| {
        assert a[..|pubKey| + 1][i] == b[..|pubKey|][i];
      } else if i == |pubKey| {
        assert a[..|pubKey| + 1][i] == (pubKey + [0])[i];
      }
    }
  }

  /** Bytes past the 48th never take part in the comparison. */
  lemma TailIsIgnored(pubKey: seq<byte>, tail: seq<byte>)
    requires |pubKey| >= KeyLength
    ensures Normalise(pubKey + tail) == Normalise(pubKey)
  {
    assert (pubKey + tail)[..KeyLength] == pubKey[..KeyLength];
  }
}
