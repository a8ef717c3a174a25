/** Cache keys: the SHA-1 digest of a URL written as a 40-digit lowercase
    hexadecimal string (EtagCache.getKey). */
module Keys {

  /** Every key has exactly this many characters: the 160 bits of SHA-1 in hex. */
  const KeyLength: nat := 40

  predicate IsHexDigit(c: char) {
    '0' <= c <= '9' || 'a' <= c <= 'f'
  }

  predicate IsHex(s: string) {
    forall i | 0 <= i < |s| :: IsHexDigit(s[i])
  }

  /** The form `new BigInteger(1, bytes).toString(16)` produces: lowercase hex
      digits with no leading zero, except for the number zero itself. */
  predicate IsCanonicalHex(s: string) {
    |s| > 0 && IsHex(s) && (s[0] == '0' ==> |s| == 1)
  }

  /** A hashed URL as the digest step hands it to the padding step; a 160-bit
      number never needs more than 40 hex digits. */
  type Hashed = s: string | IsCanonicalHex(s) && |s| <= KeyLength witness "0"

  /** The `char[]` of `padding` zeros that getKey fills with `Arrays.fill`. */
  function Zeros(n: nat): (z: string)
    ensures |z| == n
    ensures forall i | 0 <= i < n :: z[i] == '0'
  {
    if n == 0 then [] else Zeros(n - 1) + ['0']
  }

  /** Left-pads a hex string with '0' to exactly KeyLength characters; a string
      that is already KeyLength long is returned as it is. */
  function PadKey(hashed: string): (key: string)
    requires |hashed| <= KeyLength
    ensures |key| == KeyLength
    ensures key[KeyLength - |hashed|..] == hashed
    ensures forall i | 0 <= i < KeyLength - |hashed| :: key[i] == '0'
    ensures |hashed| == KeyLength ==> key == hashed
    ensures IsHex(hashed) ==> IsHex(key)
  {
    var padding := KeyLength - |hashed|;
    if padding == 0 then hashed else Zeros(padding) + hashed
  }

  /** The digest a key was padded from: the key without its leading zeros,
      keeping at least one digit. */
  function Unpad(key: string): (hashed: string)
    ensures |hashed| <= |key| && hashed == key[|key| - |hashed|..]
    ensures |key| > 0 ==> |hashed| > 0
    ensures |hashed| > 1 ==> hashed[0] != '0'
    decreases |key|
  {
    if |key| > 1 && key[0] == '0' then Unpad(key[1..]) else key
  }

  /** Stripping the zeros put in front of a digest gives the digest back. */
  lemma {:induction false} UnpadZeros(n: nat, hashed: Hashed)
    ensures Unpad(Zeros(n) + hashed) == hashed
    decreases n
  {
    if n == 0 {
      assert Zeros(0) + hashed == hashed;
    } else {
      var padded := Zeros(n) + hashed;
      assert padded[0] == '0' && |padded| > 1;
      assert padded[1..] == Zeros(n - 1) + hashed;
      UnpadZeros(n - 1, hashed);
    }
  }

  /** The key determines the digest: unpadding undoes getKey's padding. */
  lemma {:induction false} UnpadPadKey(hashed: Hashed)
    ensures Unpad(PadKey(hashed)) == hashed
  {
    var padding := KeyLength - |hashed|;
    if padding == 0 {
      UnpadZeros(0, hashed);
      assert Zeros(0) + hashed == hashed;
    } else {
      UnpadZeros(padding, hashed);
    }
  }

  /** Padding loses nothing: two different digests never share a key. */
  lemma {:induction false} PadKeyInjective(a: Hashed, b: Hashed)
    requires PadKey(a) == PadKey(b)
    ensures a == b
  {
    UnpadPadKey(a);
    UnpadPadKey(b);
  }
}
