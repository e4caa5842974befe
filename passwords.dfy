/**
 * Salted SHA-256 password hashes stored as "Base64(salt):Base64(digest)".
 * SHA-256, Base64, String.getBytes and SecureRandom are not modelled: the
 * first three are the fields of a Primitives value, and the salt is a
 * parameter.
 */
module Passwords {
  import opened Wrappers
  import opened JavaLang

  type byte = bv8

  /** The number of random bytes `hash` draws for the salt. */
  const SaltLength := 16
  /** The length of a SHA-256 digest. */
  const DigestLength := 32
  const Separator := ':'

  /**
   * The library functions the hash format is built from: the SHA-256
   * digest of a byte string, Base64 encoding and decoding without line
   * wrapping (decode fails with None where Base64.decode throws), and the
   * platform encoding of a string into bytes.
   */
  datatype Primitives = Primitives(
    sha256: seq<byte> -> seq<byte>,
    encode: seq<byte> -> string,
    decode: string -> Option<seq<byte>>,
    bytesOf: string -> seq<byte>)

  /**
   * What the hash format depends on: digests are 32 bytes, decoding undoes
   * encoding, the Base64 alphabet has no ':', and a non-empty byte string
   * encodes to a non-empty string.
   */
  ghost predicate Sound(p: Primitives)
  {
    && (forall m :: |p.sha256(m)| == DigestLength)
    && (forall b :: p.decode(p.encode(b)) == Some(b))
    && (forall b :: Separator !in p.encode(b))
    && (forall b :: |b| > 0 ==> |p.encode(b)| > 0)
  }

  /** The digest `hash` and `verify` compute: SHA-256 over the salt followed by the password's bytes. */
  function SaltedDigest(raw: string, salt: seq<byte>, p: Primitives): seq<byte>
  {
    p.sha256(salt + p.bytesOf(raw))
  }

  /**
   * PasswordUtils.hash with the given salt: the stored string splits at
   * ':' into the encoded salt and the encoded salted digest, and each part
   * decodes back to its bytes.
   */
  function Hash(raw: string, salt: seq<byte>, p: Primitives): (stored: string)
    requires |salt| == SaltLength
    ensures Sound(p) ==> Split(stored, Separator) == [p.encode(salt), p.encode(SaltedDigest(raw, salt, p))]
    ensures Sound(p) ==> p.decode(Split(stored, Separator)[0]) == Some(salt)
    ensures Sound(p) ==> p.decode(Split(stored, Separator)[1]) == Some(SaltedDigest(raw, salt, p))
  {
    var digest := SaltedDigest(raw, salt, p);
    SplitJoinedWhenClean(p.encode(salt), p.encode(digest), Separator);
    p.encode(salt) + [Separator] + p.encode(digest)
  }

  lemma SplitJoinedWhenClean(x: string, y: string, sep: char)
    ensures sep !in x && sep !in y && y != "" ==> Split(x + [sep] + y, sep) == [x, y]
  {
    if sep !in x && sep !in y && y != "" {
      SplitJoined(x, y, sep);
    }
  }

  /**
   * The decision `verify` reaches. A null stored string, a split into
   * anything but two parts, or a part that does not decode all make it
   * false (the exception is caught); otherwise it is true exactly when the
   * recomputed digest equals the stored one.
   */
  function Verifies(raw: string, stored: Option<string>, p: Primitives): bool
  {
    if stored == None then false
    else
      var parts := Split(stored.value, Separator);
      if |parts| != 2 then false
      else
        match (p.decode(parts[0]), p.decode(parts[1]))
        case (Some(salt), Some(expected)) =>
          var actual := SaltedDigest(raw, salt, p);
          |actual| == |expected| && actual == expected
        case _ => false
  }

  /**
   * The constant-time comparison: the loop ORs the XOR of every pair of
   * bytes into diff without stopping early, and diff ends 0 exactly when
   * the two digests agree everywhere.
   */
  method DigestsEqual(actual: seq<byte>, expected: seq<byte>) returns (same: bool)
    requires |actual| == |expected|
    ensures same <==> actual == expected
  {
    var diff: byte := 0;
    for i := 0 to |actual|
      invariant diff == 0 <==> actual[..i] == expected[..i]
    {
      assert actual[..i + 1] == actual[..i] + [actual[i]];
      assert expected[..i + 1] == expected[..i] + [expected[i]];
      diff := diff | (actual[i] ^ expected[i]);
    }
    assert actual[..|actual|] == actual && expected[..|expected|] == expected;
    same := diff == 0;
  }

  /** PasswordUtils.verify. */
  method Verify(raw: string, stored: Option<string>, p: Primitives) returns (ok: bool)
    ensures ok == Verifies(raw, stored, p)
  {
    if stored == None {
      return false;
    }
    var parts := Split(stored.value, Separator);
    if |parts| != 2 {
      return false;
    }
    var salt := p.decode(parts[0]);
    var expected := p.decode(parts[1]);
    if salt == None || expected == None {
      return false;
    }
    var actual := SaltedDigest(raw, salt.value, p);
    if |actual| != |expected.value| {
      return false;
    }
    ok := DigestsEqual(actual, expected.value);
  }

  /** A password verifies against the hash made from it, whatever the salt. */
  lemma HashVerifies(raw: string, salt: seq<byte>, p: Primitives)
    requires |salt| == SaltLength && Sound(p)
    ensures Verifies(raw, Some(Hash(raw, salt, p)), p)
  {
  }

  /**
   * A password verifies against a hash exactly when its salted digest
   * equals the digest of the password the hash was made from.
   */
  lemma VerifiesHashIff(raw: string, original: string, salt: seq<byte>, p: Primitives)
    requires |salt| == SaltLength && Sound(p)
    ensures Verifies(raw, Some(Hash(original, salt, p)), p) <==> SaltedDigest(raw, salt, p) == SaltedDigest(original, salt, p)
  {
    var stored := Hash(original, salt, p);
    assert Split(stored, Separator) == [p.encode(salt), p.encode(SaltedDigest(original, salt, p))];
  }

  /** A stored value of the form "x:" splits into one part, so nothing verifies against it. */
  lemma TrailingSeparatorRejected(raw: string, x: string, p: Primitives)
    requires Separator !in x && x != ""
    ensures !Verifies(raw, Some(x + [Separator]), p)
  {
    SplitTrailingSeparator(x, Separator);
  }

  /** A stored value without the separator is one part and is rejected. */
  lemma NoSeparatorRejected(raw: string, stored: string, p: Primitives)
    requires Separator !in stored
    ensures !Verifies(raw, Some(stored), p)
  {
  }

  /** A stored digest of the wrong length is rejected before the comparison loop. */
  lemma WrongLengthRejected(raw: string, saltText: string, digestText: string, p: Primitives)
    requires Separator !in saltText && Separator !in digestText && digestText != ""
    requires p.decode(saltText).Some? && p.decode(digestText).Some?
    requires Sound(p) && |p.decode(digestText).value| != DigestLength
    ensures !Verifies(raw, Some(saltText + [Separator] + digestText), p)
  {
    SplitJoined(saltText, digestText, Separator);
  }
}
