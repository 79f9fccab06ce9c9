/** The `Encryption` singleton of backend/utils/encryption.js: guard
    conditionals around a cipher and a hash library. The library itself is not
    modelled: it is a record of uninterpreted functions, and the only thing
    assumed about it (as a lemma hypothesis, never as an axiom) is that AES
    decryption with the same passphrase undoes AES encryption. */
module Encryption {
  import opened Common

  /** The CryptoJS calls the class makes. A `None` result stands for the call
      throwing. `aesDecrypt` covers `AES.decrypt(..).toString(Utf8)`, which
      throws on bytes that are not UTF-8 (typically a wrong passphrase). */
  datatype CryptoLib = CryptoLib(
    aesEncrypt: (string, string) -> Option<string>,
    aesDecrypt: (string, string) -> Option<string>,
    sha256: string -> string)

  /** The round-trip law of the cipher: encrypting a non-empty message under a
      non-empty passphrase does not throw, yields a non-empty ciphertext, and
      decrypting that ciphertext with the same passphrase gives the message
      back. Nothing is assumed about decryption under another passphrase. */
  ghost predicate RoundTrips(lib: CryptoLib) {
    forall m: string, k: string :: m != "" && k != "" ==>
      var c := lib.aesEncrypt(m, k);
      c.Some? && c.value != "" && lib.aesDecrypt(c.value, k) == Some(m)
  }

  /** The `{publicKey, privateKey}` record stored with each user; a field is
      `None` when the record lacks it. */
  datatype KeyPair = KeyPair(publicKey: Option<string>, privateKey: Option<string>)

  /** A lower-case hex digit. */
  predicate IsHexDigit(c: char) {
    '0' <= c <= '9' || 'a' <= c <= 'f'
  }

  /** The hex digit of a nibble: '0'..'9', then 'a'..'f'. */
  function HexDigit(n: int): (c: char)
    requires 0 <= n < 16
    ensures IsHexDigit(c)
  {
    if n < 10 then (48 + n) as char else (87 + n) as char
  }

  /** `WordArray.toString()`: two lower-case hex digits per byte. */
  function Hex(bytes: seq<bv8>): (s: string)
    ensures |s| == 2 * |bytes|
    ensures forall i :: 0 <= i < |s| ==> IsHexDigit(s[i])
  {
    if bytes == [] then ""
    else
      var b := bytes[0] as int;
      [HexDigit(b / 16), HexDigit(b % 16)] + Hex(bytes[1..])
  }

  /** Byte `i` is written at positions `2 * i` and `2 * i + 1`, high nibble
      first. */
  lemma {:induction false} HexAt(bytes: seq<bv8>, i: nat)
    requires i < |bytes|
    ensures Hex(bytes)[2 * i] == HexDigit(bytes[i] as int / 16)
    ensures Hex(bytes)[2 * i + 1] == HexDigit(bytes[i] as int % 16)
    decreases i
  {
    var b := bytes[0] as int;
    var head, rest := [HexDigit(b / 16), HexDigit(b % 16)], Hex(bytes[1..]);
    assert Hex(bytes) == head + rest;
    if i > 0 {
      HexAt(bytes[1..], i - 1);
      assert bytes[1..][i - 1] == bytes[i];
      assert (head + rest)[2 * i] == rest[2 * (i - 1)];
      assert (head + rest)[2 * i + 1] == rest[2 * (i - 1) + 1];
    }
  }

  /** Distinct byte strings have distinct hex encodings: the encoding loses
      nothing of the random bytes. */
  lemma HexInjective(a: seq<bv8>, b: seq<bv8>)
    requires Hex(a) == Hex(b)
    ensures a == b
  {
    assert |a| == |b|;
    forall i | 0 <= i < |a|
      ensures a[i] == b[i]
    {
      HexAt(a, i);
      HexAt(b, i);
      ByteFromDigits(a[i] as int, b[i] as int);
    }
  }

  /** A byte is determined by its two hex digits. */
  lemma ByteFromDigits(x: int, y: int)
    requires 0 <= x < 256 && 0 <= y < 256
    requires HexDigit(x / 16) == HexDigit(y / 16) && HexDigit(x % 16) == HexDigit(y % 16)
    ensures x == y
  {
    DigitDistinct(x / 16, y / 16);
    DigitDistinct(x % 16, y % 16);
  }

  lemma DigitDistinct(p: int, q: int)
    requires 0 <= p < 16 && 0 <= q < 16 && HexDigit(p) == HexDigit(q)
    ensures p == q
  {
  }

  /** `generateKeyPair`: the same random 256-bit key, hex encoded, in both
      fields. The random bytes are a parameter. */
  function GenerateKeyPair(random: seq<bv8>): (kp: KeyPair)
    requires |random| == 32
    ensures kp.publicKey == kp.privateKey
    ensures Present(kp.publicKey) && |kp.publicKey.value| == 64
    ensures forall i :: 0 <= i < 64 ==> IsHexDigit(kp.privateKey.value[i])
  {
    var key := Hex(random);
    KeyPair(Some(key), Some(key))
  }

  /** Different random bytes give different keys. */
  lemma KeyPairFollowsRandom(random1: seq<bv8>, random2: seq<bv8>)
    requires |random1| == 32 && |random2| == 32 && random1 != random2
    ensures GenerateKeyPair(random1).publicKey != GenerateKeyPair(random2).publicKey
  {
    if Hex(random1) == Hex(random2) {
      HexInjective(random1, random2);
      assert false;
    }
  }

  /** `encryptMessage`: `null` for an absent or empty message or key, and
      `null` again when the library throws; it never throws itself. */
  function EncryptMessage(lib: CryptoLib, message: Option<string>, publicKey: Option<string>): (r: Option<string>)
    ensures !Present(message) || !Present(publicKey) ==> r == None
    ensures Present(message) && Present(publicKey) ==> r == lib.aesEncrypt(message.value, publicKey.value)
  {
    if !Present(message) || !Present(publicKey) then None
    else lib.aesEncrypt(message.value, publicKey.value)
  }

  /** `decryptMessage`: `null` for an absent or empty ciphertext or key, when
      the library throws, and when the decrypted text is empty; so a returned
      text is never empty. */
  function DecryptMessage(lib: CryptoLib, encrypted: Option<string>, privateKey: Option<string>): (r: Option<string>)
    ensures r.Some? ==> r.value != "" && Present(encrypted) && Present(privateKey)
    ensures r.Some? ==> lib.aesDecrypt(encrypted.value, privateKey.value) == r
    ensures Present(encrypted) && Present(privateKey) && Present(lib.aesDecrypt(encrypted.value, privateKey.value)) ==>
              r == lib.aesDecrypt(encrypted.value, privateKey.value)
  {
    if !Present(encrypted) || !Present(privateKey) then None
    else
      match lib.aesDecrypt(encrypted.value, privateKey.value)
      case None => None
      case Some(text) => if text == "" then None else Some(text)
  }

  /** With a lawful cipher, encryption fails exactly when one of its inputs
      is absent or empty, and what it returns is a non-empty ciphertext. */
  lemma EncryptFailsOnlyOnMissingInput(lib: CryptoLib, message: Option<string>, publicKey: Option<string>)
    requires RoundTrips(lib)
    ensures Present(EncryptMessage(lib, message, publicKey)) <==> Present(message) && Present(publicKey)
  {
    if Present(message) && Present(publicKey) {
      var _ := lib.aesEncrypt(message.value, publicKey.value);
    }
  }

  /** Round trip: a message encrypted under a generated pair's public key is
      decrypted by the same pair's private key, because the two fields are the
      same key. */
  lemma RoundTrip(lib: CryptoLib, random: seq<bv8>, message: string)
    requires RoundTrips(lib) && |random| == 32 && message != ""
    ensures var kp := GenerateKeyPair(random);
            DecryptMessage(lib, EncryptMessage(lib, Some(message), kp.publicKey), kp.privateKey) == Some(message)
  {
    var kp := GenerateKeyPair(random);
    var _ := lib.aesEncrypt(message, kp.publicKey.value);
  }

  /** The record `testEncryption` returns. */
  datatype TestReport = TestReport(original: string, encrypted: Option<string>, decrypted: Option<string>, success: bool)

  const TEST_MESSAGE: string := "Hello, World!"

  /** `testEncryption`: encrypt a fixed message with a fresh pair's public key,
      decrypt it with the private key, and compare. */
  function TestEncryption(lib: CryptoLib, random: seq<bv8>): (r: TestReport)
    requires |random| == 32
    ensures r.original == TEST_MESSAGE
    ensures r.success <==> r.decrypted == Some(TEST_MESSAGE)
  {
    var kp := GenerateKeyPair(random);
    var encrypted := EncryptMessage(lib, Some(TEST_MESSAGE), kp.publicKey);
    var decrypted := DecryptMessage(lib, encrypted, kp.privateKey);
    TestReport(TEST_MESSAGE, encrypted, decrypted, decrypted == Some(TEST_MESSAGE))
  }

  /** The self test succeeds for every key whenever the cipher is lawful. */
  lemma TestEncryptionSucceeds(lib: CryptoLib, random: seq<bv8>)
    requires RoundTrips(lib) && |random| == 32
    ensures TestEncryption(lib, random).success
  {
    RoundTrip(lib, random, TEST_MESSAGE);
  }

  /** `generateSharedSecret`: `null` when either key is absent or empty;
      otherwise the hash of the smaller key followed by the larger. */
  function GenerateSharedSecret(lib: CryptoLib, key1: Option<string>, key2: Option<string>): (r: Option<string>)
    ensures r.None? <==> !Present(key1) || !Present(key2)
    ensures Present(key1) && Present(key2) ==>
              var (lo, hi) := SortTwo(key1.value, key2.value);
              !StrLess(hi, lo) && r == Some(lib.sha256(lo + hi))
  {
    if !Present(key1) || !Present(key2) then None
    else
      var sorted := SortTwo(key1.value, key2.value);
      Some(lib.sha256(sorted.0 + sorted.1))
  }

  /** The shared secret does not depend on the order of the two keys. */
  lemma SharedSecretSymmetric(lib: CryptoLib, key1: Option<string>, key2: Option<string>)
    ensures GenerateSharedSecret(lib, key1, key2) == GenerateSharedSecret(lib, key2, key1)
  {
    if Present(key1) && Present(key2) {
      SortTwoSymmetric(key1.value, key2.value);
    }
  }
}
