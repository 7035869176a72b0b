/**
 * The credential obfuscation of downloader.py: the UTF-8 bytes of a string are XORed with the
 * fixed key repeated to cover them, and the result is written as hex text.
 */
module Obfuscation {
  import opened Wrappers
  import opened Utf8
  import Hex
  import Text

  /** `ENCRYPTION_KEY = b"SpotifyDownloader2025"`, byte by byte. */
  const ENCRYPTION_KEY: seq<byte> :=
    [0x53, 0x70, 0x6F, 0x74, 0x69, 0x66, 0x79,         // S p o t i f y
     0x44, 0x6F, 0x77, 0x6E, 0x6C, 0x6F, 0x61, 0x64,   // D o w n l o a d
     0x65, 0x72, 0x32, 0x30, 0x32, 0x35]               // e r 2 0 2 5

  /** Python's `^` on non-negative integers, one bit at a time from the lowest. */
  function Xor(a: nat, b: nat): (r: nat)
    decreases a + b
  {
    if a == 0 then b
    else if b == 0 then a
    else 2 * Xor(a / 2, b / 2) + (if a % 2 == b % 2 then 0 else 1)
  }

  function Pow2(n: nat): (r: nat)
    ensures r > 0
  {
    if n == 0 then 1 else 2 * Pow2(n - 1)
  }

  /** Two numbers of `n` bits have an XOR of `n` bits; in particular the XOR of two bytes is a byte. */
  lemma {:induction false} XorBound(a: nat, b: nat, n: nat)
    requires a < Pow2(n) && b < Pow2(n)
    ensures Xor(a, b) < Pow2(n)
    decreases a + b
  {
    if a != 0 && b != 0 {
      XorBound(a / 2, b / 2, n - 1);
    }
  }

  /** A value XORed with itself is zero. */
  lemma {:induction false} XorSelf(a: nat)
    ensures Xor(a, a) == 0
    decreases a
  {
    if a != 0 {
      XorSelf(a / 2);
    }
  }

  /** XOR with the same value undoes itself. */
  lemma {:induction false} XorTwice(a: nat, k: nat)
    ensures Xor(Xor(a, k), k) == a
    decreases a + k
  {
    if a == 0 {
      XorSelf(k);
    } else if k != 0 {
      var x := Xor(a, k);
      assert x == 2 * Xor(a / 2, k / 2) + (if a % 2 == k % 2 then 0 else 1);
      assert x / 2 == Xor(a / 2, k / 2);
      assert x % 2 == (if a % 2 == k % 2 then 0 else 1);
      XorTwice(a / 2, k / 2);
      if x == 0 {
        assert a % 2 == k % 2;
        XorSelf(k);
        assert Xor(a / 2, k / 2) == 0;
        XorZero(a / 2, k / 2);
      }
    }
  }

  /** XOR is zero only of equal values. */
  lemma {:induction false} XorZero(a: nat, b: nat)
    requires Xor(a, b) == 0
    ensures a == b
    decreases a + b
  {
    if a != 0 && b != 0 {
      XorZero(a / 2, b / 2);
    }
  }

  /** Bitwise exclusive or of two bytes. */
  function XorByte(a: byte, k: byte): (r: byte)
    ensures Xor(r, k) == a
  {
    assert Pow2(8) == 256;
    XorBound(a, k, 8);
    XorTwice(a, k);
    Xor(a, k)
  }

  /** `ENCRYPTION_KEY * m`: the key written out `m` times. */
  function RepeatKey(m: nat): (r: seq<byte>)
    ensures |r| == 21 * m
  {
    if m == 0 then [] else ENCRYPTION_KEY + RepeatKey(m - 1)
  }

  /** Byte `i` of the repeated key is the key's byte at `i mod 21`. */
  lemma {:induction false} RepeatKeyAt(m: nat, i: nat)
    requires i < 21 * m
    ensures RepeatKey(m)[i] == ENCRYPTION_KEY[i % 21]
  {
    var key := ENCRYPTION_KEY;
    assert |key| == 21;
    assert RepeatKey(m) == key + RepeatKey(m - 1);
    if i < 21 {
      assert i % 21 == i;
    } else {
      assert RepeatKey(m)[i] == RepeatKey(m - 1)[i - 21];
      RepeatKeyAt(m - 1, i - 21);
      assert (i - 21) % 21 == i % 21;
    }
  }

  /** `ENCRYPTION_KEY * (n // 21 + 1)`: always longer than `n`, so the `zip` never truncates its input. */
  function KeyStream(n: nat): (r: seq<byte>)
    ensures |r| > n
  {
    RepeatKey(n / 21 + 1)
  }

  /** `bytes(a ^ b for a, b in zip(data, key_bytes[:len(data)]))`. */
  function XorWithKey(data: seq<byte>): (r: seq<byte>)
    ensures |r| == |data|
  {
    var key := KeyStream(|data|)[..|data|];
    seq(|data|, i requires 0 <= i < |data| => XorByte(data[i], key[i]))
  }

  /** Byte `i` of the output is byte `i` of the input XORed with key byte `i mod 21`. */
  lemma XorWithKeyAt(data: seq<byte>, i: nat)
    requires i < |data|
    ensures XorWithKey(data)[i] == XorByte(data[i], ENCRYPTION_KEY[i % 21])
  {
    RepeatKeyAt(|data| / 21 + 1, i);
  }

  /** The transform is its own inverse. */
  lemma XorWithKeyTwice(data: seq<byte>)
    ensures XorWithKey(XorWithKey(data)) == data
  {
    var once := XorWithKey(data);
    forall i | 0 <= i < |data|
      ensures XorWithKey(once)[i] == data[i]
    {
      XorWithKeyAt(data, i);
      XorWithKeyAt(once, i);
      XorTwice(data[i], ENCRYPTION_KEY[i % 21]);
    }
  }

  /** `encrypt_credentials(text)`. */
  function EncryptCredentials(text: string): (r: string)
    ensures |r| == 2 * |Encode(text)|
    ensures forall i :: 0 <= i < |r| ==> Hex.IsLowerHexDigit(r[i])
  {
    Hex.Encode(XorWithKey(Encode(text)))
  }

  /** `decrypt_credentials(encrypted_hex)`: `None` stands for the `ValueError` of `bytes.fromhex` or the `UnicodeDecodeError` of `decode`. */
  function DecryptCredentials(encryptedHex: string): (r: Option<string>)
    ensures r.Some? ==> 2 * |r.value| <= |encryptedHex|
  {
    match Hex.Decode(encryptedHex)
    case None => None
    case Some(bytes) => Decode(XorWithKey(bytes))
  }

  /** Round trip: every string comes back from its obfuscated form. */
  lemma DecryptEncrypt(text: string)
    ensures DecryptCredentials(EncryptCredentials(text)) == Some(text)
  {
    var once := XorWithKey(Encode(text));
    Hex.DecodeEncode(once);
    XorWithKeyTwice(Encode(text));
    DecodeEncode(text);
  }

  /** Decryption fails on text of odd length or with a non-hex character. */
  lemma DecryptRejectsNonHex(encryptedHex: string)
    requires |encryptedHex| % 2 == 1 || !Hex.AllHexDigits(encryptedHex)
    ensures DecryptCredentials(encryptedHex) == None
  {
    Hex.DecodeFails(encryptedHex);
  }

  /** Hex text that decodes but whose bytes, once XORed, are not UTF-8 is rejected too: "d3" gives the lone continuation byte 0x80. */
  lemma DecryptRejectsInvalidUtf8()
    ensures DecryptCredentials("d3") == None
  {
    HexD3();
    XorD3();
    assert DecodeFirst([0x80]) == None;
  }

  lemma HexD3()
    ensures Hex.Decode("d3") == Some([0xD3])
  {
    var h := "d3";
    assert h[0] == 'd' && h[1] == '3' && h[2..] == [];
    assert Hex.DigitValue(h[0]) == Some(13) && Hex.DigitValue(h[1]) == Some(3);
    assert Hex.Decode(h[2..]) == Some([]);
    assert [13 * 16 + 3] + [] == [0xD3];
  }

  lemma XorD3()
    ensures XorWithKey([0xD3]) == [0x80]
  {
    assert Xor(0x03, 0x01) == 0x02;
    assert Xor(0x0D, 0x05) == 0x08;
    assert Xor(0x34, 0x14) == 0x20;
    assert Xor(0xD3, 0x53) == 0x80;
    XorWithKeyAt([0xD3], 0);
  }

  /** The obfuscated text is empty exactly when the string is, and never holds whitespace or a line break. */
  lemma EncryptShape(text: string)
    ensures (EncryptCredentials(text) == []) <==> (text == [])
    ensures Text.NoSpace(EncryptCredentials(text))
    ensures forall i :: 0 <= i < |EncryptCredentials(text)| ==> EncryptCredentials(text)[i] != '\n'
  {
    var r := EncryptCredentials(text);
    forall i | 0 <= i < |r|
      ensures !Text.IsSpace(r[i]) && r[i] != '\n'
    {
      assert Hex.IsLowerHexDigit(r[i]);
    }
  }
}
