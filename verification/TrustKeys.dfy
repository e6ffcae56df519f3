/** What a valid signing key is (`validate_signing_key` in `podctl/src/trust.rs`): the standard base64 text of 32
    bytes (section 4 of RFC 4648).
 */
module TrustKeys {
  import opened Trust

  type Byte = x: nat | x < 256

  /** The character of the standard alphabet for a value. */
  function Letter(n: nat): (c: char)
    requires n < 64
    ensures Sextet(c) == n
  {
    if n < 26 then (n + 'A' as nat) as char
    else if n < 52 then (n - 26 + 'a' as nat) as char
    else if n < 62 then (n - 52 + '0' as nat) as char
    else if n == 62 then '+'
    else '/'
  }

  lemma SextetIsOne(a: char, b: char)
    requires Sextet(a) == Sextet(b) < 64
    ensures a == b
  {
  }

  /** The bytes with a zero byte added, which the padding stands for. */
  function At(bytes: seq<Byte>, i: nat): Byte {
    if i < |bytes| then bytes[i] else 0
  }

  /** The four sixes of the `q`th three bytes. */
  function Bits(bytes: seq<Byte>, q: nat, r: nat): (n: nat)
    ensures n < 64
  {
    var a, b, c := At(bytes, 3 * q), At(bytes, 3 * q + 1), At(bytes, 3 * q + 2);
    if r == 0 then a / 4
    else if r == 1 then a % 4 * 16 + b / 16
    else if r == 2 then b % 16 * 4 + c / 64
    else c % 64
  }

  /** The base64 text of 32 bytes: 43 characters and one of padding. */
  function Encoded(bytes: seq<Byte>): string {
    seq(43, i requires 0 <= i < 43 => Letter(Bits(bytes, i / 4, i % 4))) + "="
  }

  lemma EncodedAt(bytes: seq<Byte>, i: nat)
    requires i < 43
    ensures Sextet(Encoded(bytes)[i]) == Bits(bytes, i / 4, i % 4)
  {
    hide Sextet, Letter, Bits;
  }

  lemma LastBits(bytes: seq<Byte>)
    requires |bytes| == 32
    ensures Bits(bytes, 10, 2) % 4 == 0
  {
  }

  lemma EncodedIsValid(bytes: seq<Byte>)
    requires |bytes| == 32
    ensures ValidKey(Encoded(bytes))
  {
    hide Sextet, Letter, Bits;
    var key := Encoded(bytes);
    forall i | 0 <= i < 43 ensures Sextet(key[i]) < 64 {
      EncodedAt(bytes, i);
    }
    EncodedAt(bytes, 42);
    LastBits(bytes);
  }

  /** The three bytes that four sixes spell. */
  function Spelled(key: string, q: nat, r: nat): Byte
    requires ValidKey(key) && q <= 10 && r < 3 && (q < 10 || r < 2)
  {
    if r == 0 then Sextet(key[4 * q]) * 4 + Sextet(key[4 * q + 1]) / 16
    else if r == 1 then Sextet(key[4 * q + 1]) % 16 * 16 + Sextet(key[4 * q + 2]) / 4
    else Sextet(key[4 * q + 2]) % 4 * 64 + Sextet(key[4 * q + 3])
  }

  function Decoded(key: string): seq<Byte>
    requires ValidKey(key)
  {
    seq(32, j requires 0 <= j < 32 => Spelled(key, j / 3, j % 3))
  }

  lemma DecodedAt(key: string, q: nat)
    requires ValidKey(key) && q <= 10
    ensures At(Decoded(key), 3 * q) == Spelled(key, q, 0) && At(Decoded(key), 3 * q + 1) == Spelled(key, q, 1)
    ensures At(Decoded(key), 3 * q + 2) == if q < 10 then Spelled(key, q, 2) else 0
  {
    hide Sextet, Spelled;
    assert (3 * q) / 3 == q && (3 * q + 1) / 3 == q && (3 * q + 2) / 3 == q;
    assert (3 * q) % 3 == 0 && (3 * q + 1) % 3 == 1 && (3 * q + 2) % 3 == 2;
  }

  lemma BitsOfSpelled(key: string, q: nat, r: nat)
    requires ValidKey(key) && r < 4 && 4 * q + r < 43
    ensures Bits(Decoded(key), q, r) == Sextet(key[4 * q + r])
  {
    hide Sextet, At, Decoded;
    DecodedAt(key, q);
    GroupSpelled(Sextet(key[4 * q]), Sextet(key[4 * q + 1]), Sextet(key[4 * q + 2]),
                 if q < 10 then Sextet(key[4 * q + 3]) else 0);
  }

  /** Four sixes and the three bytes they spell. */
  lemma GroupSpelled(a: nat, b: nat, c: nat, d: nat)
    requires a < 64 && b < 64 && c < 64 && d < 64
    ensures (a * 4 + b / 16) / 4 == a
    ensures (a * 4 + b / 16) % 4 * 16 + (b % 16 * 16 + c / 4) / 16 == b
    ensures (b % 16 * 16 + c / 4) % 16 * 4 + (c % 4 * 64 + d) / 64 == c
    ensures (c % 4 * 64 + d) % 64 == d
  {
  }

  /** A key is valid exactly when it is the base64 text of some 32 bytes. */
  lemma KeysAreEncodings(key: string)
    ensures ValidKey(key) <==> exists bytes: seq<Byte> :: |bytes| == 32 && Encoded(bytes) == key
  {
    hide Sextet, Letter, Bits, Spelled;
    if ValidKey(key) {
      var bytes := Decoded(key);
      var text := Encoded(bytes);
      forall i | 0 <= i < 43 ensures text[i] == key[i] {
        EncodedAt(bytes, i);
        BitsOfSpelled(key, i / 4, i % 4);
        SextetIsOne(text[i], key[i]);
      }
      assert text == key;
    }
    forall bytes: seq<Byte> | |bytes| == 32 && Encoded(bytes) == key ensures ValidKey(key) {
      EncodedIsValid(bytes);
    }
  }
}
