/**
 The two key-derivation loops, the phone's over an in-place buffer and the host's over a growing byte string.

 HMAC-SHA256 is any function that returns 32 bytes. The reference is section 2.3 of RFC 5869 with empty info.
 */
module Hkdf {
  import opened Wrappers
  import opened Base64

  const HASH_LEN := 32

  /** The most the counter octet allows: 255 blocks. */
  const MAX_LENGTH := 255 * HASH_LEN

  type Mac = (seq<Byte>, seq<Byte>) -> seq<Byte>

  ghost predicate IsMac(mac: Mac) { forall key, data :: |mac(key, data)| == HASH_LEN }

  /** Block T(n): the MAC of the previous block and the octet n; T(0) is empty. */
  function T(mac: Mac, prk: seq<Byte>, n: nat): seq<Byte> {
    if n == 0 then [] else mac(prk, T(mac, prk, n - 1) + [n % 256])
  }

  /** T(1) | T(2) | ... | T(n) */
  function Stream(mac: Mac, prk: seq<Byte>, n: nat): seq<Byte> {
    if n == 0 then [] else Stream(mac, prk, n - 1) + T(mac, prk, n)
  }

  lemma {:induction false} StreamLength(mac: Mac, prk: seq<Byte>, n: nat)
    requires IsMac(mac)
    ensures |Stream(mac, prk, n)| == n * HASH_LEN
  {
    if n > 0 {
      StreamLength(mac, prk, n - 1);
    }
  }

  lemma {:induction false} StreamGrows(mac: Mac, prk: seq<Byte>, m: nat, n: nat)
    requires m <= n
    ensures Stream(mac, prk, m) <= Stream(mac, prk, n)
  {
    if m < n {
      StreamGrows(mac, prk, m, n - 1);
    }
  }

  /** The output keying material: the first `length` octets of the stream. */
  ghost predicate IsOkm(mac: Mac, prk: seq<Byte>, length: nat, okm: seq<Byte>) {
    |okm| == length && exists n :: okm <= Stream(mac, prk, n)
  }

  lemma OkmUnique(mac: Mac, prk: seq<Byte>, length: nat, a: seq<Byte>, b: seq<Byte>)
    requires IsOkm(mac, prk, length, a) && IsOkm(mac, prk, length, b)
    ensures a == b
  {
    var m :| a <= Stream(mac, prk, m);
    var n :| b <= Stream(mac, prk, n);
    if m <= n {
      StreamGrows(mac, prk, m, n);
    } else {
      StreamGrows(mac, prk, n, m);
    }
  }

  lemma NothingYet(mac: Mac, prk: seq<Byte>)
    ensures T(mac, prk, 0) == [] == Stream(mac, prk, 0)
  {}

  lemma NextBlock(mac: Mac, prk: seq<Byte>, c: nat)
    ensures mac(prk, T(mac, prk, c) + [(c + 1) % 256]) == T(mac, prk, c + 1)
  {}

  /** Whole blocks followed by the beginning of the next one are the beginning of the stream. */
  lemma StreamStep(mac: Mac, prk: seq<Byte>, c: nat, before: seq<Byte>, n: nat)
    requires IsMac(mac) && |before| == c * HASH_LEN && before <= Stream(mac, prk, c) && n <= HASH_LEN
    ensures |T(mac, prk, c + 1)| == HASH_LEN
    ensures before + T(mac, prk, c + 1)[..n] <= Stream(mac, prk, c + 1)
  {
    StreamLength(mac, prk, c);
    assert before == Stream(mac, prk, c);
  }

  /** `output.set(source.subarray(0, n), offset)` */
  method SetBytes(output: array<Byte>, offset: nat, source: seq<Byte>, n: nat)
    requires n <= |source| && offset + n <= output.Length
    modifies output
    ensures output[..offset] == old(output[..offset]) && output[offset..offset + n] == source[..n]
    ensures output[offset + n..] == old(output[offset + n..])
  {
    for i := 0 to n
      invariant output[..offset] == old(output[..offset])
      invariant output[offset + n..] == old(output[offset + n..])
      invariant output[offset..offset + i] == source[..i]
    {
      output[offset + i] := source[i];
    }
  }

  /** The phone's version, filling a buffer of the requested length; the counter is stored in one octet. */
  method HkdfHmacFallback(mac: Mac, keyMaterial: seq<Byte>, salt: seq<Byte>, length: nat) returns (output: array<Byte>)
    requires IsMac(mac)
    ensures fresh(output) && IsOkm(mac, mac(salt, keyMaterial), length, output[..])
  {
    hide Stream, T;
    var prk := mac(salt, keyMaterial);
    NothingYet(mac, prk);
    output := new Byte[length](_ => 0);
    var previous: seq<Byte> := [];
    var offset := 0;
    var counter := 1;
    while offset < length
      invariant 0 <= offset <= length && counter >= 1
      invariant previous == T(mac, prk, counter - 1)
      invariant offset < length ==> offset == (counter - 1) * HASH_LEN
      invariant output[..offset] <= Stream(mac, prk, counter - 1)
      decreases length - offset
    {
      ghost var before := output[..offset];
      NextBlock(mac, prk, counter - 1);
      previous := mac(prk, previous + [counter % 256]);
      var remaining := length - offset;
      var n := if |previous| <= remaining then |previous| else remaining;
      SetBytes(output, offset, previous, n);
      StreamStep(mac, prk, counter - 1, before, n);
      assert output[..offset + n] == before + previous[..n];
      offset := offset + n;
      counter := counter + 1;
    }
    assert output[..length] == output[..];
  }

  /** The host's version, appending whole blocks and cutting at the end; an octet above 255 cannot be made. */
  method HkdfExpand(mac: Mac, ikm: seq<Byte>, salt: seq<Byte>, length: nat) returns (okm: Result<seq<Byte>>)
    requires IsMac(mac)
    ensures okm.Ok? <==> length <= MAX_LENGTH
    ensures okm.Ok? ==> IsOkm(mac, mac(salt, ikm), length, okm.value)
  {
    var prk := mac(salt, ikm);
    var out: seq<Byte> := [];
    var block: seq<Byte> := [];
    var counter := 1;
    while |out| < length
      invariant 1 <= counter <= 256
      invariant block == T(mac, prk, counter - 1)
      invariant out == Stream(mac, prk, counter - 1) && |out| == (counter - 1) * HASH_LEN
      invariant counter > 1 ==> (counter - 2) * HASH_LEN < length
      decreases length - |out|
    {
      if counter > 255 {
        return Err;
      }
      block := mac(prk, block + [counter]);
      out := out + block;
      counter := counter + 1;
    }
    okm := Ok(out[..length]);
  }

  /** Octet `k` of the material lies in block `k / 32 + 1`. */
  lemma {:induction false} OctetOfBlock(mac: Mac, prk: seq<Byte>, n: nat, k: nat)
    requires IsMac(mac) && k < n * HASH_LEN
    ensures k < |Stream(mac, prk, n)| && Stream(mac, prk, n)[k] == T(mac, prk, k / HASH_LEN + 1)[k % HASH_LEN]
    decreases n
  {
    StreamLength(mac, prk, n - 1);
    if k < (n - 1) * HASH_LEN {
      OctetOfBlock(mac, prk, n - 1, k);
    } else {
      assert k / HASH_LEN + 1 == n;
    }
  }

  /** A shorter key is the beginning of a longer one. */
  lemma OkmPrefix(mac: Mac, prk: seq<Byte>, short: nat, long: nat, a: seq<Byte>, b: seq<Byte>)
    requires short <= long && IsOkm(mac, prk, short, a) && IsOkm(mac, prk, long, b)
    ensures a <= b
  {
    var n :| b <= Stream(mac, prk, n);
    assert b[..short] <= Stream(mac, prk, n);
    OkmUnique(mac, prk, short, a, b[..short]);
  }

  /**
   Host and phone derive the same key for every length the counter octet allows; beyond it the host
   raises an error while the phone still produces a key.
   */
  method DeriveBoth(mac: Mac, ikm: seq<Byte>, salt: seq<Byte>, length: nat)
      returns (phone: array<Byte>, host: Result<seq<Byte>>)
    requires IsMac(mac)
    ensures host == if length <= MAX_LENGTH then Ok(phone[..]) else Err
  {
    phone := HkdfHmacFallback(mac, ikm, salt, length);
    host := HkdfExpand(mac, ikm, salt, length);
    if host.Ok? {
      OkmUnique(mac, mac(salt, ikm), length, phone[..], host.value);
    }
  }
}
