/** The image de-obfuscation of `MangaPlusAPI.get_image`: a repeating-XOR of the downloaded
    bytes with the page's key, specified here on values. The in-place loop that computes it
    is `Client.MangaPlusApi.GetImage`. */
module ImageDecode {
  import opened Errors
  import opened Bytes
  import Hex

  /** The key repeated end to end and cut to `n` bytes. */
  function KeyStream(key: seq<byte>, n: nat): (r: seq<byte>)
    requires key != []
    decreases n
  {
    if n <= |key| then key[..n] else key + KeyStream(key, n - |key|)
  }

  /** Byte-wise XOR of two strings of bytes of the same length. */
  function XorBytes(a: seq<byte>, b: seq<byte>): (r: seq<byte>)
    requires |a| == |b|
  {
    if a == [] then [] else [Xor(a[0], b[0])] + XorBytes(a[1..], b[1..])
  }

  /** Byte `s` of the key stream is key byte `s mod |key|`. */
  lemma {:induction false} KeyStreamAt(key: seq<byte>, n: nat)
    requires key != []
    ensures |KeyStream(key, n)| == n
    ensures forall s :: 0 <= s < n ==> KeyStream(key, n)[s] == key[s % |key|]
    decreases n
  {
    var k := |key|;
    if n <= k {
      forall s | 0 <= s < n ensures KeyStream(key, n)[s] == key[s % k] {
        ModUnique(s, k, 0, s);
      }
    } else {
      KeyStreamAt(key, n - k);
      var rest := KeyStream(key, n - k);
      assert KeyStream(key, n) == key + rest;
      forall s | 0 <= s < n ensures (key + rest)[s] == key[s % k] {
        if s < k {
          ModUnique(s, k, 0, s);
        } else {
          ModShift(s, k);
        }
      }
    }
  }

  lemma ModShift(s: int, k: int)
    requires k > 0 && s >= k
    ensures (s - k) % k == s % k
  {
    var q, r := s / k, s % k;
    assert s - k == (q - 1) * k + r;
    ModUnique(s - k, k, q - 1, r);
  }

  lemma ModUnique(x: int, k: int, q: int, r: int)
    requires k > 0 && 0 <= r < k && x == q * k + r
    ensures x % k == r
  {
    var d := q - x / k;
    assert d * k == x % k - r;
  }

  lemma {:induction false} XorBytesAt(a: seq<byte>, b: seq<byte>)
    requires |a| == |b|
    ensures |XorBytes(a, b)| == |a|
    ensures forall s :: 0 <= s < |a| ==> XorBytes(a, b)[s] == Xor(a[s], b[s])
  {
    if a != [] {
      XorBytesAt(a[1..], b[1..]);
    }
  }

  /** The bytes `data` XOR-ed with the repeating `key`. */
  function RepeatingXor(data: seq<byte>, key: seq<byte>): (r: seq<byte>)
    requires key != []
  {
    KeyStreamAt(key, |data|);
    XorBytes(data, KeyStream(key, |data|))
  }

  /** Output byte `s` is input byte `s` XOR key byte `s mod |key|`; the length is kept. */
  lemma RepeatingXorAt(data: seq<byte>, key: seq<byte>)
    requires key != []
    ensures |RepeatingXor(data, key)| == |data|
    ensures forall s :: 0 <= s < |data| ==> RepeatingXor(data, key)[s] == Xor(data[s], key[s % |key|])
  {
    KeyStreamAt(key, |data|);
    XorBytesAt(data, KeyStream(key, |data|));
  }

  /** What `get_image` returns for the downloaded bytes `data` and the page's key string:
      the key is decoded first, so a malformed key fails whatever the data; an empty key
      fails with a division by zero as soon as there is a byte to decode. */
  function Deobfuscate(data: seq<byte>, encryptionKey: string): (r: Result<seq<byte>>)
    ensures r.Ok? ==> |r.value| == |data|
    ensures r.Err? ==> r.error.NonHexadecimal? || (r.error == ZeroDivision && data != [])
  {
    var key :- Hex.FromHex(encryptionKey);
    if key == [] then
      if data == [] then Ok([]) else Err(ZeroDivision)
    else
      RepeatingXorAt(data, key);
      Ok(RepeatingXor(data, key))
  }

  /** The decoded image has the length of the downloaded one, and its byte `s` is the
      downloaded byte `s` XOR key byte `s mod |key|`. */
  lemma DeobfuscateAt(data: seq<byte>, encryptionKey: string)
    requires Deobfuscate(data, encryptionKey).Ok?
    ensures var key := Hex.FromHex(encryptionKey).value;
            var out := Deobfuscate(data, encryptionKey).value;
            |out| == |data| && forall s :: 0 <= s < |data| ==> out[s] == Xor(data[s], key[s % |key|])
  {
    var key := Hex.FromHex(encryptionKey).value;
    if key != [] {
      RepeatingXorAt(data, key);
    }
  }

  /** Decoding is its own inverse: decoding the decoded bytes with the same key gives back
      the downloaded bytes. */
  lemma DeobfuscateTwice(data: seq<byte>, encryptionKey: string)
    requires Deobfuscate(data, encryptionKey).Ok?
    ensures Deobfuscate(Deobfuscate(data, encryptionKey).value, encryptionKey) == Ok(data)
  {
    var key := Hex.FromHex(encryptionKey).value;
    if key != [] {
      var once := RepeatingXor(data, key);
      RepeatingXorAt(data, key);
      RepeatingXorAt(once, key);
      forall s | 0 <= s < |data| ensures RepeatingXor(once, key)[s] == data[s] {
        XorTwice(data[s], key[s % |key|]);
      }
      assert RepeatingXor(once, key) == data;
    }
  }

  /** A one-byte key XORs every byte with the same constant. */
  lemma SingleByteKey(data: seq<byte>, encryptionKey: string)
    requires Hex.FromHex(encryptionKey).Ok? && |Hex.FromHex(encryptionKey).value| == 1
    ensures var k := Hex.FromHex(encryptionKey).value[0];
            var r := Deobfuscate(data, encryptionKey);
            r.Ok? && |r.value| == |data| && forall s :: 0 <= s < |data| ==> r.value[s] == Xor(data[s], k)
  {
    DeobfuscateAt(data, encryptionKey);
  }

  /** A key at least as long as the image is not repeated: byte `s` uses key byte `s`, so
      no key byte is used twice. */
  lemma LongKeyUsedOnce(data: seq<byte>, encryptionKey: string)
    requires Hex.FromHex(encryptionKey).Ok? && |Hex.FromHex(encryptionKey).value| >= |data|
    ensures var key := Hex.FromHex(encryptionKey).value;
            var r := Deobfuscate(data, encryptionKey);
            r.Ok? && |r.value| == |data| && forall s :: 0 <= s < |data| ==> s % |key| == s && r.value[s] == Xor(data[s], key[s])
  {
    DeobfuscateAt(data, encryptionKey);
    var key := Hex.FromHex(encryptionKey).value;
    forall s | 0 <= s < |data| ensures s % |key| == s {
      ModUnique(s, |key|, 0, s);
    }
  }

  /** An empty key fails on any non-empty image. */
  lemma EmptyKeyFails(data: seq<byte>, encryptionKey: string)
    requires Hex.FromHex(encryptionKey) == Ok([]) && data != []
    ensures Deobfuscate(data, encryptionKey) == Err(ZeroDivision)
  {}

  /** An empty image decodes to an empty image under every well-formed key, the empty one
      included. */
  lemma EmptyImage(encryptionKey: string)
    requires Hex.FromHex(encryptionKey).Ok?
    ensures Deobfuscate([], encryptionKey) == Ok([])
  {
    var key := Hex.FromHex(encryptionKey).value;
    if key != [] {
      RepeatingXorAt([], key);
    }
  }

  /** A key that is not hexadecimal fails with the decoder's error, whatever the data. */
  lemma MalformedKeyFails(data: seq<byte>, encryptionKey: string)
    requires Hex.FromHex(encryptionKey).Err?
    ensures Deobfuscate(data, encryptionKey) == Err(Hex.FromHex(encryptionKey).error)
  {}
}
