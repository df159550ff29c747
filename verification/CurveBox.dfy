/**
 * Byte strings in which ciphertext is opaque, and an ideal authenticated box over them: a box can be
 * opened exactly with the key pair and the nonce it was made with.
 *
 * A key pair is known by its public key; the common secret of two key pairs is the same for both
 * owners, so a box is marked with both public keys and opens for either.
 */
module CurveBox {
  import opened Wrappers
  import opened Bytes

  /** One byte: a plain one, part of a key, a random one, or byte number i of a box. */
  datatype Cell =
    | B(b: Byte)
    | PublicKeyByte(k: nat, i: nat)
    | SecretKeyByte(k: nat, i: nat)
    | RandomByte(seed: nat, i: nat)
    | Boxed(box: Box, i: nat)

  datatype Box =
    | PublicBox(sender: seq<Cell>, receiver: seq<Cell>, nonce: seq<Cell>, plain: seq<Cell>)
    | SecretBox(key: seq<Cell>, nonce: seq<Cell>, plain: seq<Cell>)

  type Cells = seq<Cell>

  function PublicKey(k: nat): (r: Cells)
    ensures |r| == 32
  {
    seq(32, i requires 0 <= i < 32 => PublicKeyByte(k, i))
  }

  function SecretKey(k: nat): (r: Cells)
    ensures |r| == 32
  {
    seq(32, i requires 0 <= i < 32 => SecretKeyByte(k, i))
  }

  function Randoms(seed: nat, n: nat): (r: Cells)
    ensures |r| == n
  {
    seq(n, i requires 0 <= i < n => RandomByte(seed, i))
  }

  function Zeros(n: nat): (r: Cells)
    ensures |r| == n
  {
    seq(n, _ => B(0))
  }

  function FromBytes(b: seq<Byte>): (r: Cells)
    ensures |r| == |b|
  {
    seq(|b|, i requires 0 <= i < |b| => B(b[i]))
  }

  /** The value of a byte; what the bytes of keys and boxes look like is not part of the model. */
  function ByteOf(c: Cell): Byte {
    if c.B? then c.b else 0
  }

  function ToBytes(c: Cells): (r: seq<Byte>)
    ensures |r| == |c|
  {
    seq(|c|, i requires 0 <= i < |c| => ByteOf(c[i]))
  }

  lemma BytesRoundTrip(b: seq<Byte>)
    ensures ToBytes(FromBytes(b)) == b
  {
  }

  function Ascii(s: string): (r: Cells)
    ensures |r| == |s|
  {
    seq(|s|, i requires 0 <= i < |s| => B(s[i] as int % 256))
  }

  // ------------------------------------------------------------------ numbers

  /** put_uint64 for counters that have not wrapped around. */
  function PutNonce(v: nat): (r: Cells)
    requires v < 0x1_0000_0000_0000_0000
    ensures |r| == 8
  {
    FromBytes(Bytes.PutUint64(v))
  }

  /** get_uint64. */
  function GetNonce(c: Cells): (v: nat)
    requires |c| == 8
    ensures v < 0x1_0000_0000_0000_0000
  {
    Bytes.GetUint64(ToBytes(c))
  }

  lemma NonceRoundTrip(v: nat)
    requires v < 0x1_0000_0000_0000_0000
    ensures GetNonce(PutNonce(v)) == v
  {
    Bytes.Uint64RoundTrip(v);
    BytesRoundTrip(Bytes.PutUint64(v));
  }

  // ------------------------------------------------------------------ boxes

  function Whole(box: Box): (r: Cells)
    ensures |r| == |box.plain| + 16
    ensures r[0] == Boxed(box, 0)
  {
    seq(|box.plain| + 16, i requires 0 <= i < |box.plain| + 16 => Boxed(box, i))
  }

  /** crypto_box, without the leading zero bytes of its interface. */
  function Seal(me: Cells, peer: Cells, nonce: Cells, plain: Cells): (r: Cells)
    ensures |r| == |plain| + 16
  {
    Whole(PublicBox(me, peer, nonce, plain))
  }

  /** crypto_box_open. */
  function Open(me: Cells, peer: Cells, nonce: Cells, c: Cells): (r: Option<Cells>)
    ensures r.Some? ==> |c| == |r.value| + 16
  {
    if |c| >= 16 && c[0].Boxed? && c[0].box.PublicBox? && c == Whole(c[0].box) && c[0].box.nonce == nonce
       && ((c[0].box.sender == me && c[0].box.receiver == peer) || (c[0].box.sender == peer && c[0].box.receiver == me))
    then Some(c[0].box.plain)
    else None
  }

  /** crypto_secretbox and crypto_secretbox_open. */
  function SealSecret(key: Cells, nonce: Cells, plain: Cells): (r: Cells)
    ensures |r| == |plain| + 16
  {
    Whole(SecretBox(key, nonce, plain))
  }

  function OpenSecret(key: Cells, nonce: Cells, c: Cells): (r: Option<Cells>)
    ensures r.Some? ==> |c| == |r.value| + 16
  {
    if |c| >= 16 && c[0].Boxed? && c[0].box.SecretBox? && c == Whole(c[0].box) && c[0].box.nonce == nonce
      && c[0].box.key == key
    then Some(c[0].box.plain)
    else None
  }

  lemma OpensForPeer(me: Cells, peer: Cells, nonce: Cells, plain: Cells)
    ensures Open(peer, me, nonce, Seal(me, peer, nonce, plain)) == Some(plain)
  {
  }

  lemma OpensSecret(key: Cells, nonce: Cells, plain: Cells)
    ensures OpenSecret(key, nonce, SealSecret(key, nonce, plain)) == Some(plain)
  {
  }
}
