/** The two encodings of a (user, peer_id) pair as a peer-map key: the Go port writes the
    user ID as four big-endian bytes, the C++ original writes it in decimal. */
module PeerKeys {

  type Byte = b: int | 0 <= b < 256
  type Word32 = w: int | 0 <= w < 0x1_0000_0000
  type Key = seq<Byte>

  datatype Ident = Ident(user: Word32, peerID: seq<Byte>)

  function Wrap32(x: int): (w: Word32) {
    x % 0x1_0000_0000
  }

  /** An unsigned 32-bit counter going up or down by one at most. */
  function Moved(w: Word32, d: int): (m: Word32)
    requires -1 <= d <= 1
  {
    if w + d < 0 then 0xFFFF_FFFF else if w + d > 0xFFFF_FFFF then 0 else w + d
  }

  lemma MovedWraps(x: int, d: int)
    requires -1 <= d <= 1
    ensures Moved(Wrap32(x), d) == Wrap32(x + d)
  {
  }

  // ----- Go port -----

  function BigEndian(u: Word32): (s: seq<Byte>)
    ensures |s| == 4
  {
    [u / 0x100_0000, u / 0x1_0000 % 256, u / 0x100 % 256, u % 256]
  }

  function FromBigEndian(s: seq<Byte>): (u: Word32)
    requires |s| == 4
  {
    (s[0] as int) * 0x100_0000 + (s[1] as int) * 0x1_0000 + (s[2] as int) * 0x100 + s[3] as int
  }

  function GoKey(peerID: seq<Byte>, user: Word32, torrentID: Word32): (key: Key)
  {
    if |peerID| < 20 then peerID
    else [peerID[12 + torrentID % 16381 % 8]] + BigEndian(user) + peerID
  }

  function GoIdent(key: Key): (i: Ident)
    requires |key| >= 5
  {
    Ident(FromBigEndian(key[1..5]), key[5..])
  }

  lemma BigEndianReadsBack(u: Word32)
    ensures FromBigEndian(BigEndian(u)) == u
  {
    var a, b := u / 0x100, u / 0x1_0000;
    assert u == a * 0x100 + u % 256 && a == b * 0x100 + a % 256 && b == u / 0x100_0000 * 0x100 + b % 256;
  }

  /** Every key a full-length peer ID produces can be read back, so distinct
      (user, peer_id) pairs never share a key inside one torrent. */
  lemma GoKeyReadsBack(peerID: seq<Byte>, user: Word32, torrentID: Word32)
    requires |peerID| >= 20
    ensures |GoKey(peerID, user, torrentID)| == 5 + |peerID|
    ensures GoIdent(GoKey(peerID, user, torrentID)) == Ident(user, peerID)
  {
    var key := GoKey(peerID, user, torrentID);
    BigEndianReadsBack(user);
    assert key[1..5] == BigEndian(user);
    hide FromBigEndian, BigEndian;
    assert key[5..] == peerID;
  }

  // ----- C++ original -----

  function Decimal(n: nat): (s: seq<Byte>)
    ensures |s| >= 1
  {
    if n < 10 then [48 + n] else Decimal(n / 10) + [48 + n % 10]
  }

  function DecimalValue(s: seq<Byte>): (n: int)
  {
    if s == [] then 0 else 10 * DecimalValue(s[..|s| - 1]) + (s[|s| - 1] as int - 48)
  }

  lemma {:induction false} DecimalReadsBack(n: nat)
    ensures DecimalValue(Decimal(n)) == n
  {
    var s := Decimal(n);
    if n < 10 {
      assert s[..|s| - 1] == [];
    } else {
      assert s[..|s| - 1] == Decimal(n / 10);
      DecimalReadsBack(n / 10);
    }
  }

  function CppKey(peerID: seq<Byte>, user: Word32, torrentID: Word32): (key: Key)
    requires |peerID| == 20
  {
    [peerID[12 + torrentID % 8]] + Decimal(user) + peerID
  }

  function CppIdent(key: Key): (i: Ident)
    requires |key| >= 22
  {
    Ident(Wrap32(DecimalValue(key[1..|key| - 20])), key[|key| - 20..])
  }

  /** The decimal field has no fixed width, but the 20-byte tail delimits it. */
  lemma CppKeyReadsBack(peerID: seq<Byte>, user: Word32, torrentID: Word32)
    requires |peerID| == 20
    ensures |CppKey(peerID, user, torrentID)| >= 22
    ensures CppIdent(CppKey(peerID, user, torrentID)) == Ident(user, peerID)
  {
    var key := CppKey(peerID, user, torrentID);
    DecimalReadsBack(user);
    assert key[1..|key| - 20] == Decimal(user);
    assert key[|key| - 20..] == peerID;
  }

  /** Two peers of one torrent collide under one encoding exactly when they collide under
      the other, namely never. */
  lemma KeysAgree(p: seq<Byte>, u: Word32, q: seq<Byte>, v: Word32, torrentID: Word32)
    requires |p| == 20 && |q| == 20
    ensures GoKey(p, u, torrentID) == GoKey(q, v, torrentID) <==> p == q && u == v
    ensures CppKey(p, u, torrentID) == CppKey(q, v, torrentID) <==> p == q && u == v
  {
    GoKeyReadsBack(p, u, torrentID);
    GoKeyReadsBack(q, v, torrentID);
    CppKeyReadsBack(p, u, torrentID);
    CppKeyReadsBack(q, v, torrentID);
  }

  /** Both keys start with one of the last eight bytes of the peer ID, picked by the torrent. Below torrent 16381 it is
      the same one; above, the port folds the ID first. */
  lemma KeyPrefixes(p: seq<Byte>, u: Word32, torrentID: Word32)
    requires |p| == 20
    ensures CppKey(p, u, torrentID)[0] == p[12 + torrentID % 8]
    ensures GoKey(p, u, torrentID)[0] == CppKey(p, u, torrentID % 16381)[0]
    ensures torrentID < 16381 ==> GoKey(p, u, torrentID)[0] == CppKey(p, u, torrentID)[0]
  {
  }
}
