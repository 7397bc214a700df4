/** The gossip envelope codec: a fixed layout around one variable-length origin. */
module Envelope {
  import opened Base

  type byte = x: int | 0 <= x < 256
  type Hash = s: seq<byte> | |s| == 32 witness seq(32, _ => 0)
  type Address = s: seq<byte> | |s| == 20 witness seq(20, _ => 0)
  type uint16 = x: int | 0 <= x < 0x1_0000

  const MAGIC: seq<byte> := [0x54, 0x4d, 0x44, 0x45]
  const VERSION: uint16 := 1
  const MAX_SIZE := 512
  const MAX_ORIGIN := 128
  const ZERO_HASH: Hash := seq(32, _ => 0)
  const ZERO_ADDRESS: Address := seq(20, _ => 0)

  datatype Message = Message(version: uint16, messageID: Hash, origin: seq<byte>, nanos: int, chainID: Hash, gateway: Address,
                             blockNumber: Hash, blockHash: Hash, txHash: Hash, txIndex: uint32, logIndex: uint32, payloadDigest: Hash)

  /** Peer identifier syntax and the message digest are the library's. */
  datatype Library = Library(validPeer: seq<byte> -> bool, digest: seq<byte> -> Hash)

  // ---------------------------------------------------------------------
  // Big-endian numbers
  // ---------------------------------------------------------------------

  function Power(width: nat): (p: nat)
    ensures p >= 1
  {
    if width == 0 then 1 else 256 * Power(width - 1)
  }

  function ToBytes(width: nat, value: nat): (bytes: seq<byte>)
    ensures |bytes| == width
  {
    if width == 0 then [] else ToBytes(width - 1, value / 256) + [value % 256]
  }

  function FromBytes(bytes: seq<byte>): (value: nat)
    ensures value < Power(|bytes|)
  {
    if bytes == [] then 0 else FromBytes(bytes[..|bytes| - 1]) * 256 + bytes[|bytes| - 1]
  }

  lemma {:induction false} FromToBytes(width: nat, value: nat)
    requires value < Power(width)
    ensures FromBytes(ToBytes(width, value)) == value
  {
    if width > 0 {
      FromToBytes(width - 1, value / 256);
      assert ToBytes(width, value)[..width - 1] == ToBytes(width - 1, value / 256);
    }
  }

  lemma {:induction false} ToFromBytes(bytes: seq<byte>)
    ensures ToBytes(|bytes|, FromBytes(bytes)) == bytes
  {
    if bytes != [] {
      var front, last := bytes[..|bytes| - 1], bytes[|bytes| - 1];
      ToFromBytes(front);
      LastDigit(FromBytes(front), last);
    }
  }

  lemma LastDigit(high: nat, low: byte)
    ensures (high * 256 + low) / 256 == high && (high * 256 + low) % 256 == low
  {
  }

  lemma Powers()
    ensures Power(2) == 0x1_0000 && Power(4) == 0x1_0000_0000 && Power(8) == 0x1_0000_0000_0000_0000
  {
    assert Power(1) == 256 && Power(2) == 256 * Power(1) && Power(3) == 256 * Power(2) && Power(4) == 256 * Power(3);
    assert Power(5) == 256 * Power(4) && Power(6) == 256 * Power(5) && Power(7) == 256 * Power(6) && Power(8) == 256 * Power(7);
  }

  // ---------------------------------------------------------------------
  // Layout
  // ---------------------------------------------------------------------

  const TWO_63: nat := 0x8000_0000_0000_0000

  /** Sixty-four bits read as a signed number. */
  function Signed(value: nat): int {
    if value >= TWO_63 then value - TWO_64 else value
  }

  function Unsigned(nanos: int): nat {
    if nanos < 0 then nanos % TWO_64 else nanos
  }

  function Fixed(m: Message): (bytes: seq<byte>)
    ensures |bytes| == 196
  {
    ToBytes(8, Unsigned(m.nanos)) + (m.chainID + (m.gateway + (m.blockNumber + (m.blockHash + (m.txHash +
    (ToBytes(4, m.txIndex) + (ToBytes(4, m.logIndex) + m.payloadDigest)))))))
  }

  function Content(m: Message): (bytes: seq<byte>)
    ensures |bytes| == 200 + |m.origin|
  {
    ToBytes(2, m.version) + (ToBytes(2, |m.origin|) + (m.origin + Fixed(m)))
  }

  function Encoding(m: Message): (bytes: seq<byte>)
    ensures |bytes| == 236 + |m.origin|
  {
    MAGIC + (m.messageID + Content(m))
  }

  predicate ValidContent(library: Library, m: Message) {
    && m.version == VERSION && 0 < |m.origin| <= MAX_ORIGIN && library.validPeer(m.origin)
    && 0 < m.nanos < TWO_63
    && m.chainID != ZERO_HASH && m.gateway != ZERO_ADDRESS && m.blockHash != ZERO_HASH && m.txHash != ZERO_HASH && m.payloadDigest != ZERO_HASH
  }

  /** A valid message under its own digest. */
  predicate Sealed(library: Library, m: Message) {
    ValidContent(library, m) && m.messageID == library.digest(Content(m))
  }

  /** The frame of a byte string: size, magic, and an origin length that fills it exactly. */
  predicate Framed(encoded: seq<byte>) {
    && 236 <= |encoded| <= MAX_SIZE && encoded[..4] == MAGIC
    && var n := FromBytes(encoded[38..40]);
       0 < n <= MAX_ORIGIN && 40 + n + 196 == |encoded|
  }

  function Decode(encoded: seq<byte>): Message
    requires Framed(encoded)
  {
    var n := FromBytes(encoded[38..40]);
    var base := 40 + n;
    Powers();
    Message(FromBytes(encoded[36..38]), encoded[4..36], encoded[40..base], Signed(FromBytes(encoded[base..base + 8])),
            encoded[base + 8..base + 40], encoded[base + 40..base + 60], encoded[base + 60..base + 92], encoded[base + 92..base + 124],
            encoded[base + 124..base + 156], FromBytes(encoded[base + 156..base + 160]), FromBytes(encoded[base + 160..base + 164]),
            encoded[base + 164..base + 196])
  }

  lemma Take(s: seq<byte>, offset: nat, a: seq<byte>, b: seq<byte>)
    requires offset <= |s| && s[offset..] == a + b
    ensures offset + |a| <= |s| && s[offset..offset + |a|] == a && s[offset + |a|..] == b
  {
    assert s[offset..][..|a|] == a && s[offset..][|a|..] == b;
    assert s[offset..offset + |a|] == s[offset..][..|a|] && s[offset + |a|..] == s[offset..][|a|..];
  }

  /** Decoding the fixed part, from where it starts. */
  lemma FixedDecodes(s: seq<byte>, base: nat, m: Message)
    requires base <= |s| && s[base..] == Fixed(m) && 0 < m.nanos < TWO_63
    ensures |s| == base + 196
    ensures Signed(FromBytes(s[base..base + 8])) == m.nanos && s[base + 8..base + 40] == m.chainID && s[base + 40..base + 60] == m.gateway
    ensures s[base + 60..base + 92] == m.blockNumber && s[base + 92..base + 124] == m.blockHash && s[base + 124..base + 156] == m.txHash
    ensures FromBytes(s[base + 156..base + 160]) == m.txIndex && FromBytes(s[base + 160..base + 164]) == m.logIndex
    ensures s[base + 164..base + 196] == m.payloadDigest
  {
    hide ToBytes, FromBytes, Power, Signed, Unsigned;
    var t8 := ToBytes(4, m.logIndex) + m.payloadDigest;
    var t7 := ToBytes(4, m.txIndex) + t8;
    var t6 := m.txHash + t7;
    var t5 := m.blockHash + t6;
    var t4 := m.blockNumber + t5;
    var t3 := m.gateway + t4;
    var t2 := m.chainID + t3;
    Take(s, base, ToBytes(8, Unsigned(m.nanos)), t2);
    Take(s, base + 8, m.chainID, t3);
    Take(s, base + 40, m.gateway, t4);
    Take(s, base + 60, m.blockNumber, t5);
    Take(s, base + 92, m.blockHash, t6);
    Take(s, base + 124, m.txHash, t7);
    Take(s, base + 156, ToBytes(4, m.txIndex), t8);
    Take(s, base + 160, ToBytes(4, m.logIndex), m.payloadDigest);
    assert s[base + 164..base + 196] == s[base + 164..];
    NumbersDecode(m);
  }

  lemma NumbersDecode(m: Message)
    ensures FromBytes(ToBytes(2, m.version)) == m.version && FromBytes(ToBytes(4, m.txIndex)) == m.txIndex && FromBytes(ToBytes(4, m.logIndex)) == m.logIndex
    ensures |m.origin| < 0x1_0000 ==> FromBytes(ToBytes(2, |m.origin|)) == |m.origin|
    ensures 0 < m.nanos < TWO_63 ==> Signed(FromBytes(ToBytes(8, Unsigned(m.nanos)))) == m.nanos
  {
    Powers();
    FromToBytes(2, m.version);
    FromToBytes(4, m.txIndex);
    FromToBytes(4, m.logIndex);
    if |m.origin| < 0x1_0000 {
      FromToBytes(2, |m.origin|);
    }
    if 0 < m.nanos < TWO_63 {
      FromToBytes(8, Unsigned(m.nanos));
    }
  }

  /** Decoding an encoding gives the message back. */
  lemma DecodeEncoding(m: Message)
    requires 0 < |m.origin| <= MAX_ORIGIN && 0 < m.nanos < TWO_63
    ensures Framed(Encoding(m)) && Decode(Encoding(m)) == m
  {
    hide ToBytes, FromBytes, Power, Fixed, Signed;
    var s := Encoding(m);
    assert s[0..] == s;
    Take(s, 0, MAGIC, m.messageID + Content(m));
    Take(s, 4, m.messageID, Content(m));
    Take(s, 36, ToBytes(2, m.version), ToBytes(2, |m.origin|) + (m.origin + Fixed(m)));
    Take(s, 38, ToBytes(2, |m.origin|), m.origin + Fixed(m));
    Take(s, 40, m.origin, Fixed(m));
    NumbersDecode(m);
    FixedDecodes(s, 40 + |m.origin|, m);
  }

  lemma Split(s: seq<byte>, from: nat, to: nat)
    requires from <= to <= |s|
    ensures s[from..] == s[from..to] + s[to..]
  {
  }

  lemma NumberEncodes(bytes: seq<byte>, value: nat)
    requires value == FromBytes(bytes)
    ensures ToBytes(|bytes|, value) == bytes
  {
    ToFromBytes(bytes);
  }

  lemma SignedEncodes(bytes: seq<byte>, nanos: int)
    requires |bytes| == 8 && nanos == Signed(FromBytes(bytes))
    ensures ToBytes(8, Unsigned(nanos)) == bytes
  {
    hide ToBytes, FromBytes, Power, Signed, Unsigned;
    Powers();
    ToFromBytes(bytes);
    SignedReturns(FromBytes(bytes));
  }

  /** Reading a 64-bit pattern as signed and back. */
  lemma SignedReturns(value: nat)
    requires value < TWO_64
    ensures Unsigned(Signed(value)) == value
  {
    if value >= TWO_63 {
      assert (value - TWO_64) % TWO_64 == value;
    }
  }

  lemma FixedEncodes(s: seq<byte>, base: nat, m: Message)
    requires |s| == base + 196
    requires m.nanos == Signed(FromBytes(s[base..base + 8])) && s[base + 8..base + 40] == m.chainID && s[base + 40..base + 60] == m.gateway
    requires s[base + 60..base + 92] == m.blockNumber && s[base + 92..base + 124] == m.blockHash && s[base + 124..base + 156] == m.txHash
    requires FromBytes(s[base + 156..base + 160]) == m.txIndex && FromBytes(s[base + 160..base + 164]) == m.logIndex
    requires s[base + 164..base + 196] == m.payloadDigest
    ensures s[base..] == Fixed(m)
  {
    hide ToBytes, FromBytes, Power, Signed, Unsigned;
    SignedEncodes(s[base..base + 8], m.nanos);
    NumberEncodes(s[base + 156..base + 160], m.txIndex);
    NumberEncodes(s[base + 160..base + 164], m.logIndex);
    assert s[base + 164..] == s[base + 164..base + 196];
    Split(s, base + 160, base + 164);
    Split(s, base + 156, base + 160);
    Split(s, base + 124, base + 156);
    Split(s, base + 92, base + 124);
    Split(s, base + 60, base + 92);
    Split(s, base + 40, base + 60);
    Split(s, base + 8, base + 40);
    Split(s, base, base + 8);
  }

  /** Encoding what was decoded gives the bytes back. */
  lemma EncodingDecode(s: seq<byte>)
    requires Framed(s)
    ensures Encoding(Decode(s)) == s
  {
    hide ToBytes, FromBytes, Power, Fixed, Signed;
    var m := Decode(s);
    FixedEncodes(s, 40 + |m.origin|, m);
    NumberEncodes(s[36..38], m.version);
    NumberEncodes(s[38..40], |m.origin|);
    Split(s, 40, 40 + |m.origin|);
    Split(s, 38, 40);
    Split(s, 36, 38);
    Split(s, 4, 36);
    Split(s, 0, 4);
    assert s[0..] == s && s[0..4] == s[..4];
  }

  // ---------------------------------------------------------------------
  // The codec
  // ---------------------------------------------------------------------

  /** Marshalling succeeds exactly on sealed messages, and the size limit is never what stops it. */
  method MarshalBinary(library: Library, m: Message) returns (r: Option<seq<byte>>)
    ensures r.Some? <==> Sealed(library, m)
    ensures r.Some? ==> r.value == Encoding(m) && |r.value| <= 364 < MAX_SIZE
  {
    hide Content, Fixed;
    if !ValidContent(library, m) {
      return None;
    }
    var content := Content(m);
    if m.messageID != library.digest(content) {
      return None;
    }
    var encoded := MAGIC + m.messageID + content;
    assert encoded == Encoding(m);
    if |encoded| > MAX_SIZE {
      return None;
    }
    return Some(encoded);
  }

  /** Parsing accepts exactly the encodings of sealed messages, and returns the message encoded. */
  method Parse(library: Library, encoded: seq<byte>) returns (r: Option<Message>)
    ensures r.Some? ==> Sealed(library, r.value) && Encoding(r.value) == encoded
    ensures forall m :: Sealed(library, m) && Encoding(m) == encoded ==> r == Some(m)
  {
    hide Content, Fixed, Encoding, ToBytes, FromBytes, Power, Signed;
    forall m | Sealed(library, m) && Encoding(m) == encoded ensures Framed(encoded) && Decode(encoded) == m {
      DecodeEncoding(m);
    }
    if |encoded| > MAX_SIZE || |encoded| < 236 {
      return None;
    }
    if encoded[..4] != MAGIC {
      return None;
    }
    var offset := 4;
    var messageID: Hash := encoded[offset..offset + 32];
    offset := offset + 32;
    Powers();
    var version: uint16 := FromBytes(encoded[offset..offset + 2]);
    offset := offset + 2;
    var originLength := FromBytes(encoded[offset..offset + 2]);
    offset := offset + 2;
    if originLength == 0 || originLength > MAX_ORIGIN || offset + originLength + 196 != |encoded| {
      return None;
    }
    var origin := encoded[offset..offset + originLength];
    if !library.validPeer(origin) {
      return None;
    }
    offset := offset + originLength;
    var nanos := Signed(FromBytes(encoded[offset..offset + 8]));
    offset := offset + 8;
    var chainID: Hash := encoded[offset..offset + 32];
    offset := offset + 32;
    var gateway: Address := encoded[offset..offset + 20];
    offset := offset + 20;
    var blockNumber: Hash := encoded[offset..offset + 32];
    offset := offset + 32;
    var blockHash: Hash := encoded[offset..offset + 32];
    offset := offset + 32;
    var txHash: Hash := encoded[offset..offset + 32];
    offset := offset + 32;
    var txIndex: uint32 := FromBytes(encoded[offset..offset + 4]);
    offset := offset + 4;
    var logIndex: uint32 := FromBytes(encoded[offset..offset + 4]);
    offset := offset + 4;
    var payloadDigest: Hash := encoded[offset..offset + 32];
    offset := offset + 32;
    var m := Message(version, messageID, origin, nanos, chainID, gateway, blockNumber, blockHash, txHash, txIndex, logIndex, payloadDigest);
    assert m == Decode(encoded);
    EncodingDecode(encoded);
    // No bytes are left over: the origin length fixed the size.
    if !Sealed(library, m) {
      return None;
    }
    return Some(m);
  }

  /** No two valid messages share an encoding. */
  lemma EncodingInjective(library: Library, m: Message, n: Message)
    requires ValidContent(library, m) && ValidContent(library, n) && Encoding(m) == Encoding(n)
    ensures m == n
  {
    hide Encoding;
    DecodeEncoding(m);
    DecodeEncoding(n);
  }
}
