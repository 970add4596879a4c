/** The RTP packet of the streaming path: the 12-byte fixed header of section 5.1 of
    RFC 3550, and a payload that may start with a file name ended by a NUL byte.

    A byte is an integer from 0 to 255, as in a Python `bytearray`. The source's header
    arithmetic is on Python integers; on natural numbers `x >> k` is `x / 2^k`,
    `x & (2^k - 1)` is `x % 2^k`, and `a << k | b` is `a * 2^k + b` when `b < 2^k` (the
    bits do not overlap). Byte 0 is the one place where or-ed fields can overlap, so it
    is computed on bit vectors. */
module Rtp {
  import opened Common

  type Byte = b: int | 0 <= b < 256

  const HEADER_SIZE: nat := 12

  // ---------------------------------------------------------------------------------
  // The fixed header

  /** A number below 16 as an 8-bit vector, counted up one at a time (converting an
      unbounded integer to a bit vector directly is costly for the solver). */
  function Nibble(x: nat): (b: bv8)
    requires x < 16
    ensures b as nat == x
  {
    if x == 0 then 0 else Nibble(x - 1) + 1
  }

  /** The argument ranges `encode` accepts: any larger value makes a header byte exceed
      255, which `bytearray` refuses. */
  predicate Encodable(padding: nat, extension: nat, marker: nat, seqnum: nat, timestamp: nat, ssrc: nat) {
    padding < 8 && extension < 16 && marker < 2
    && seqnum < 0x1_0000 && timestamp < 0x1_0000_0000 && ssrc < 0x1_0000_0000
  }

  /** Byte 0: `(version << 6) & 0xC0` or-ed with `padding << 5`, `extension << 4` and
      `cc & 0x0F`. Padding and extension are not masked to one bit, so larger values
      overlap the bits above them. */
  function Byte0(version: nat, padding: nat, extension: nat, cc: nat): Byte
    requires padding < 8 && extension < 16
  {
    ((Nibble(version % 4) << 6) | (Nibble(padding) << 5) | (Nibble(extension) << 4)
     | Nibble(cc % 16)) as int
  }

  /** Byte 1: `marker << 7` or-ed with `pt & 0x7f`. */
  function Byte1(marker: nat, pt: nat): Byte
    requires marker < 2
  {
    marker * 128 + pt % 128
  }

  /** Bytes 2 and 3: `seqnum >> 8` and `seqnum & 0xFF`. */
  function Bytes16(x: nat): (r: seq<Byte>)
    requires x < 0x1_0000
    ensures |r| == 2
  {
    [x / 0x100, x % 0x100]
  }

  /** The four bytes of a 32-bit value, most significant first:
      `x >> 24`, `(x >> 16) & 0xFF`, `(x >> 8) & 0xFF`, `x & 0xFF`. */
  function Bytes32(x: nat): (r: seq<Byte>)
    requires x < 0x1_0000_0000
    ensures |r| == 4
  {
    [x / 0x100_0000, x / 0x1_0000 % 0x100, x / 0x100 % 0x100, x % 0x100]
  }

  /** The header `encode` writes, byte by byte. */
  function Header(version: nat, padding: nat, extension: nat, cc: nat, seqnum: nat, marker: nat,
                  pt: nat, ssrc: nat, timestamp: nat): (h: seq<Byte>)
    requires Encodable(padding, extension, marker, seqnum, timestamp, ssrc)
    ensures |h| == HEADER_SIZE
  {
    [Byte0(version, padding, extension, cc), Byte1(marker, pt)]
    + Bytes16(seqnum) + Bytes32(timestamp) + Bytes32(ssrc)
  }

  /** `version()`: `header[0] >> 6`, the top two bits of byte 0. */
  function Version(h: seq<Byte>): nat
    requires |h| >= 1
  {
    h[0] / 64
  }

  /** `payloadType()`: `header[1] & 127`, the low seven bits of byte 1. */
  function PayloadType(h: seq<Byte>): nat
    requires |h| >= 2
  {
    h[1] % 128
  }

  /** `seqNum()`: `header[2] << 8 | header[3]`. */
  function SeqNum(h: seq<Byte>): nat
    requires |h| >= 4
  {
    h[2] as int * 0x100 + h[3] as int
  }

  /** `timestamp()`: bytes 4 to 7 shifted into place and or-ed. */
  function Timestamp(h: seq<Byte>): nat
    requires |h| >= 8
  {
    h[4] as int * 0x100_0000 + h[5] as int * 0x1_0000 + h[6] as int * 0x100 + h[7] as int
  }

  // ---------------------------------------------------------------------------------
  // The payload and its file-name prefix

  /** `encode`'s payload: a non-empty file name (its UTF-8 bytes), a NUL, then the video
      data; an empty file name adds nothing. */
  function Framed(filename: seq<Byte>, payload: seq<Byte>): seq<Byte> {
    if |filename| > 0 then filename + [0] + payload else payload
  }

  /** `payload.index(0)`: the position of the first NUL, if there is one. */
  function FirstNul(s: seq<Byte>): (r: Option<nat>)
    ensures r.Some? ==> r.value < |s| && s[r.value] == 0 && forall i | 0 <= i < r.value :: s[i] != 0
    ensures r.None? ==> forall i | 0 <= i < |s| :: s[i] != 0
  {
    if s == [] then None
    else if s[0] == 0 then Some(0)
    else match FirstNul(s[1..])
      case None => None
      case Some(i) => Some(i + 1)
  }

  predicate Continuation(b: Byte) {
    0x80 <= b <= 0xBF
  }

  /** The length of the well-formed UTF-8 character that starts `s`, or 0 if none does:
      the byte sequences of section 4 of RFC 3629, which exclude overlong forms, the
      surrogates and values above U+10FFFF. */
  function CharLength(s: seq<Byte>): (n: nat)
    requires |s| > 0
    ensures n <= |s| && n <= 4
  {
    var b := s[0];
    if b < 0x80 then 1
    else if 0xC2 <= b <= 0xDF then
      if |s| >= 2 && Continuation(s[1]) then 2 else 0
    else if 0xE0 <= b <= 0xEF then
      var lo := if b == 0xE0 then 0xA0 else 0x80;
      var hi := if b == 0xED then 0x9F else 0xBF;
      if |s| >= 3 && lo <= s[1] <= hi && Continuation(s[2]) then 3 else 0
    else if 0xF0 <= b <= 0xF4 then
      var lo := if b == 0xF0 then 0x90 else 0x80;
      var hi := if b == 0xF4 then 0x8F else 0xBF;
      if |s| >= 4 && lo <= s[1] <= hi && Continuation(s[2]) && Continuation(s[3]) then 4 else 0
    else 0
  }

  /** The bytes are well-formed UTF-8: `bytes.decode('utf-8')` does not raise. */
  predicate Utf8(s: seq<Byte>)
    decreases |s|
  {
    s == [] || (CharLength(s) > 0 && Utf8(s[CharLength(s)..]))
  }

  /** What `decode` leaves: the header (the first 12 bytes, or fewer if the packet is
      shorter), the payload, and the file name it returns. */
  datatype Decoded = Decoded(header: seq<Byte>, payload: seq<Byte>, filename: Option<seq<Byte>>)

  /** `decode`: a file name is cut off the payload only when there is a NUL and the bytes
      before it decode as UTF-8; a missing NUL (`ValueError`) or bad UTF-8
      (`UnicodeDecodeError`, also a `ValueError`) leaves the payload whole and the file
      name `None`. */
  function DecodeSpec(stream: seq<Byte>): (d: Decoded)
    ensures |d.header| == if |stream| < HEADER_SIZE then |stream| else HEADER_SIZE
  {
    var h := if |stream| < HEADER_SIZE then stream else stream[..HEADER_SIZE];
    var p := if |stream| < HEADER_SIZE then [] else stream[HEADER_SIZE..];
    match FirstNul(p)
    case None => Decoded(h, p, None)
    case Some(i) => if Utf8(p[..i]) then Decoded(h, p[i + 1..], Some(p[..i])) else Decoded(h, p, None)
  }

  /** `decode` loses no byte: the header, the file name with its NUL, and the payload
      put back together are the stream. */
  lemma DecodeReassembles(stream: seq<Byte>)
    ensures var d := DecodeSpec(stream);
      (d.filename.None? ==> d.header + d.payload == stream)
      && (d.filename.Some? ==> d.header + d.filename.value + [0] + d.payload == stream)
  {
    var h := if |stream| < HEADER_SIZE then stream else stream[..HEADER_SIZE];
    var p := if |stream| < HEADER_SIZE then [] else stream[HEADER_SIZE..];
    assert h + p == stream;
    match FirstNul(p)
    case None =>
    case Some(i) => Rejoin(h, p, i);
  }

  /** Cutting `p` around the NUL at `i` and joining the pieces again gives `p`. */
  lemma Rejoin(h: seq<Byte>, p: seq<Byte>, i: nat)
    requires i < |p| && p[i] == 0
    ensures h + p[..i] + [0] + p[i + 1..] == h + p
  {
    assert p[..i] + [0] + p[i + 1..] == p;
    assert h + p[..i] + [0] + p[i + 1..] == h + (p[..i] + [0] + p[i + 1..]);
  }

  // ---------------------------------------------------------------------------------
  // The packet object

  /** The or-ing of byte 0, field by field: `(version << 6) & 0xC0`, then `padding << 5`,
      `extension << 4` and `cc & 0x0F`. */
  method PackByte0(version: nat, padding: nat, extension: nat, cc: nat) returns (b: Byte)
    requires padding < 8 && extension < 16
    ensures b == Byte0(version, padding, extension, cc)
  {
    var bits: bv8 := Nibble(version % 4) << 6;
    bits := bits | (Nibble(padding) << 5);
    bits := bits | (Nibble(extension) << 4);
    bits := bits | Nibble(cc % 16);
    b := bits as int;
  }

  /** The `bytearray(HEADER_SIZE)` that `encode` fills one byte at a time. */
  method NewHeader(version: nat, padding: nat, extension: nat, cc: nat, seqnum: nat, marker: nat,
                   pt: nat, ssrc: nat, timestamp: nat) returns (h: array<Byte>)
    requires Encodable(padding, extension, marker, seqnum, timestamp, ssrc)
    ensures fresh(h) && h[..] == Header(version, padding, extension, cc, seqnum, marker, pt, ssrc, timestamp)
  {
    h := new Byte[HEADER_SIZE];
    h[0] := PackByte0(version, padding, extension, cc);
    h[1] := marker * 128;
    h[1] := h[1] + pt % 128;
    h[2] := seqnum / 0x100;
    h[3] := seqnum % 0x100;
    PutWord(h, 4, timestamp);
    PutWord(h, 8, ssrc);
    HeaderBytes(h[..], version, padding, extension, cc, seqnum, marker, pt, ssrc, timestamp);
  }

  /** Writes the four bytes of a 32-bit value at `at`, most significant first, as
      `encode` does for the timestamp and the SSRC. */
  method PutWord(h: array<Byte>, at: nat, x: nat)
    requires at + 4 <= h.Length && x < 0x1_0000_0000
    modifies h
    ensures h[at] == x / 0x100_0000 && h[at + 1] == x / 0x1_0000 % 0x100
    ensures h[at + 2] == x / 0x100 % 0x100 && h[at + 3] == x % 0x100
    ensures forall k | 0 <= k < h.Length && !(at <= k < at + 4) :: h[k] == old(h[k])
  {
    h[at] := x / 0x100_0000;
    h[at + 1] := x / 0x1_0000 % 0x100;
    h[at + 2] := x / 0x100 % 0x100;
    h[at + 3] := x % 0x100;
  }

  class RtpPacket {
    var header: seq<Byte>
    var payload: seq<Byte>

    /** A new packet has the class attribute's 12 zero bytes as header; its payload is
        set by `encode` or `decode`, and is empty here before that. */
    constructor()
      ensures header == seq(HEADER_SIZE, _ => 0) && payload == []
    {
      header := seq(HEADER_SIZE, _ => 0);
      payload := [];
    }

    /** `encode`: the header is filled byte by byte into a fresh 12-byte buffer, and the
        file name, when there is one, is put in front of the payload. The clock reading
        `int(time())` is the `timestamp` parameter. */
    method Encode(version: nat, padding: nat, extension: nat, cc: nat, seqnum: nat, marker: nat,
                  pt: nat, ssrc: nat, data: seq<Byte>, filename: seq<Byte>, timestamp: nat)
      requires Encodable(padding, extension, marker, seqnum, timestamp, ssrc)
      modifies this
      ensures header == Header(version, padding, extension, cc, seqnum, marker, pt, ssrc, timestamp)
      ensures payload == Framed(filename, data)
    {
      var h := NewHeader(version, padding, extension, cc, seqnum, marker, pt, ssrc, timestamp);
      header := h[..];
      if |filename| > 0 {
        payload := filename + [0] + data;
      } else {
        payload := data;
      }
    }

    /** `decode`: split off the header, then look for the first NUL of the payload; the
        bytes before it, when they are UTF-8, are the file name and are cut off together
        with the NUL. */
    method Decode(stream: seq<Byte>) returns (filename: Option<seq<Byte>>)
      modifies this
      ensures Decoded(header, payload, filename) == DecodeSpec(stream)
    {
      if |stream| < HEADER_SIZE {
        header := stream;
        payload := [];
      } else {
        header := stream[..HEADER_SIZE];
        payload := stream[HEADER_SIZE..];
      }
      filename := None;
      var idx := FirstNul(payload);
      if idx.Some? && Utf8(payload[..idx.value]) {
        filename := Some(payload[..idx.value]);
        payload := payload[idx.value + 1..];
      }
    }

    /** `getPacket`: header then payload. */
    function Packet(): (p: seq<Byte>)
      reads this
      ensures |p| == |header| + |payload| && p[..|header|] == header && p[|header|..] == payload
    {
      header + payload
    }
  }

  /** Twelve bytes equal the header when each equals the value `encode` computes for it. */
  lemma HeaderBytes(h: seq<Byte>, version: nat, padding: nat, extension: nat, cc: nat,
                    seqnum: nat, marker: nat, pt: nat, ssrc: nat, timestamp: nat)
    requires Encodable(padding, extension, marker, seqnum, timestamp, ssrc) && |h| == HEADER_SIZE
    requires h[0] == Byte0(version, padding, extension, cc) && h[1] == Byte1(marker, pt)
    requires h[2] == seqnum / 0x100 && h[3] == seqnum % 0x100
    requires h[4] == timestamp / 0x100_0000 && h[5] == timestamp / 0x1_0000 % 0x100
    requires h[6] == timestamp / 0x100 % 0x100 && h[7] == timestamp % 0x100
    requires h[8] == ssrc / 0x100_0000 && h[9] == ssrc / 0x1_0000 % 0x100
    requires h[10] == ssrc / 0x100 % 0x100 && h[11] == ssrc % 0x100
    ensures h == Header(version, padding, extension, cc, seqnum, marker, pt, ssrc, timestamp)
  {
    assert h == [h[0], h[1]] + h[2..4] + h[4..8] + h[8..];
  }

  // ---------------------------------------------------------------------------------
  // Round trips

  /** The accessors read back what `encode` wrote when each field fits its width. The
      version needs padding below 2 and extension below 4, since those are or-ed in
      without a mask and reach the version bits otherwise. */
  lemma HeaderFields(version: nat, padding: nat, extension: nat, cc: nat, seqnum: nat, marker: nat,
                     pt: nat, ssrc: nat, timestamp: nat)
    requires Encodable(padding, extension, marker, seqnum, timestamp, ssrc)
    requires version < 4 && pt < 128 && padding < 2 && extension < 4
    ensures var h := Header(version, padding, extension, cc, seqnum, marker, pt, ssrc, timestamp);
      && Version(h) == version && PayloadType(h) == pt
      && SeqNum(h) == seqnum && Timestamp(h) == timestamp
  {
    var h := Header(version, padding, extension, cc, seqnum, marker, pt, ssrc, timestamp);
    assert h[0] == Byte0(version, padding, extension, cc);
    Byte0Top(version, padding, extension, cc);
    assert h[1] == Byte1(marker, pt);
    assert h[2..4] == Bytes16(seqnum);
    assert h[4..8] == Bytes32(timestamp);
    Bytes32Value(timestamp);
  }

  /** With padding below 2 and extension below 4, the top two bits of byte 0 are the
      version's low two bits. */
  lemma Byte0Top(version: nat, padding: nat, extension: nat, cc: nat)
    requires padding < 2 && extension < 4
    ensures Byte0(version, padding, extension, cc) / 64 == version % 4
  {
    Byte0Version(Nibble(version % 4), Nibble(padding), Nibble(extension), Nibble(cc % 16));
  }

  /** The marker is the top bit of byte 1, the payload type its low seven bits. */
  lemma Byte1Fields(marker: nat, pt: nat)
    requires marker < 2
    ensures Byte1(marker, pt) / 128 == marker
    ensures Byte1(marker, pt) % 128 == pt % 128
  {
  }

  lemma Byte0Version(v: bv8, p: bv8, e: bv8, c: bv8)
    requires v as nat < 4 && p as nat < 2 && e as nat < 4 && c as nat < 16
    ensures ((v << 6) | (p << 5) | (e << 4) | c) as nat / 64 == v as nat
  {
  }

  /** With one-bit padding and extension, byte 0 is the sum of the shifted fields: no two
      fields share a bit. */
  lemma Byte0Value(version: nat, padding: nat, extension: nat, cc: nat)
    requires padding < 2 && extension < 2
    ensures Byte0(version, padding, extension, cc)
      == version % 4 * 64 + padding * 32 + extension * 16 + cc % 16
  {
    var v, p, e, c := Nibble(version % 4), Nibble(padding), Nibble(extension), Nibble(cc % 16);
    assert Byte0(version, padding, extension, cc) == ((v << 6) | (p << 5) | (e << 4) | c) as int;
    Byte0Sum(v, p, e, c);
  }

  lemma Byte0Sum(v: bv8, p: bv8, e: bv8, c: bv8)
    requires v as nat < 4 && p as nat < 2 && e as nat < 2 && c as nat < 16
    ensures ((v << 6) | (p << 5) | (e << 4) | c) as nat
      == v as nat * 64 + p as nat * 32 + e as nat * 16 + c as nat
  {
  }

  /** A padding of 4 or more sets the top bit of byte 0, so the version read back is at
      least 2 whatever version was passed. */
  lemma PaddingSpill(version: nat, padding: nat, extension: nat, cc: nat)
    requires 4 <= padding < 8 && extension < 16
    ensures Byte0(version, padding, extension, cc) / 64 >= 2
  {
    TopBitSet(Nibble(version % 4), Nibble(padding), Nibble(extension), Nibble(cc % 16));
  }

  lemma TopBitSet(v: bv8, p: bv8, e: bv8, c: bv8)
    requires 4 <= p as nat < 8
    ensures ((v << 6) | (p << 5) | (e << 4) | c) as nat >= 128
  {
  }

  /** The four bytes of a 32-bit value, weighted by their place, add up to it. */
  lemma Bytes32Value(x: nat)
    requires x < 0x1_0000_0000
    ensures var b := Bytes32(x);
      b[0] as int * 0x100_0000 + b[1] as int * 0x1_0000 + b[2] as int * 0x100 + b[3] as int == x
  {
    var q1, q2, q3 := x / 0x100, x / 0x1_0000, x / 0x100_0000;
    assert q2 == q1 / 0x100;
    assert q3 == q2 / 0x100;
  }

  /** A file name that is UTF-8 without NUL bytes comes back out of the packet `encode`
      builds, and the payload with it. */
  lemma FilenameRoundTrip(h: seq<Byte>, filename: seq<Byte>, data: seq<Byte>)
    requires |h| == HEADER_SIZE && |filename| > 0 && Utf8(filename)
    requires forall i | 0 <= i < |filename| :: filename[i] != 0
    ensures DecodeSpec(h + Framed(filename, data)) == Decoded(h, data, Some(filename))
  {
    var s := h + Framed(filename, data);
    var p := filename + [0] + data;
    assert s == h + p;
    FirstNulAt(p, |filename|);
    assert p[..|filename|] == filename;
    assert p[|filename| + 1..] == data;
    PacketDecode(h, p);
  }

  /** `decode` of a full header followed by a payload works on that payload. */
  lemma PacketDecode(h: seq<Byte>, p: seq<Byte>)
    requires |h| == HEADER_SIZE
    ensures DecodeSpec(h + p) == match FirstNul(p)
      case None => Decoded(h, p, None)
      case Some(i) =>
        if Utf8(p[..i]) then Decoded(h, p[i + 1..], Some(p[..i])) else Decoded(h, p, None)
  {
    assert (h + p)[..HEADER_SIZE] == h;
    assert (h + p)[HEADER_SIZE..] == p;
  }

  /** Without a file name, `decode` cuts the raw payload at its first NUL when the bytes
      before it are UTF-8, and otherwise leaves it whole. */
  lemma NoFilenameDecode(h: seq<Byte>, data: seq<Byte>)
    requires |h| == HEADER_SIZE
    ensures var d := DecodeSpec(h + Framed([], data));
      && d.header == h
      && (match FirstNul(data)
          case Some(i) =>
            if Utf8(data[..i]) then d.payload == data[i + 1..] && d.filename == Some(data[..i])
            else d.payload == data && d.filename == None
          case None => d.payload == data && d.filename == None)
  {
    PacketDecode(h, data);
  }

  /** `FirstNul` finds a NUL that no earlier byte is. */
  lemma {:induction false} FirstNulAt(s: seq<Byte>, i: nat)
    requires i < |s| && s[i] == 0 && forall j | 0 <= j < i :: s[j] != 0
    ensures FirstNul(s) == Some(i)
    decreases i
  {
    if i > 0 {
      FirstNulAt(s[1..], i - 1);
    }
  }

  /** ASCII text is UTF-8, one byte per character. */
  lemma {:induction false} AsciiUtf8(s: seq<Byte>)
    requires forall i | 0 <= i < |s| :: s[i] < 0x80
    ensures Utf8(s)
    decreases |s|
  {
    if s != [] {
      AsciiUtf8(s[1..]);
    }
  }
}
