/**
 * The CT002 binary frame codec of ct002/ct002.py:
 *
 *   SOH STX <decimal length> '|' field '|' field ... ETX <2 hex digits>
 *
 * The length counts every byte of the frame, itself included; the trailer
 * is the XOR of every byte before it, in lowercase hex.
 */
module Ct002Codec {
  import opened Base
  import opened Text
  import opened Power

  newtype byte = x: int | 0 <= x < 256

  const SOH: byte := 0x01
  const STX: byte := 0x02
  const ETX: byte := 0x03
  const PIPE: byte := 0x7C
  const SPACE: byte := 0x20

  /** Below this many bytes a datagram is "too short". */
  const MIN_FRAME_LEN: nat := 10

  /** The number of labels in RESPONSE_LABELS. */
  const RESPONSE_FIELD_COUNT: nat := 24

  // ---------------------------------------------------------------------
  // ASCII

  predicate AllAscii(fields: seq<string>)
  {
    forall i :: 0 <= i < |fields| ==> IsAscii(fields[i])
  }

  predicate NoPipe(fields: seq<string>)
  {
    forall i :: 0 <= i < |fields| ==> '|' !in fields[i]
  }

  /** `s.encode('ascii')`. */
  function Encode(s: string): (b: seq<byte>)
    requires IsAscii(s)
    ensures |b| == |s| && forall i :: 0 <= i < |s| ==> b[i] as int == s[i] as int
  {
    seq(|s|, i requires 0 <= i < |s| => s[i] as int as byte)
  }

  /** `b.decode('ascii')`: fails on any byte of 128 or more. */
  function Decode(b: seq<byte>): (r: Option<string>)
    ensures r.Some? <==> forall i :: 0 <= i < |b| ==> b[i] < 128
    ensures r.Some? ==> IsAscii(r.value) && |r.value| == |b|
    ensures r.Some? ==> forall i :: 0 <= i < |b| ==> r.value[i] as int == b[i] as int
  {
    if forall i :: 0 <= i < |b| ==> b[i] < 128 then
      Some(seq(|b|, i requires 0 <= i < |b| => b[i] as int as char))
    else
      None
  }

  lemma DecodeEncode(s: string)
    requires IsAscii(s)
    ensures Decode(Encode(s)) == Some(s)
  {
    var r := Decode(Encode(s));
    assert r.Some?;
    assert forall i :: 0 <= i < |s| ==> r.value[i] as int == s[i] as int;
    assert forall i :: 0 <= i < |s| ==> r.value[i] == s[i];
    assert r.value == s;
  }

  lemma EncodeAppend(a: string, b: string)
    requires IsAscii(a) && IsAscii(b)
    ensures IsAscii(a + b) && Encode(a + b) == Encode(a) + Encode(b)
  {
    assert IsAscii(a + b) by {
      forall i | 0 <= i < |a + b| ensures (a + b)[i] as int < 128 {
        if i >= |a| { assert (a + b)[i] == b[i - |a|]; }
      }
    }
  }

  // ---------------------------------------------------------------------
  // XOR checksum

  /** Bit `p` (a power of two) of `a ^ b`. */
  function XorBit(a: byte, b: byte, p: nat): (r: nat)
    requires p > 0
    ensures r < 2
  {
    (a as int / p + b as int / p) % 2
  }

  /** `a ^ b` on bytes, bit by bit. */
  function Xor(a: byte, b: byte): byte
  {
    (XorBit(a, b, 1) + 2 * XorBit(a, b, 2) + 4 * XorBit(a, b, 4)
     + 8 * XorBit(a, b, 8) + 16 * XorBit(a, b, 16) + 32 * XorBit(a, b, 32)
     + 64 * XorBit(a, b, 64) + 128 * XorBit(a, b, 128)) as byte
  }

  /** The XOR of all bytes of `s`, folded from the left starting at 0. */
  function XorAll(s: seq<byte>): byte
    decreases |s|
  {
    if s == [] then 0 else Xor(XorAll(s[..|s| - 1]), s[|s| - 1])
  }

  /** `calculate_checksum` and the inline loop of `parse_ct002_request`. */
  method CalculateChecksum(data: seq<byte>) returns (x: byte)
    ensures x == XorAll(data)
  {
    x := 0;
    for i := 0 to |data|
      invariant x == XorAll(data[..i])
    {
      assert data[..i + 1][..i] == data[..i];
      x := Xor(x, data[i]);
    }
    assert data[..|data|] == data;
  }

  // ---------------------------------------------------------------------
  // hex trailer

  /** One lowercase hex digit, as `f"{x:x}"` writes it. */
  function HexDigit(n: int): (b: byte)
    requires 0 <= n < 16
  {
    if n < 10 then (48 + n) as byte else (87 + n) as byte
  }

  /** `f"{x:02x}".encode('ascii')`. */
  function Hex2(x: byte): (h: seq<byte>)
    ensures |h| == 2
  {
    [HexDigit(x as int / 16), HexDigit(x as int % 16)]
  }

  /** The value of one hex digit in either case, as `int(c, 16)` reads it. */
  function HexValue(c: byte): Option<nat>
  {
    if 48 <= c <= 57 then Some(c as int - 48)
    else if 97 <= c <= 102 then Some(c as int - 87)
    else if 65 <= c <= 70 then Some(c as int - 55)
    else None
  }

  /** The byte two hex digits spell, either case. */
  function ParseHex2(t: seq<byte>): (r: Option<byte>)
    requires |t| == 2
  {
    match (HexValue(t[0]), HexValue(t[1]))
    case (Some(hi), Some(lo)) => Some((16 * hi + lo) as byte)
    case _ => None
  }

  function LowerByte(b: byte): byte
  {
    if 65 <= b <= 90 then b + 32 else b
  }

  /** `bytes.lower()`. */
  function LowerBytes(t: seq<byte>): (r: seq<byte>)
    ensures |r| == |t| && forall i :: 0 <= i < |t| ==> r[i] == LowerByte(t[i])
  {
    seq(|t|, i requires 0 <= i < |t| => LowerByte(t[i]))
  }

  /**
   * The trailer test of `parse_ct002_request`: the trailer, lowercased,
   * is the expected hex pair; or it is a space followed by exactly the
   * expected low digit.
   */
  predicate TrailerAccepted(trailer: seq<byte>, x: byte)
    requires |trailer| == 2
  {
    var expected := Hex2(x);
    LowerBytes(trailer) == expected || (trailer[0] == SPACE && trailer[1] == expected[1])
  }

  /**
   * The first way a trailer is accepted says exactly that it spells the
   * checksum in hex, upper or lower case.
   */
  lemma LowerTrailerIsHexValue(t: seq<byte>, x: byte)
    requires |t| == 2
    ensures LowerBytes(t) == Hex2(x) <==> ParseHex2(t) == Some(x)
  {
    var h := Hex2(x);
    if LowerBytes(t) == h {
      assert LowerByte(t[0]) == h[0] && LowerByte(t[1]) == h[1];
      assert HexValue(t[0]) == Some(x as int / 16);
      assert HexValue(t[1]) == Some(x as int % 16);
    }
    if ParseHex2(t) == Some(x) {
      var hi, lo := HexValue(t[0]).value, HexValue(t[1]).value;
      assert x as int == 16 * hi + lo;
      assert hi == x as int / 16 && lo == x as int % 16;
      assert LowerBytes(t) == [LowerByte(t[0]), LowerByte(t[1])];
    }
  }

  /** The lowercase hex pair of the checksum is always accepted. */
  lemma HexTrailerAccepted(x: byte)
    ensures LowerBytes(Hex2(x)) == Hex2(x) && TrailerAccepted(Hex2(x), x)
  {
    var h := Hex2(x);
    assert LowerBytes(h) == [LowerByte(h[0]), LowerByte(h[1])];
  }

  /**
   * The space quirk applies to every checksum value, not only to those
   * below 16: a space followed by the low digit is accepted.
   */
  lemma SpacePaddedTrailerAccepted(x: byte)
    ensures TrailerAccepted([SPACE, Hex2(x)[1]], x)
  {
  }

  /** For checksum 0x03 both "03" and " 3" pass; " 3" spells nothing in hex. */
  lemma ChecksumThreeExamples()
    ensures TrailerAccepted([48, 51], 0x03)
    ensures TrailerAccepted([SPACE, 51], 0x03)
    ensures ParseHex2([SPACE, 51]).None?
    ensures !TrailerAccepted([48, 52], 0x03)
  {
    HexTrailerAccepted(0x03);
    assert LowerBytes([48, 52]) == [48, 52];
  }

  /** The low digit after a space is compared case-sensitively. */
  lemma SpacePaddedIsCaseSensitive()
    ensures TrailerAccepted([SPACE, 102], 0x0f)
    ensures TrailerAccepted([48, 70], 0x0f)
    ensures !TrailerAccepted([SPACE, 70], 0x0f)
  {
    assert LowerBytes([48, 70]) == [48, 102];
    assert LowerBytes([SPACE, 70]) == [SPACE, 102];
  }

  // ---------------------------------------------------------------------
  // parsing

  datatype FrameError =
    | TooShort
    | MissingSohStx
    | NoSeparator
    | InvalidLength
    | LengthMismatch(declared: nat, actual: nat)
    | MissingEtx
    | ChecksumMismatch(wanted: seq<byte>, received: seq<byte>)
    | InvalidAscii

  /** `data.find(b, from)`, as an option. */
  function FindByte(data: seq<byte>, b: byte, from: nat): (r: Option<nat>)
    ensures r.Some? ==> from <= r.value < |data| && data[r.value] == b
    ensures r.Some? ==> forall k :: from <= k < r.value ==> data[k] != b
    ensures r.None? ==> forall k :: from <= k < |data| ==> data[k] != b
    decreases |data| - from
  {
    if from >= |data| then None
    else if data[from] == b then Some(from)
    else FindByte(data, b, from + 1)
  }

  /** `int(raw.decode('ascii'))` restricted to plain digits. */
  function LengthField(raw: seq<byte>): Option<nat>
  {
    match Decode(raw)
    case None => None
    case Some(text) => ParseNat(text)
  }

  /**
   * `parse_ct002_request`: the checks in the source's order, each failure
   * yielding its error and no fields.
   */
  function ParseFrame(data: seq<byte>): (r: Result<seq<string>, FrameError>)
    ensures r.Ok? ==> AllAscii(r.value) && NoPipe(r.value)
  {
    if |data| < MIN_FRAME_LEN then Err(TooShort)
    else if data[0] != SOH || data[1] != STX then Err(MissingSohStx)
    else
      match FindByte(data, PIPE, 2)
      case None => Err(NoSeparator)
      case Some(sep) =>
        match LengthField(data[2..sep])
        case None => Err(InvalidLength)
        case Some(length) =>
          if |data| != length then Err(LengthMismatch(length, |data|))
          else if data[|data| - 3] != ETX then Err(MissingEtx)
          else if !TrailerAccepted(data[|data| - 2..], XorAll(data[..length - 2])) then
            Err(ChecksumMismatch(Hex2(XorAll(data[..length - 2])), data[|data| - 2..]))
          else
            match Decode(data[4..|data| - 3])
            case None => Err(InvalidAscii)
            case Some(message) =>
              SplitAscii(message, '|');
              Ok(Split(message, '|')[1..])
  }

  /** What an accepted frame is known to satisfy. */
  lemma ParseFrameAccepts(data: seq<byte>)
    requires ParseFrame(data).Ok?
    ensures |data| >= MIN_FRAME_LEN && data[0] == SOH && data[1] == STX
    ensures data[|data| - 3] == ETX
    ensures TrailerAccepted(data[|data| - 2..], XorAll(data[..|data| - 2]))
    ensures exists sep :: 2 <= sep < |data| && data[sep] == PIPE && LengthField(data[2..sep]) == Some(|data|)
    ensures Decode(data[4..|data| - 3]).Some?
    ensures ParseFrame(data).value == Split(Decode(data[4..|data| - 3]).value, '|')[1..]
  {
    assert FindByte(data, PIPE, 2).Some?;
    var sep := FindByte(data, PIPE, 2).value;
    assert LengthField(data[2..sep]) == Some(|data|);
    assert data[..|data| - 2] == data[..LengthField(data[2..sep]).value - 2];
    assert 2 <= sep < |data| && data[sep] == PIPE;
  }

  /**
   * The checks run in a fixed order: each error is reported exactly when
   * the earlier checks pass and its own fails (the last two are in
   * `LateRejections`).
   */
  lemma RejectionOrder(data: seq<byte>)
    ensures ParseFrame(data) == Err(TooShort) <==> |data| < MIN_FRAME_LEN
    ensures ParseFrame(data) == Err(MissingSohStx) <==> |data| >= MIN_FRAME_LEN && (data[0] != SOH || data[1] != STX)
    ensures ParseFrame(data) == Err(NoSeparator) <==>
      && |data| >= MIN_FRAME_LEN && data[0] == SOH && data[1] == STX
      && forall k :: 2 <= k < |data| ==> data[k] != PIPE
    ensures ParseFrame(data) == Err(InvalidLength) <==>
      && |data| >= MIN_FRAME_LEN && data[0] == SOH && data[1] == STX && FindByte(data, PIPE, 2).Some?
      && LengthField(data[2..FindByte(data, PIPE, 2).value]).None?
    ensures ParseFrame(data).Err? && ParseFrame(data).error.LengthMismatch? <==>
      && |data| >= MIN_FRAME_LEN && data[0] == SOH && data[1] == STX && FindByte(data, PIPE, 2).Some?
      && LengthField(data[2..FindByte(data, PIPE, 2).value]).Some?
      && LengthField(data[2..FindByte(data, PIPE, 2).value]).value != |data|
    ensures ParseFrame(data).Err? && ParseFrame(data).error.LengthMismatch? ==>
      && ParseFrame(data).error.actual == |data|
      && ParseFrame(data).error.declared == LengthField(data[2..FindByte(data, PIPE, 2).value]).value
    ensures ParseFrame(data) == Err(MissingEtx) <==>
      && |data| >= MIN_FRAME_LEN && data[0] == SOH && data[1] == STX && FindByte(data, PIPE, 2).Some?
      && LengthField(data[2..FindByte(data, PIPE, 2).value]) == Some(|data|)
      && data[|data| - 3] != ETX
  {
    if |data| >= MIN_FRAME_LEN && data[0] == SOH && data[1] == STX {
      match FindByte(data, PIPE, 2)
      case None =>
      case Some(sep) =>
        assert data[sep] == PIPE;
    }
  }

  /**
   * The last two checks, in the same order: a frame whose head, separator,
   * length and ETX pass is refused for its checksum, and then for non-ASCII
   * bytes, exactly when that check fails.
   */
  lemma LateRejections(data: seq<byte>)
    ensures ParseFrame(data).Err? && ParseFrame(data).error.ChecksumMismatch? <==>
      && |data| >= MIN_FRAME_LEN && data[0] == SOH && data[1] == STX && FindByte(data, PIPE, 2).Some?
      && LengthField(data[2..FindByte(data, PIPE, 2).value]) == Some(|data|)
      && data[|data| - 3] == ETX
      && !TrailerAccepted(data[|data| - 2..], XorAll(data[..|data| - 2]))
    ensures ParseFrame(data) == Err(InvalidAscii) <==>
      && |data| >= MIN_FRAME_LEN && data[0] == SOH && data[1] == STX && FindByte(data, PIPE, 2).Some?
      && LengthField(data[2..FindByte(data, PIPE, 2).value]) == Some(|data|)
      && data[|data| - 3] == ETX
      && TrailerAccepted(data[|data| - 2..], XorAll(data[..|data| - 2]))
      && Decode(data[4..|data| - 3]).None?
  {
    if |data| >= MIN_FRAME_LEN && data[0] == SOH && data[1] == STX && FindByte(data, PIPE, 2).Some? {
      var sep := FindByte(data, PIPE, 2).value;
      if LengthField(data[2..sep]) == Some(|data|) && data[|data| - 3] == ETX {
        assert data[..|data| - 2] == data[..LengthField(data[2..sep]).value - 2];
      }
    }
  }

  /** `parse_ct002_request` with its checksum loop. */
  method ParseRequest(data: seq<byte>) returns (r: Result<seq<string>, FrameError>)
    ensures r == ParseFrame(data)
  {
    if |data| < MIN_FRAME_LEN {
      return Err(TooShort);
    }
    if data[0] != SOH || data[1] != STX {
      return Err(MissingSohStx);
    }
    var sepIndex := FindByte(data, PIPE, 2);
    if sepIndex.None? {
      return Err(NoSeparator);
    }
    var length := LengthField(data[2..sepIndex.value]);
    if length.None? {
      return Err(InvalidLength);
    }
    if |data| != length.value {
      return Err(LengthMismatch(length.value, |data|));
    }
    if data[|data| - 3] != ETX {
      return Err(MissingEtx);
    }
    var xor := CalculateChecksum(data[..length.value - 2]);
    var actual := data[|data| - 2..];
    if !TrailerAccepted(actual, xor) {
      return Err(ChecksumMismatch(Hex2(xor), actual));
    }
    var message := Decode(data[4..|data| - 3]);
    if message.None? {
      return Err(InvalidAscii);
    }
    SplitAscii(message.value, '|');
    r := Ok(Split(message.value, '|')[1..]);
  }

  // ---------------------------------------------------------------------
  // building

  /**
   * The 24 response fields: the request's first two fields, the emulator's
   * CT type and MAC, the three phase powers and their sum, then 16 zeros.
   */
  function ResponseFields(request: seq<string>, ctType: string, ctMac: string, values: seq<int>): seq<string>
    requires |request| >= 2 && |values| >= 3
  {
    [request[0], request[1], ctType, ctMac,
     IntToString(values[0]), IntToString(values[1]), IntToString(values[2]),
     IntToString(Sum(values))]
    + seq(RESPONSE_FIELD_COUNT - 8, _ => "0")
  }

  /** `values = self.value if self.value else [0, 0, 0]`. */
  function ValuesOrZero(slot: Option<seq<int>>): (v: seq<int>)
    ensures slot.Some? && slot.value != [] ==> v == slot.value
    ensures slot.None? || slot.value == [] ==> v == [0, 0, 0]
  {
    if slot.None? || slot.value == [] then [0, 0, 0] else slot.value
  }

  /** The layout of the response fields, position by position. */
  lemma ResponseLayout(request: seq<string>, ctType: string, ctMac: string, values: seq<int>)
    requires |request| >= 2 && |values| >= 3
    ensures var r := ResponseFields(request, ctType, ctMac, values);
      && |r| == RESPONSE_FIELD_COUNT
      && r[0] == request[0] && r[1] == request[1] && r[2] == ctType && r[3] == ctMac
      && (forall i :: 4 <= i < 7 ==> ParseInt(r[i]) == Some(values[i - 4]))
      && ParseInt(r[7]) == Some(Sum(values))
      && (forall i :: 8 <= i < RESPONSE_FIELD_COUNT ==> r[i] == "0")
  {
    ParseIntToString(values[0]);
    ParseIntToString(values[1]);
    ParseIntToString(values[2]);
    ParseIntToString(Sum(values));
  }

  /** `SEPARATOR + SEPARATOR.join(fields)`. */
  function Body(fields: seq<string>): string
  {
    "|" + Join(fields, '|')
  }

  /** `1 + 1 + len(message_bytes) + 1 + 2`. */
  function BaseSize(bodyLength: nat): nat
  {
    bodyLength + 5
  }

  /** `len(str(base + d)) == d`: the length text of `base + d` has `d` digits. */
  predicate Fits(base: nat, d: nat)
  {
    |NatToString(base + d)| == d
  }

  /**
   * The digit-count search from `d` on: the first count that fits, or 4
   * when none up to 4 does.
   */
  function SearchDigits(base: nat, d: nat): (r: nat)
    requires 1 <= d <= 4
    ensures d <= r <= 4
    ensures forall k :: d <= k < r ==> !Fits(base, k)
    ensures r < 4 ==> Fits(base, r)
    decreases 4 - d
  {
    if Fits(base, d) || d == 4 then d else SearchDigits(base, d + 1)
  }

  /**
   * The `length_digits` the search of `build_ct002_response` ends on: the
   * first count from 1 that fits, or 4 when none does.
   */
  function LengthDigits(base: nat): (d: nat)
    ensures 1 <= d <= 4
    ensures forall k :: 1 <= k < d ==> !Fits(base, k)
    ensures d < 4 ==> Fits(base, d)
  {
    SearchDigits(base, 1)
  }

  /** Where two counts fit, the search keeps the smaller one. */
  lemma LengthDigitsExamples()
    ensures Fits(97, 2) && Fits(97, 3) && LengthDigits(97) == 2
    ensures Fits(8, 1) && Fits(8, 2) && LengthDigits(8) == 1
  {
    DigitCount(99);
    DigitCount(100);
    DigitCount(9);
    DigitCount(10);
  }

  /** Below 9996 the search always finds a self-consistent digit count. */
  lemma LengthDigitsFit(base: nat)
    requires base <= 9995
    ensures |NatToString(base + LengthDigits(base))| == LengthDigits(base)
    ensures base >= 9 ==> LengthDigits(base) >= 2
  {
    DigitCount(base + 1);
    DigitCount(base + 2);
    DigitCount(base + 3);
    DigitCount(base + 4);
  }

  /**
   * From 9996 on no width up to 4 fits: the search keeps 4 while the
   * length text has 5 digits.
   */
  lemma LengthDigitsOverflow(base: nat)
    requires base >= 9996
    ensures LengthDigits(base) == 4
    ensures |NatToString(base + 4)| == 5 || |NatToString(base + 4)| > 5
  {
    DigitCount(base + 1);
    DigitCount(base + 2);
    DigitCount(base + 3);
    DigitCount(base + 4);
  }

  /** The frame without its trailer: `SOH STX <length> body ETX`. */
  function Payload(fields: seq<string>): seq<byte>
    requires AllAscii(fields)
  {
    JoinAscii(fields, '|');
    EncodeAppend("|", Join(fields, '|'));
    var body := Encode(Body(fields));
    var base := BaseSize(|body|);
    [SOH, STX] + Encode(NatToString(base + LengthDigits(base))) + body + [ETX]
  }

  /** The bytes `build_ct002_response` returns for these fields. */
  function Frame(fields: seq<string>): seq<byte>
    requires AllAscii(fields)
  {
    Payload(fields) + Hex2(XorAll(Payload(fields)))
  }

  /** The digit-count loop of `build_ct002_response`. */
  method FindTotalLength(base: nat) returns (total: nat)
    ensures total == base + LengthDigits(base)
  {
    var d := 1;
    while true
      invariant 1 <= d <= 4
      invariant SearchDigits(base, d) == LengthDigits(base)
      decreases 4 - d
    {
      if |NatToString(base + d)| == d || d == 4 {
        break;
      }
      d := d + 1;
    }
    total := base + d;
  }

  /** Assembling the frame: the `bytearray` appends and the checksum. */
  method AssembleFrame(fields: seq<string>) returns (frame: seq<byte>)
    requires AllAscii(fields)
    ensures frame == Frame(fields)
  {
    JoinAscii(fields, '|');
    EncodeAppend("|", Join(fields, '|'));
    var body := Encode(Body(fields));
    var total := FindTotalLength(BaseSize(|body|));
    var payload := [SOH, STX] + Encode(NatToString(total)) + body + [ETX];
    var checksum := CalculateChecksum(payload);
    frame := payload + Hex2(checksum);
  }

  /** The declared length equals the frame's size while the frame is under 10000 bytes. */
  lemma FrameLength(fields: seq<string>)
    requires AllAscii(fields)
    requires BaseSize(|Body(fields)|) <= 9995
    ensures |Frame(fields)| == BaseSize(|Body(fields)|) + LengthDigits(BaseSize(|Body(fields)|))
  {
    LengthDigitsFit(BaseSize(|Body(fields)|));
  }

  /**
   * From 9996 bytes of base size on, the declared length is one less than
   * the frame's size, so the source's own parser refuses its output.
   */
  lemma FrameLengthOverflow(fields: seq<string>)
    requires AllAscii(fields)
    requires BaseSize(|Body(fields)|) >= 9996
    ensures |Frame(fields)| > BaseSize(|Body(fields)|) + LengthDigits(BaseSize(|Body(fields)|))
  {
    LengthDigitsOverflow(BaseSize(|Body(fields)|));
  }

  /** The first pipe of a frame sits right after its length digits. */
  lemma {:induction false} SeparatorAfterDigits(digitsText: string, body: seq<byte>, rest: seq<byte>)
    requires AllDigits(digitsText) && IsAscii(digitsText)
    requires |body| > 0 && body[0] == PIPE
    ensures FindByte([SOH, STX] + Encode(digitsText) + body + rest, PIPE, 2) == Some(2 + |digitsText|)
  {
    var digits := Encode(digitsText);
    var data := [SOH, STX] + digits + body + rest;
    assert data[2 + |digits|] == PIPE;
    forall k | 2 <= k < 2 + |digits|
      ensures data[k] != PIPE
    {
      assert data[k] == digits[k - 2];
      assert IsDigit(digitsText[k - 2]);
    }
  }

  /** The text between the second length digit and ETX, split on pipes. */
  lemma {:induction false} FieldsAfterDigits(lead: string, fields: seq<string>)
    requires |fields| >= 1 && AllAscii(fields) && NoPipe(fields)
    requires AllDigits(lead) && IsAscii(lead)
    ensures IsAscii(Body(fields))
    ensures var message := lead + Body(fields);
      IsAscii(message) && Decode(Encode(message)) == Some(message)
      && Split(message, '|')[1..] == fields
  {
    JoinAscii(fields, '|');
    var bodyText := Body(fields);
    var message := lead + bodyText;
    assert IsAscii(bodyText) by {
      forall k | 0 <= k < |bodyText| ensures bodyText[k] as int < 128 {
        if k > 0 { assert bodyText[k] == Join(fields, '|')[k - 1]; }
      }
    }
    EncodeAppend(lead, bodyText);
    DecodeEncode(message);
    assert '|' !in lead by {
      forall k | 0 <= k < |lead| ensures lead[k] != '|' {
        assert IsDigit(lead[k]);
      }
    }
    assert message == lead + ['|'] + Join(fields, '|');
    SplitAfterField(lead, '|', Join(fields, '|'));
    SplitJoin(fields, '|');
  }

  /** The pieces of a payload, as `build_ct002_response` appends them. */
  lemma PayloadPieces(fields: seq<string>)
    requires |fields| >= 4 && AllAscii(fields)
    requires BaseSize(|Body(fields)|) <= 9995
    ensures IsAscii(Body(fields))
    ensures var total := BaseSize(|Body(fields)|) + LengthDigits(BaseSize(|Body(fields)|));
      var digitsText := NatToString(total);
      && IsAscii(digitsText) && |digitsText| >= 2
      && Payload(fields) == [SOH, STX] + Encode(digitsText) + Encode(Body(fields)) + [ETX]
      && |Payload(fields)| + 2 == total
  {
    JoinAscii(fields, '|');
    EncodeAppend("|", Join(fields, '|'));
    JoinLength(fields, '|');
    var base := BaseSize(|Body(fields)|);
    LengthDigitsFit(base);
    DigitCount(base + LengthDigits(base));
    var digitsText := NatToString(base + LengthDigits(base));
    assert IsAscii(digitsText) by {
      forall k | 0 <= k < |digitsText| ensures digitsText[k] as int < 128 {
        assert IsDigit(digitsText[k]);
      }
    }
  }

  /** How `parse_ct002_request` ends on a frame that passes its layout checks. */
  lemma ParseFrameLaidOut(data: seq<byte>, payload: seq<byte>, trailer: seq<byte>, sep: nat, message: string)
    requires HeadPasses(data, sep) && TailPasses(data, payload, trailer, message)
    ensures var x := XorAll(payload);
      ParseFrame(data)
        == if TrailerAccepted(trailer, x) then Ok(Split(message, '|')[1..])
           else Err(ChecksumMismatch(Hex2(x), trailer))
  {
  }

  /** The checks of `ParseFrame` up to the length field pass, the separator being at `sep`. */
  predicate HeadPasses(data: seq<byte>, sep: nat)
  {
    && |data| >= MIN_FRAME_LEN && data[0] == SOH && data[1] == STX
    && FindByte(data, PIPE, 2) == Some(sep)
    && LengthField(data[2..sep]) == Some(|data|)
  }

  /** `data` ends in ETX and a trailer after `payload`, and its message bytes read as `message`. */
  predicate TailPasses(data: seq<byte>, payload: seq<byte>, trailer: seq<byte>, message: string)
  {
    && |data| >= MIN_FRAME_LEN && data[|data| - 3] == ETX
    && data[..|data| - 2] == payload && data[|data| - 2..] == trailer
    && Decode(data[4..|data| - 3]) == Some(message)
  }

  /** The separator and the length field of a laid-out frame. */
  lemma FrameHead(digitsText: string, body: seq<byte>, rest: seq<byte>, value: nat)
    requires AllDigits(digitsText) && IsAscii(digitsText)
    requires |body| > 0 && body[0] == PIPE
    requires ParseNat(digitsText) == Some(value)
    ensures var data := [SOH, STX] + Encode(digitsText) + body + rest;
      && FindByte(data, PIPE, 2) == Some(2 + |digitsText|)
      && LengthField(data[2..2 + |digitsText|]) == Some(value)
  {
    SeparatorAfterDigits(digitsText, body, rest);
    var data := [SOH, STX] + Encode(digitsText) + body + rest;
    assert data[2..2 + |digitsText|] == Encode(digitsText);
    DecodeEncode(digitsText);
  }

  /** The message text of a laid-out frame: what follows the second length digit. */
  lemma FrameMessage(digitsText: string, bodyText: string, tail: seq<byte>)
    requires IsAscii(digitsText) && |digitsText| >= 2 && IsAscii(bodyText)
    ensures var data := [SOH, STX] + Encode(digitsText) + Encode(bodyText) + tail;
      Decode(data[4..|data| - |tail|]) == Some(digitsText[2..] + bodyText)
  {
    var lead := digitsText[2..];
    assert IsAscii(lead) && IsAscii(digitsText[..2]);
    assert digitsText[..2] + lead == digitsText;
    EncodeAppend(digitsText[..2], lead);
    EncodeAppend(lead, bodyText);
    DecodeEncode(lead + bodyText);
    var data := [SOH, STX] + Encode(digitsText) + Encode(bodyText) + tail;
    assert data == [SOH, STX] + Encode(digitsText[..2]) + (Encode(lead) + Encode(bodyText)) + tail;
    assert data[4..|data| - |tail|] == Encode(lead + bodyText);
  }

  /** The head of a laid-out frame: markers, separator and length field. */
  lemma LaidOutHead(digitsText: string, bodyText: string, trailer: seq<byte>)
    requires AllDigits(digitsText) && IsAscii(digitsText) && |digitsText| >= 2
    requires IsAscii(bodyText) && |bodyText| >= 3 && bodyText[0] == '|'
    requires |trailer| == 2
    requires ParseNat(digitsText) == Some(5 + |digitsText| + |bodyText|)
    ensures HeadPasses([SOH, STX] + Encode(digitsText) + Encode(bodyText) + [ETX] + trailer, 2 + |digitsText|)
  {
    var tail := [ETX] + trailer;
    var body := Encode(bodyText);
    var data := [SOH, STX] + Encode(digitsText) + body + [ETX] + trailer;
    assert data == [SOH, STX] + Encode(digitsText) + body + tail;
    assert body[0] == PIPE;
    assert |data| == 5 + |digitsText| + |bodyText|;
    FrameHead(digitsText, body, tail, |data|);
  }

  /** The end of a laid-out frame: ETX, the checksummed prefix, the trailer, the message. */
  lemma LaidOutTail(digitsText: string, bodyText: string, trailer: seq<byte>)
    requires IsAscii(digitsText) && |digitsText| >= 2 && IsAscii(bodyText) && |bodyText| >= 3
    requires |trailer| == 2
    ensures var payload := [SOH, STX] + Encode(digitsText) + Encode(bodyText) + [ETX];
      TailPasses(payload + trailer, payload, trailer, digitsText[2..] + bodyText)
  {
    var payload := [SOH, STX] + Encode(digitsText) + Encode(bodyText) + [ETX];
    var tail := [ETX] + trailer;
    var data := payload + trailer;
    assert data == [SOH, STX] + Encode(digitsText) + Encode(bodyText) + tail;
    FrameMessage(digitsText, bodyText, tail);
    assert data[..|data| - 2] == payload;
  }

  /**
   * Any frame laid out as `SOH STX <digits> '|'... ETX <trailer>` whose
   * digits give its own size is checked on its trailer alone.
   */
  lemma LaidOutFrame(digitsText: string, bodyText: string, trailer: seq<byte>)
    requires AllDigits(digitsText) && IsAscii(digitsText) && |digitsText| >= 2
    requires IsAscii(bodyText) && |bodyText| >= 3 && bodyText[0] == '|'
    requires |trailer| == 2
    requires ParseNat(digitsText) == Some(5 + |digitsText| + |bodyText|)
    ensures var payload := [SOH, STX] + Encode(digitsText) + Encode(bodyText) + [ETX];
      var x := XorAll(payload);
      ParseFrame(payload + trailer)
        == if TrailerAccepted(trailer, x) then Ok(Split(digitsText[2..] + bodyText, '|')[1..])
           else Err(ChecksumMismatch(Hex2(x), trailer))
  {
    var payload := [SOH, STX] + Encode(digitsText) + Encode(bodyText) + [ETX];
    var data := payload + trailer;
    LaidOutHead(digitsText, bodyText, trailer);
    LaidOutTail(digitsText, bodyText, trailer);
    ParseFrameLaidOut(data, payload, trailer, 2 + |digitsText|, digitsText[2..] + bodyText);
  }

  /**
   * A frame assembled from ASCII, pipe-free fields parses back to those
   * fields whatever two-byte trailer it carries, provided the trailer is
   * accepted; otherwise it is refused with a checksum mismatch.
   */
  lemma ParseWithTrailer(fields: seq<string>, trailer: seq<byte>)
    requires |fields| >= 4 && AllAscii(fields) && NoPipe(fields)
    requires BaseSize(|Body(fields)|) <= 9995
    requires |trailer| == 2
    ensures var x := XorAll(Payload(fields));
      ParseFrame(Payload(fields) + trailer)
        == if TrailerAccepted(trailer, x) then Ok(fields)
           else Err(ChecksumMismatch(Hex2(x), trailer))
  {
    PayloadPieces(fields);
    JoinLength(fields, '|');
    var bodyText := Body(fields);
    var base := BaseSize(|bodyText|);
    var total := base + LengthDigits(base);
    var digitsText := NatToString(total);
    ParseNatToString(total);
    var lead := digitsText[2..];
    assert AllDigits(lead) && IsAscii(lead);
    FieldsAfterDigits(lead, fields);
    LaidOutFrame(digitsText, bodyText, trailer);
  }

  /** Round trip: parsing a built frame yields exactly its fields. */
  lemma ParseFrameOfFrame(fields: seq<string>)
    requires |fields| >= 4 && AllAscii(fields) && NoPipe(fields)
    requires BaseSize(|Body(fields)|) <= 9995
    ensures ParseFrame(Frame(fields)) == Ok(fields)
  {
    HexTrailerAccepted(XorAll(Payload(fields)));
    ParseWithTrailer(fields, Hex2(XorAll(Payload(fields))));
  }

  /** The same frame with its first trailer digit replaced by a space also parses. */
  lemma ParseSpacePaddedFrame(fields: seq<string>)
    requires |fields| >= 4 && AllAscii(fields) && NoPipe(fields)
    requires BaseSize(|Body(fields)|) <= 9995
    ensures var x := XorAll(Payload(fields));
      ParseFrame(Payload(fields) + [SPACE, Hex2(x)[1]]) == Ok(fields)
  {
    var x := XorAll(Payload(fields));
    SpacePaddedTrailerAccepted(x);
    ParseWithTrailer(fields, [SPACE, Hex2(x)[1]]);
  }

  // ---------------------------------------------------------------------
  // the response to a request, and the discovery filter

  /**
   * `build_ct002_response` on the emulator's CT type, CT MAC and value
   * slot; None where the source raises: fewer than two request fields or
   * three values (an IndexError), or a field that is not ASCII (a
   * UnicodeEncodeError).
   */
  function ResponseFrame(request: seq<string>, ctType: string, ctMac: string, slot: Option<seq<int>>): Option<seq<byte>>
  {
    var values := ValuesOrZero(slot);
    if |request| < 2 || |values| < 3 then None
    else
      var fields := ResponseFields(request, ctType, ctMac, values);
      if AllAscii(fields) then Some(Frame(fields)) else None
  }

  /** The response fields are ASCII exactly when the four text fields are. */
  lemma ResponseFieldsAscii(request: seq<string>, ctType: string, ctMac: string, values: seq<int>)
    requires |request| >= 2 && |values| >= 3
    ensures AllAscii(ResponseFields(request, ctType, ctMac, values))
      <==> IsAscii(request[0]) && IsAscii(request[1]) && IsAscii(ctType) && IsAscii(ctMac)
    ensures NoPipe(ResponseFields(request, ctType, ctMac, values))
      <==> '|' !in request[0] && '|' !in request[1] && '|' !in ctType && '|' !in ctMac
  {
    var r := ResponseFields(request, ctType, ctMac, values);
    IntToStringAscii(values[0]);
    IntToStringAscii(values[1]);
    IntToStringAscii(values[2]);
    IntToStringAscii(Sum(values));
    assert r[0] == request[0] && r[1] == request[1] && r[2] == ctType && r[3] == ctMac;
    assert r[4] == IntToString(values[0]) && r[5] == IntToString(values[1]);
    assert r[6] == IntToString(values[2]) && r[7] == IntToString(Sum(values));
    assert forall i :: 8 <= i < |r| ==> r[i] == "0";
    assert forall i :: 4 <= i < |r| ==> IsAscii(r[i]) && '|' !in r[i];
  }

  /** When the source does not raise: exactly the listed failures make it raise. */
  lemma ResponseFrameDefined(request: seq<string>, ctType: string, ctMac: string, slot: Option<seq<int>>)
    ensures ResponseFrame(request, ctType, ctMac, slot).Some?
      <==> |request| >= 2 && |ValuesOrZero(slot)| >= 3
           && IsAscii(request[0]) && IsAscii(request[1]) && IsAscii(ctType) && IsAscii(ctMac)
  {
    var values := ValuesOrZero(slot);
    if |request| >= 2 && |values| >= 3 {
      ResponseFieldsAscii(request, ctType, ctMac, values);
    }
  }

  /**
   * A response parses back, by the emulator's own parser, into the 24
   * fields it was built from, whose numbers read back as the phase values
   * and their sum.
   */
  lemma ResponseRoundTrip(request: seq<string>, ctType: string, ctMac: string, slot: Option<seq<int>>)
    requires ResponseFrame(request, ctType, ctMac, slot).Some?
    requires '|' !in request[0] && '|' !in request[1] && '|' !in ctType && '|' !in ctMac
    requires BaseSize(|Body(ResponseFields(request, ctType, ctMac, ValuesOrZero(slot)))|) <= 9995
    ensures var values := ValuesOrZero(slot);
      var fields := ResponseFields(request, ctType, ctMac, values);
      && ParseFrame(ResponseFrame(request, ctType, ctMac, slot).value) == Ok(fields)
      && |fields| == RESPONSE_FIELD_COUNT
      && (forall i :: 4 <= i < 7 ==> ParseInt(fields[i]) == Some(values[i - 4]))
      && ParseInt(fields[7]) == Some(Sum(values))
  {
    var values := ValuesOrZero(slot);
    ResponseFieldsAscii(request, ctType, ctMac, values);
    ResponseLayout(request, ctType, ctMac, values);
    ParseFrameOfFrame(ResponseFields(request, ctType, ctMac, values));
  }

  const ZERO_MAC: string := "000000000000"

  /**
   * The discovery filter of `udp_server`: a request is answered only with
   * at least four fields and a CT MAC (field 3) that is the emulator's,
   * ignoring case, or the all-zero wildcard (compared as is).
   */
  predicate Addressed(fields: seq<string>, ctMac: string)
  {
    |fields| >= 4 && (Lower(fields[3]) == Lower(ctMac) || fields[3] == ZERO_MAC)
  }

  /** The battery MAC in field 1 plays no part in the filter. */
  lemma BatteryMacIgnored(fields: seq<string>, ctMac: string, batteryMac: string)
    requires |fields| >= 2
    ensures Addressed(fields[1 := batteryMac], ctMac) == Addressed(fields, ctMac)
  {
  }

  /** Case does not matter for the emulator's MAC; the wildcard always passes. */
  lemma AddressedExamples()
    ensures Addressed(["HMG-50", "001122334455", "HME-4", "009C17ABCDEF"], "009c17abcdef")
    ensures Addressed(["HMG-50", "anything", "HME-4", ZERO_MAC], "009c17abcdef")
    ensures !Addressed(["HMG-50", "001122334455", "HME-4", "009c17abcdee"], "009c17abcdef")
    ensures !Addressed(["HMG-50", "001122334455", "HME-4"], "009c17abcdef")
  {
    assert Lower("009C17ABCDEF") == "009c17abcdef";
    assert Lower("009c17abcdef") == "009c17abcdef";
    assert Lower("009c17abcdee")[11] == 'e';
  }

  predicate IsHexChar(c: char)
  {
    '0' <= c <= '9' || 'a' <= c <= 'f' || 'A' <= c <= 'F'
  }

  /** `validate_mac`: exactly twelve hex digits, either case. */
  predicate ValidMac(mac: string)
  {
    |mac| == 12 && forall i :: 0 <= i < 12 ==> IsHexChar(mac[i])
  }

  lemma ValidMacExamples()
    ensures ValidMac("009c17abcdef") && ValidMac("001122334455") && ValidMac(ZERO_MAC)
    ensures ValidMac("009C17ABCDEF")
    ensures !ValidMac("009c17abcde") && !ValidMac("009c17abcdeg")
  {
    assert !IsHexChar("009c17abcdeg"[11]);
  }

  /** A valid MAC is its own lower-case form up to case: lowering keeps it valid. */
  lemma LowerKeepsValidMac(mac: string)
    requires ValidMac(mac)
    ensures ValidMac(Lower(mac))
  {
  }

  /** `b"hame"`, which `udp_server` answers before trying to parse a frame. */
  const HAME_BYTES: seq<byte> := [0x68, 0x61, 0x6d, 0x65]

  lemma HameBytesSpellHame()
    ensures Decode(HAME_BYTES) == Some("hame")
    ensures ParseFrame(HAME_BYTES) == Err(TooShort)
  {
    var d := Decode(HAME_BYTES).value;
    assert d[0] == 'h' && d[1] == 'a' && d[2] == 'm' && d[3] == 'e';
    assert d == "hame";
  }
}
