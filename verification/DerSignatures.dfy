/**
 * DER to raw ECDSA signatures (src/signer.ts, 307-384).
 *
 * Two references: the strict encoding of an ECDSA-Sig-Value (section 2.2.3 of
 * RFC 3279; sections 8.1.3, 8.3 and 10.1 of X.690), which every input ought to
 * have, and a tolerant reader, which says what the code makes of the others.
 */
module DerSignatures {
  import opened Common

  type Byte = x: int | 0 <= x < 256

  datatype DerError =
    | NotASequence | UnexpectedEnd | UnsupportedLength | ExpectedInteger | InvalidLength | TooWide

  // ------------------------------------------------------------------
  // Numbers as octets
  // ------------------------------------------------------------------

  function Pow256(n: nat): (p: nat)
    ensures p >= 1
  {
    if n == 0 then 1 else 256 * Pow256(n - 1)
  }

  /** The unsigned big-endian value of an octet string. */
  function Unsigned(s: seq<Byte>): nat {
    if s == [] then 0 else 256 * Unsigned(s[..|s| - 1]) + s[|s| - 1]
  }

  /** The width-octet big-endian form of n. */
  function BigEndian(n: nat, width: nat): (s: seq<Byte>)
    ensures |s| == width
  {
    if width == 0 then [] else BigEndian(n / 256, width - 1) + [n % 256]
  }

  lemma {:induction false} UnsignedBound(s: seq<Byte>)
    ensures Unsigned(s) < Pow256(|s|)
  {
    if s != [] {
      UnsignedBound(s[..|s| - 1]);
    }
  }

  lemma LastOctet(n: nat, p: nat)
    requires n < 256 * p
    ensures n / 256 < p && 256 * (n / 256) + n % 256 == n
  {
  }

  lemma {:induction false} BigEndianValue(n: nat, width: nat)
    requires n < Pow256(width)
    ensures Unsigned(BigEndian(n, width)) == n
  {
    if width > 0 {
      var s := BigEndian(n, width);
      LastOctet(n, Pow256(width - 1));
      BigEndianValue(n / 256, width - 1);
      assert s[..|s| - 1] == BigEndian(n / 256, width - 1);
    }
  }

  /** Octet strings of one length are determined by their value. */
  lemma {:induction false} BigEndianUnique(s: seq<Byte>)
    ensures s == BigEndian(Unsigned(s), |s|)
  {
    if s != [] {
      var front := s[..|s| - 1];
      BigEndianUnique(front);
      assert Unsigned(s) / 256 == Unsigned(front) && Unsigned(s) % 256 == s[|s| - 1];
      assert s == front + [s[|s| - 1]];
    }
  }

  lemma {:induction false} LeadingOctet(b: Byte, s: seq<Byte>)
    ensures Unsigned([b] + s) == b * Pow256(|s|) + Unsigned(s)
  {
    var t := [b] + s;
    if s == [] {
      assert t[..0] == [] && Unsigned(t[..0]) == 0;
    } else {
      var front := s[..|s| - 1];
      LeadingOctet(b, front);
      assert t[..|t| - 1] == [b] + front;
      assert 256 * (b * Pow256(|front|)) == b * (256 * Pow256(|front|));
    }
  }

  function Zeros(n: nat): (s: seq<Byte>)
    ensures |s| == n && forall i :: 0 <= i < n ==> s[i] == 0
  {
    seq(n, _ => 0)
  }

  lemma {:induction false} LeadingZeros(n: nat, s: seq<Byte>)
    ensures Unsigned(Zeros(n) + s) == Unsigned(s)
  {
    if n > 0 {
      LeadingZeros(n - 1, s);
      LeadingOctet(0, Zeros(n - 1) + s);
      assert Zeros(n) + s == [0] + (Zeros(n - 1) + s);
    } else {
      assert Zeros(0) + s == s;
    }
  }

  // ------------------------------------------------------------------
  // JavaScript's typed arrays and 32-bit shifts
  // ------------------------------------------------------------------

  function ToInt32(x: int): (r: int)
    ensures -0x8000_0000 <= r < 0x8000_0000
  {
    var m := x % 0x1_0000_0000;
    if m >= 0x8000_0000 then m - 0x1_0000_0000 else m
  }

  /** buf[i]: undefined outside the array. */
  function At(buf: seq<Byte>, i: int): Option<Byte> {
    if 0 <= i < |buf| then Some(buf[i]) else None
  }

  /** Uint8Array.prototype.slice: negative bounds count from the end. */
  function JsSlice(buf: seq<Byte>, start: int, end: int): seq<Byte> {
    var from := if start < 0 then Max(|buf| + start, 0) else Min(start, |buf|);
    var to := if end < 0 then Max(|buf| + end, 0) else Min(end, |buf|);
    if from < to then buf[from..to] else []
  }

  /** (length << 8) | b over all octets, starting from 0. */
  function ShiftIn(octets: seq<Byte>): (r: int)
    ensures -0x8000_0000 <= r < 0x8000_0000
  {
    if octets == [] then 0
    else ToInt32(256 * ShiftIn(octets[..|octets| - 1]) + octets[|octets| - 1])
  }

  // ------------------------------------------------------------------
  // The decoder
  // ------------------------------------------------------------------

  datatype Length = Length(length: int, next: int)

  datatype Integer = Integer(value: seq<Byte>, next: int)

  /** What readDerLength computes. */
  function DerLength(buf: seq<Byte>, offset: int): (r: Result<Length, DerError>)
    ensures r.Ok? ==> 0 <= offset < r.value.next <= |buf|
  {
    match At(buf, offset)
    case None => Err(UnexpectedEnd)
    case Some(first) =>
      if first < 0x80 then Ok(Length(first, offset + 1))
      else
        var numBytes := first - 0x80;
        if numBytes == 0 || numBytes > 4 then Err(UnsupportedLength)
        else if offset + 1 + numBytes > |buf| then Err(UnexpectedEnd)
        else Ok(Length(ShiftIn(buf[offset + 1..offset + 1 + numBytes]), offset + 1 + numBytes))
  }

  method ReadDerLength(buf: seq<Byte>, offset: int) returns (r: Result<Length, DerError>)
    ensures r == DerLength(buf, offset)
  {
    var first := At(buf, offset);
    if first.None? {
      return Err(UnexpectedEnd);
    }
    if first.value < 0x80 {
      return Ok(Length(first.value, offset + 1));
    }
    var numBytes := first.value - 0x80;
    if numBytes == 0 || numBytes > 4 {
      return Err(UnsupportedLength);
    }
    var length := 0;
    for i := 0 to numBytes
      invariant offset + 1 + i <= |buf|
      invariant length == ShiftIn(buf[offset + 1..offset + 1 + i])
    {
      var b := At(buf, offset + 1 + i);
      if b.None? {
        return Err(UnexpectedEnd);
      }
      ghost var octets := buf[offset + 1..offset + 1 + i + 1];
      assert octets[..i] == buf[offset + 1..offset + 1 + i];
      length := ToInt32(256 * length + b.value);
    }
    return Ok(Length(length, offset + 1 + numBytes));
  }

  function DerInteger(buf: seq<Byte>, offset: int): Result<Integer, DerError> {
    if At(buf, offset) != Some(0x02) then Err(ExpectedInteger)
    else
      match DerLength(buf, offset + 1)
      case Err(e) => Err(e)
      case Ok(l) =>
        if l.length == 0 || l.next + l.length > |buf| then Err(InvalidLength)
        else Ok(Integer(JsSlice(buf, l.next, l.next + l.length), l.next + l.length))
  }

  /** Drops leading zero octets while the value is wider than `width`. */
  function TrimTo(value: seq<Byte>, width: nat): seq<Byte> {
    if |value| > width && value[0] == 0 then TrimTo(value[1..], width) else value
  }

  function FixedWidth(value: seq<Byte>, width: nat): Result<seq<Byte>, DerError> {
    var trimmed := TrimTo(value, width);
    if |trimmed| > width then Err(TooWide) else Ok(Zeros(width - |trimmed|) + trimmed)
  }

  method DerIntegerToFixedWidth(value: seq<Byte>, width: nat) returns (r: Result<seq<Byte>, DerError>)
    ensures r == FixedWidth(value, width)
  {
    var trimmed := value;
    while |trimmed| > width && trimmed[0] == 0
      invariant TrimTo(trimmed, width) == TrimTo(value, width)
      decreases |trimmed|
    {
      trimmed := trimmed[1..];
    }
    if |trimmed| > width {
      return Err(TooWide);
    }
    return Ok(Zeros(width - |trimmed|) + trimmed);
  }

  function RawSignature(der: seq<Byte>): Result<seq<Byte>, DerError> {
    if |der| < 8 || der[0] != 0x30 then Err(NotASequence)
    else
      match DerLength(der, 1)
      case Err(e) => Err(e)
      case Ok(header) =>
        match DerInteger(der, header.next)
        case Err(e) => Err(e)
        case Ok(r) =>
          match DerInteger(der, r.next)
          case Err(e) => Err(e)
          case Ok(s) =>
            match FixedWidth(r.value, 32)
            case Err(e) => Err(e)
            case Ok(rRaw) =>
              match FixedWidth(s.value, 32)
              case Err(e) => Err(e)
              case Ok(sRaw) => Ok(rRaw + sRaw)
  }

  /** Uint8Array.prototype.set. */
  method SetAt(raw: array<Byte>, bytes: seq<Byte>, at: nat)
    requires at + |bytes| <= raw.Length
    modifies raw
    ensures raw[..] == old(raw[..at]) + bytes + old(raw[at + |bytes|..])
  {
    for i := 0 to |bytes|
      invariant forall j :: 0 <= j < raw.Length ==>
        raw[j] == if at <= j < at + i then bytes[j - at] else old(raw[j])
    {
      raw[at + i] := bytes[i];
    }
  }

  method DerToRawSignature(der: seq<Byte>) returns (result: Result<seq<Byte>, DerError>)
    ensures result == RawSignature(der)
    ensures result.Ok? ==> |result.value| == 64
  {
    if |der| < 8 || der[0] != 0x30 {
      return Err(NotASequence);
    }
    var header := ReadDerLength(der, 1);
    if header.Err? {
      return Err(header.error);
    }
    var r := DerInteger(der, header.value.next);
    if r.Err? {
      return Err(r.error);
    }
    var s := DerInteger(der, r.value.next);
    if s.Err? {
      return Err(s.error);
    }
    var raw := new Byte[64](_ => 0);
    var rRaw := DerIntegerToFixedWidth(r.value.value, 32);
    if rRaw.Err? {
      return Err(rRaw.error);
    }
    SetAt(raw, rRaw.value, 0);
    var sRaw := DerIntegerToFixedWidth(s.value.value, 32);
    if sRaw.Err? {
      return Err(sRaw.error);
    }
    SetAt(raw, sRaw.value, 32);
    assert raw[..] == rRaw.value + sRaw.value;
    return Ok(raw[..]);
  }

  // ------------------------------------------------------------------
  // The tolerant reader: lengths as numbers, contents inside the input
  // ------------------------------------------------------------------

  /** The two INTEGER contents of an ECDSA-Sig-Value, when both lie inside the input. */
  datatype Contents = Contents(r: seq<Byte>, s: seq<Byte>)

  function TrueLength(buf: seq<Byte>, offset: int): Option<Length> {
    match At(buf, offset)
    case None => None
    case Some(first) =>
      if first < 0x80 then Some(Length(first, offset + 1))
      else if first == 0x80 || first > 0x84 || offset + 1 + (first - 0x80) > |buf| then None
      else Some(Length(Unsigned(buf[offset + 1..offset + 1 + (first - 0x80)]), offset + 1 + (first - 0x80)))
  }

  function TrueInteger(buf: seq<Byte>, offset: int): Option<Integer> {
    if At(buf, offset) != Some(0x02) then None
    else
      match TrueLength(buf, offset + 1)
      case None => None
      case Some(l) =>
        if 1 <= l.length && 0 <= l.next && l.next + l.length <= |buf|
        then Some(Integer(buf[l.next..l.next + l.length], l.next + l.length))
        else None
  }

  function TrueContents(der: seq<Byte>): Option<Contents> {
    if |der| < 8 || der[0] != 0x30 then None
    else
      match TrueLength(der, 1)
      case None => None
      case Some(header) =>
        match TrueInteger(der, header.next)
        case None => None
        case Some(r) =>
          match TrueInteger(der, r.next)
          case None => None
          case Some(s) => Some(Contents(r.value, s.value))
  }

  /** The raw signature an input stands for. */
  function Reference(der: seq<Byte>): Option<seq<Byte>> {
    Meaning(TrueContents(der))
  }

  /** The two unsigned values as 32 octets each, if they fit. */
  function Meaning(contents: Option<Contents>): Option<seq<Byte>> {
    match contents
    case None => None
    case Some(c) =>
      if Unsigned(c.r) < Pow256(32) && Unsigned(c.s) < Pow256(32)
      then Some(BigEndian(Unsigned(c.r), 32) + BigEndian(Unsigned(c.s), 32))
      else None
  }

  /** The four-octet length form with its top bit set: the one a 32-bit shift turns negative. */
  predicate LengthGoesNegative(buf: seq<Byte>, offset: int) {
    At(buf, offset) == Some(0x84) && 0 <= offset && offset + 4 < |buf| && buf[offset + 1] >= 0x80
  }

  /** Some INTEGER the decoder reaches announces such a length. */
  predicate IntegerLengthGoesNegative(der: seq<Byte>) {
    && |der| >= 8 && der[0] == 0x30
    && DerLength(der, 1).Ok?
    && var start := DerLength(der, 1).value.next;
    && At(der, start) == Some(0x02)
    && (|| LengthGoesNegative(der, start + 1)
        || (DerInteger(der, start).Ok? && At(der, DerInteger(der, start).value.next) == Some(0x02)
            && LengthGoesNegative(der, DerInteger(der, start).value.next + 1)))
  }

  lemma {:induction false} UnsignedStep(s: seq<Byte>, b: Byte)
    ensures Unsigned(s + [b]) == 256 * Unsigned(s) + b
    ensures ShiftIn(s + [b]) == ToInt32(256 * ShiftIn(s) + b)
  {
    assert (s + [b])[..|s|] == s;
  }

  lemma {:induction false} ShiftInSmall(octets: seq<Byte>)
    requires |octets| <= 3
    ensures ShiftIn(octets) == Unsigned(octets)
  {
    if octets != [] {
      var front := octets[..|octets| - 1];
      ShiftInSmall(front);
      UnsignedBound(octets);
      Pow256Monotone(|octets|, 3);
      assert Pow256(3) == 0x100_0000;
      UnsignedStep(front, octets[|octets| - 1]);
      assert octets == front + [octets[|octets| - 1]];
    }
  }

  lemma {:induction false} TopBitOfFour(octets: seq<Byte>)
    requires |octets| == 4
    ensures octets[0] >= 0x80 <==> Unsigned(octets) >= 0x8000_0000
    ensures Unsigned(octets) < 0x1_0000_0000
  {
    LeadingOctet(octets[0], octets[1..]);
    assert octets == [octets[0]] + octets[1..];
    UnsignedBound(octets[1..]);
    assert Pow256(3) == 0x100_0000;
  }

  lemma {:induction false} ShiftInFour(octets: seq<Byte>)
    requires |octets| == 4
    ensures ShiftIn(octets) == ToInt32(Unsigned(octets))
    ensures octets[0] >= 0x80 <==> Unsigned(octets) >= 0x8000_0000
    ensures Unsigned(octets) < 0x1_0000_0000
  {
    var front := octets[..3];
    ShiftInSmall(front);
    UnsignedStep(front, octets[3]);
    assert octets == front + [octets[3]];
    TopBitOfFour(octets);
  }

  /** The 32-bit length is the announced length exactly unless its top bit is set in the four-octet form. */
  lemma LengthsAgree(buf: seq<Byte>, offset: int)
    ensures DerLength(buf, offset).Ok? <==> TrueLength(buf, offset).Some?
    ensures DerLength(buf, offset).Ok? ==>
      var code, truth := DerLength(buf, offset).value, TrueLength(buf, offset).value;
      && code.next == truth.next
      && (code.length < 0 <==> LengthGoesNegative(buf, offset))
      && (code.length == truth.length <==> !LengthGoesNegative(buf, offset))
      && (LengthGoesNegative(buf, offset) ==> truth.length >= 0x8000_0000)
  {
    if DerLength(buf, offset).Ok? && buf[offset] >= 0x80 {
      var octets := buf[offset + 1..offset + 1 + (buf[offset] - 0x80)];
      if |octets| == 4 {
        ShiftInFour(octets);
      } else {
        ShiftInSmall(octets);
      }
    }
  }

  lemma IntegersAgree(buf: seq<Byte>, offset: int)
    requires !(At(buf, offset) == Some(0x02) && LengthGoesNegative(buf, offset + 1))
    ensures DerInteger(buf, offset).Ok? <==> TrueInteger(buf, offset).Some?
    ensures DerInteger(buf, offset).Ok? ==> DerInteger(buf, offset).value == TrueInteger(buf, offset).value
  {
    LengthsAgree(buf, offset + 1);
  }

  lemma IntegersDisagree(buf: seq<Byte>, offset: int)
    requires |buf| < 0x8000_0000 && LengthGoesNegative(buf, offset + 1)
    ensures TrueInteger(buf, offset).None?
  {
    LengthsAgree(buf, offset + 1);
  }

  lemma {:induction false} TrimKeepsValue(value: seq<Byte>, width: nat)
    ensures Unsigned(TrimTo(value, width)) == Unsigned(value)
    ensures |TrimTo(value, width)| > width ==> TrimTo(value, width)[0] != 0
    decreases |value|
  {
    if |value| > width && value[0] == 0 {
      TrimKeepsValue(value[1..], width);
      LeadingOctet(0, value[1..]);
      assert value == [0] + value[1..];
    }
  }

  lemma {:induction false} Pow256Monotone(a: nat, b: nat)
    requires a <= b
    ensures Pow256(a) <= Pow256(b)
  {
    if a < b {
      Pow256Monotone(a, b - 1);
    }
  }

  lemma {:induction false} WideValue(s: seq<Byte>, width: nat)
    requires |s| > width && s[0] != 0
    ensures Unsigned(s) >= Pow256(width)
  {
    LeadingOctet(s[0], s[1..]);
    assert s == [s[0]] + s[1..];
    Pow256Monotone(width, |s| - 1);
    AtLeastOnce(s[0], Pow256(|s| - 1));
  }

  lemma AtLeastOnce(k: nat, p: nat)
    requires k >= 1
    ensures k * p >= p
  {
  }

  lemma {:induction false} PaddedValue(s: seq<Byte>, width: nat)
    requires |s| <= width
    ensures Unsigned(s) < Pow256(width)
    ensures Zeros(width - |s|) + s == BigEndian(Unsigned(s), width)
  {
    LeadingZeros(width - |s|, s);
    UnsignedBound(s);
    Pow256Monotone(|s|, width);
    BigEndianUnique(Zeros(width - |s|) + s);
  }

  /** Fixing the width succeeds exactly for values that fit, and then gives their big-endian form. */
  lemma {:induction false} FixedWidthCorrect(value: seq<Byte>, width: nat)
    ensures FixedWidth(value, width).Ok? <==> Unsigned(value) < Pow256(width)
    ensures FixedWidth(value, width).Ok? ==> FixedWidth(value, width).value == BigEndian(Unsigned(value), width)
  {
    var trimmed := TrimTo(value, width);
    TrimKeepsValue(value, width);
    if |trimmed| > width {
      WideValue(trimmed, width);
    } else {
      PaddedValue(trimmed, width);
    }
  }

  /**
   * The decoder agrees with the reference - same inputs accepted, same 64
   * octets - on every input in which no INTEGER announces a length of 2^31 or more.
   */
  lemma DecodesContents(der: seq<Byte>)
    requires !IntegerLengthGoesNegative(der)
    ensures RawSignature(der).Ok? <==> Reference(der).Some?
    ensures RawSignature(der).Ok? ==> RawSignature(der).value == Reference(der).value
  {
    ContentsAgree(der);
    ResultOfContents(der);
  }

  /** The result is what the two values stand for, of whatever contents the code reads. */
  lemma ResultOfContents(der: seq<Byte>)
    ensures RawSignature(der).Ok? <==> Meaning(ReadContents(der)).Some?
    ensures RawSignature(der).Ok? ==> RawSignature(der).value == Meaning(ReadContents(der)).value
  {
    RawFromContents(der);
    if ReadContents(der).Some? {
      PairCorrect(ReadContents(der).value);
    }
  }

  lemma PairCorrect(c: Contents)
    ensures FixedWidth(c.r, 32).Ok? && FixedWidth(c.s, 32).Ok? <==>
            Unsigned(c.r) < Pow256(32) && Unsigned(c.s) < Pow256(32)
    ensures FixedWidth(c.r, 32).Ok? && FixedWidth(c.s, 32).Ok? ==>
            FixedWidth(c.r, 32).value + FixedWidth(c.s, 32).value ==
            BigEndian(Unsigned(c.r), 32) + BigEndian(Unsigned(c.s), 32)
  {
    FixedWidthCorrect(c.r, 32);
    FixedWidthCorrect(c.s, 32);
  }

  /** The contents the code reads, before their width is fixed. */
  function ReadContents(der: seq<Byte>): Option<Contents> {
    if |der| < 8 || der[0] != 0x30 || DerLength(der, 1).Err? then None
    else
      match DerInteger(der, DerLength(der, 1).value.next)
      case Err(_) => None
      case Ok(r) =>
        match DerInteger(der, r.next)
        case Err(_) => None
        case Ok(s) => Some(Contents(r.value, s.value))
  }

  /** The result depends on the contents alone, and on nothing else in the input. */
  lemma RawFromContents(der: seq<Byte>)
    ensures ReadContents(der).None? ==> RawSignature(der).Err?
    ensures ReadContents(der).Some? ==>
      var r, s := FixedWidth(ReadContents(der).value.r, 32), FixedWidth(ReadContents(der).value.s, 32);
      RawSignature(der) == if r.Err? then r else if s.Err? then s else Ok(r.value + s.value)
  {
  }

  lemma ContentsAgree(der: seq<Byte>)
    requires !IntegerLengthGoesNegative(der)
    ensures ReadContents(der) == TrueContents(der)
  {
    if |der| >= 8 && der[0] == 0x30 {
      LengthsAgree(der, 1);
      if DerLength(der, 1).Ok? {
        var start := DerLength(der, 1).value.next;
        IntegersAgree(der, start);
        if DerInteger(der, start).Ok? {
          IntegersAgree(der, DerInteger(der, start).value.next);
        }
      }
    }
  }

  /**
   * An accepted input, well formed or not, is decoded to the contents it
   * announces exactly when no length went negative.
   */
  lemma DecodedAsAnnounced(der: seq<Byte>)
    requires |der| < 0x8000_0000 && RawSignature(der).Ok?
    ensures Reference(der) == Some(RawSignature(der).value) <==> !IntegerLengthGoesNegative(der)
  {
    if IntegerLengthGoesNegative(der) {
      LengthsAgree(der, 1);
      var start := DerLength(der, 1).value.next;
      if LengthGoesNegative(der, start + 1) {
        IntegersDisagree(der, start);
      } else {
        IntegersAgree(der, start);
        IntegersDisagree(der, DerInteger(der, start).value.next);
      }
    } else {
      DecodesContents(der);
    }
  }

  // ------------------------------------------------------------------
  // The strict encoding
  // ------------------------------------------------------------------

  /** Shortest unsigned octets of n; none for 0. */
  function Octets(n: nat): seq<Byte> {
    if n == 0 then [] else Octets(n / 256) + [n % 256]
  }

  /** Minimal two's-complement contents of a non-negative INTEGER. */
  function MinimalContents(n: nat): seq<Byte> {
    var o := Octets(n);
    if o == [] || o[0] >= 0x80 then [0] + o else o
  }

  lemma {:induction false} OctetsShort(n: nat, width: nat)
    requires n < Pow256(width)
    ensures |Octets(n)| <= width
  {
    if n > 0 && width > 0 {
      LastOctet(n, Pow256(width - 1));
      OctetsShort(n / 256, width - 1);
    }
  }

  lemma {:induction false} OctetsValue(n: nat)
    ensures Unsigned(Octets(n)) == n
    ensures n > 0 ==> Octets(n) != [] && Octets(n)[0] != 0
  {
    if n > 0 {
      OctetsValue(n / 256);
      var o := Octets(n);
      assert o[..|o| - 1] == Octets(n / 256);
    }
  }

  lemma MinimalContentsValue(n: nat)
    ensures Unsigned(MinimalContents(n)) == n && MinimalContents(n) != []
  {
    OctetsValue(n);
    LeadingOctet(0, Octets(n));
  }

  /** Two's-complement contents of a non-negative number in the fewest octets: sections 8.3.2 and 8.3.3 of X.690. */
  predicate Minimal(c: seq<Byte>) {
    c != [] && c[0] < 0x80 && (|c| > 1 && c[0] == 0 ==> c[1] >= 0x80)
  }

  lemma {:induction false} OctetsUnique(c: seq<Byte>)
    requires c == [] || c[0] != 0
    ensures Octets(Unsigned(c)) == c
  {
    if c != [] {
      var front, last := c[..|c| - 1], c[|c| - 1];
      OctetsUnique(front);
      assert c == front + [last];
      assert Unsigned(c) / 256 == Unsigned(front) && Unsigned(c) % 256 == last;
      if front != [] {
        assert front[0] == c[0];
      }
    }
  }

  /** The contents described by the rules are exactly those the encoder writes. */
  lemma {:induction false} MinimalExact(c: seq<Byte>)
    ensures Minimal(c) <==> c == MinimalContents(Unsigned(c))
  {
    OctetsValue(Unsigned(c));
    if Minimal(c) {
      if c[0] == 0 {
        LeadingOctet(0, c[1..]);
        assert c == [0] + c[1..];
        OctetsUnique(c[1..]);
      } else {
        OctetsUnique(c);
      }
    }
  }

  lemma {:induction false} MinimalIsShort(c: seq<Byte>)
    requires Minimal(c) && Unsigned(c) < Pow256(32)
    ensures |c| <= 33
  {
    if |c| > 33 {
      if c[0] == 0 {
        LeadingOctet(0, c[1..]);
        assert c == [0] + c[1..];
        WideValue(c[1..], 32);
      } else {
        WideValue(c, 32);
      }
    }
  }

  /** A definite length in the fewest octets: sections 8.1.3 and 10.1 of X.690. */
  function LengthOctets(n: nat): (l: seq<Byte>)
    requires n < 0x8000_0000
    ensures 1 <= |l| <= 5
  {
    if n < 0x80 then [n]
    else
      FourOctets(n);
      [0x80 + |Octets(n)|] + Octets(n)
  }

  lemma {:induction false} FourOctets(n: nat)
    requires n < 0x8000_0000
    ensures |Octets(n)| <= 4
  {
    assert Pow256(4) == 0x1_0000_0000;
    OctetsShort(n, 4);
  }

  function Element(tag: Byte, contents: seq<Byte>): (e: seq<Byte>)
    requires |contents| < 0x8000_0000
    ensures |contents| + 2 <= |e| <= |contents| + 6
  {
    [tag] + LengthOctets(|contents|) + contents
  }

  /** Contents that fit one JavaScript typed array together. */
  predicate Fit(rc: seq<Byte>, sc: seq<Byte>) {
    |rc| + |sc| < 0x4000_0000
  }

  /** SEQUENCE { r INTEGER, s INTEGER }. */
  function EncodeContents(rc: seq<Byte>, sc: seq<Byte>): seq<Byte>
    requires Fit(rc, sc)
  {
    Element(0x30, Element(0x02, rc) + Element(0x02, sc))
  }

  /** The strict form: nothing but a SEQUENCE of two minimal non-negative INTEGERs, every length minimal. */
  ghost predicate WellFormed(der: seq<Byte>) {
    exists rc, sc :: Spells(der, rc, sc)
  }

  predicate Spells(der: seq<Byte>, rc: seq<Byte>, sc: seq<Byte>) {
    Minimal(rc) && Minimal(sc) && Fit(rc, sc) && der == EncodeContents(rc, sc)
  }

  // ------------------------------------------------------------------
  // Well-formed inputs
  // ------------------------------------------------------------------

  lemma {:induction false} ShiftInExact(n: nat)
    requires n < 0x8000_0000
    ensures |Octets(n)| <= 4 && ShiftIn(Octets(n)) == n
  {
    var o := Octets(n);
    FourOctets(n);
    OctetsValue(n);
    if |o| == 4 {
      ShiftInFour(o);
    } else {
      ShiftInSmall(o);
    }
  }

  lemma {:induction false} ReadLongLength(buf: seq<Byte>, at: nat, o: seq<Byte>)
    requires 1 <= |o| <= 4 && at + 1 + |o| <= |buf|
    requires buf[at] == 0x80 + |o| && buf[at + 1..at + 1 + |o|] == o
    ensures DerLength(buf, at) == Ok(Length(ShiftIn(o), at + 1 + |o|))
  {
  }

  lemma ReadLengthOctets(buf: seq<Byte>, at: nat, n: nat, l: seq<Byte>)
    requires n < 0x8000_0000 && l == LengthOctets(n) && at + |l| <= |buf| && buf[at..at + |l|] == l
    ensures DerLength(buf, at) == Ok(Length(n, at + |l|))
  {
    assert buf[at] == l[0];
    if n >= 0x80 {
      var o := Octets(n);
      ShiftInExact(n);
      assert buf[at + 1..at + |l|] == buf[at..at + |l|][1..] == o;
      ReadLongLength(buf, at, o);
    }
  }

  lemma IntegerAt(buf: seq<Byte>, at: nat, next: nat, c: seq<Byte>)
    requires c != [] && at < |buf| && buf[at] == 0x02 && DerLength(buf, at + 1) == Ok(Length(|c|, next))
    requires next + |c| <= |buf| && buf[next..next + |c|] == c
    ensures DerInteger(buf, at) == Ok(Integer(c, next + |c|))
  {
  }

  lemma SliceOfSlice(buf: seq<Byte>, a: nat, b: nat, lo: nat, hi: nat)
    requires a <= b <= |buf| && lo <= hi <= b - a
    ensures buf[a..b][lo..hi] == buf[a + lo..a + hi]
  {
    forall i | 0 <= i < hi - lo
      ensures buf[a..b][lo..hi][i] == buf[a + lo..a + hi][i]
    {
      assert buf[a..b][lo + i] == buf[a + (lo + i)];
    }
  }

  /** A tag, a length and contents one after the other somewhere in an input. */
  lemma PiecesIn(buf: seq<Byte>, at: nat, tag: Byte, l: seq<Byte>, c: seq<Byte>, next: nat)
    requires next == at + 1 + |l| && next + |c| <= |buf| && buf[at..next + |c|] == [tag] + l + c
    ensures buf[at] == tag && buf[at + 1..next] == l && buf[next..next + |c|] == c
  {
    var e := [tag] + l + c;
    assert buf[at..next + |c|][0] == e[0];
    SliceOfSlice(buf, at, next + |c|, 1, 1 + |l|);
    SliceOfSlice(buf, at, next + |c|, 1 + |l|, |e|);
    assert e[1..1 + |l|] == l && e[1 + |l|..|e|] == c;
  }

  lemma ReadPieces(buf: seq<Byte>, at: nat, l: seq<Byte>, c: seq<Byte>, end: nat)
    requires c != [] && |c| < 0x8000_0000 && l == LengthOctets(|c|) && end == at + 1 + |l| + |c| <= |buf|
    requires buf[at] == 0x02 && buf[at + 1..at + 1 + |l|] == l && buf[at + 1 + |l|..at + 1 + |l| + |c|] == c
    ensures DerInteger(buf, at) == Ok(Integer(c, end))
  {
    var next := at + 1 + |l|;
    ReadLengthOctets(buf, at + 1, |c|, l);
    IntegerAt(buf, at, next, c);
  }

  lemma ReadElement(buf: seq<Byte>, at: nat, c: seq<Byte>, e: seq<Byte>)
    requires c != [] && |c| < 0x8000_0000 && e == Element(0x02, c)
    requires at + |e| <= |buf| && buf[at..at + |e|] == e
    ensures DerInteger(buf, at) == Ok(Integer(c, at + |e|))
  {
    var l := LengthOctets(|c|);
    SpelledPieces(buf, at, c, l, e);
    ReadPieces(buf, at, l, c, at + |e|);
  }

  lemma SpelledPieces(buf: seq<Byte>, at: nat, c: seq<Byte>, l: seq<Byte>, e: seq<Byte>)
    requires |c| < 0x8000_0000 && e == Element(0x02, c) && l == LengthOctets(|c|)
    requires at + |e| <= |buf| && buf[at..at + |e|] == e
    ensures |e| == 1 + |l| + |c| && buf[at] == 0x02
    ensures buf[at + 1..at + 1 + |l|] == l && buf[at + 1 + |l|..at + 1 + |l| + |c|] == c
  {
    var next := at + 1 + |l|;
    assert e == [0x02] + l + c && at + |e| == next + |c|;
    PiecesIn(buf, at, 0x02, l, c, next);
  }

  lemma TwoParts(der: seq<Byte>, start: nat, r: seq<Byte>, s: seq<Byte>)
    requires start <= |der| && der[start..] == r + s
    ensures |der| == start + |r| + |s|
    ensures der[start..start + |r|] == r && der[start + |r|..start + |r| + |s|] == s
  {
    assert der[start..start + |r|] == der[start..][..|r|];
    assert der[start + |r|..start + |r| + |s|] == der[start..][|r|..];
  }

  lemma ContentsFrom(der: seq<Byte>, header: Length, r: Integer, s: Integer)
    requires |der| >= 8 && der[0] == 0x30 && DerLength(der, 1) == Ok(header)
    requires DerInteger(der, header.next) == Ok(r) && DerInteger(der, r.next) == Ok(s)
    ensures ReadContents(der) == Some(Contents(r.value, s.value))
  {
  }

  /** Two elements at the end of an input are read one after the other. */
  lemma ReadFrom(der: seq<Byte>, header: Length, rc: seq<Byte>, r: seq<Byte>, sc: seq<Byte>, s: seq<Byte>)
    requires |der| >= 8 && der[0] == 0x30 && DerLength(der, 1) == Ok(header)
    requires rc != [] && sc != [] && Fit(rc, sc) && r == Element(0x02, rc) && s == Element(0x02, sc)
    requires |der| == header.next + |r| + |s| && der[header.next..header.next + |r|] == r
    requires der[header.next + |r|..header.next + |r| + |s|] == s
    ensures ReadContents(der) == Some(Contents(rc, sc))
  {
    var middle := header.next + |r|;
    ReadElement(der, header.next, rc, r);
    ReadElement(der, middle, sc, s);
    ContentsFrom(der, header, Integer(rc, middle), Integer(sc, middle + |s|));
  }

  /** The header of a strict encoding, and what follows it. */
  lemma ReadHeader(der: seq<Byte>, body: seq<Byte>) returns (start: nat)
    requires |body| < 0x8000_0000 && der == Element(0x30, body)
    ensures start <= |der| && der[0] == 0x30 && DerLength(der, 1) == Ok(Length(|body|, start)) && der[start..] == body
  {
    var l := LengthOctets(|body|);
    start := 1 + |l|;
    assert der[0..start + |body|] == der;
    PiecesIn(der, 0, 0x30, l, body, start);
    ReadLengthOctets(der, 1, |body|, l);
  }

  /** The code finds the two contents of every strict encoding. */
  lemma ReadEncoding(der: seq<Byte>, rc: seq<Byte>, sc: seq<Byte>)
    requires rc != [] && sc != [] && Fit(rc, sc) && der == EncodeContents(rc, sc)
    ensures ReadContents(der) == Some(Contents(rc, sc))
  {
    var r, s := Element(0x02, rc), Element(0x02, sc);
    var start := ReadHeader(der, r + s);
    TwoParts(der, start, r, s);
    ReadFrom(der, Length(|r + s|, start), rc, r, sc, s);
  }

  /**
   * Every well-formed input is accepted exactly when both values are below
   * 2^256, and then gives their 32-octet forms, r first.
   */
  lemma {:induction false} WellFormedDecoded(der: seq<Byte>, rc: seq<Byte>, sc: seq<Byte>)
    requires Spells(der, rc, sc)
    ensures RawSignature(der) ==
            if Unsigned(rc) < Pow256(32) && Unsigned(sc) < Pow256(32)
            then Ok(BigEndian(Unsigned(rc), 32) + BigEndian(Unsigned(sc), 32)) else Err(TooWide)
  {
    ReadEncoding(der, rc, sc);
    RawFromContents(der);
    PairCorrect(Contents(rc, sc));
  }

  lemma MinimalOfValue(n: nat)
    requires n < Pow256(32)
    ensures var c := MinimalContents(n); |c| <= 33 && Minimal(c) && Unsigned(c) == n
  {
    OctetsShort(n, 32);
    MinimalContentsValue(n);
    MinimalExact(MinimalContents(n));
  }

  /** Encoding any r and s below 2^256 and decoding gives their 32-octet forms, r first. */
  lemma {:induction false} SignatureRoundTrip(r: nat, s: nat)
    requires r < Pow256(32) && s < Pow256(32)
    ensures |MinimalContents(r)| <= 33 && |MinimalContents(s)| <= 33
    ensures RawSignature(EncodeContents(MinimalContents(r), MinimalContents(s))) ==
            Ok(BigEndian(r, 32) + BigEndian(s, 32))
  {
    MinimalOfValue(r);
    MinimalOfValue(s);
    WellFormedDecoded(EncodeContents(MinimalContents(r), MinimalContents(s)), MinimalContents(r), MinimalContents(s));
  }

  // ------------------------------------------------------------------
  // Malformed inputs that are accepted
  // ------------------------------------------------------------------

  /** The tests on an INTEGER's octets, length octet at `at`, that the code leaves out. */
  predicate StrictInteger(der: seq<Byte>, at: nat) {
    && at + 1 < |der| && der[at] < 0x80 && der[at + 1] < 0x80
    && (der[at] > 1 && der[at + 1] == 0 ==> at + 2 < |der| && der[at + 2] >= 0x80)
  }

  /** All the tests the code leaves out: the SEQUENCE and its second INTEGER end the input, both INTEGERs are strict. */
  predicate StrictOctets(der: seq<Byte>) {
    && |der| >= 8 && der[1] < 0x80 && der[1] == |der| - 2
    && StrictInteger(der, 3)
    && var at := 5 + der[3];
    && StrictInteger(der, at) && der[at] == |der| - at - 1
  }

  /** Where the code reads a strict INTEGER, it reads the octets its length octet announces. */
  lemma ShortInteger(der: seq<Byte>, at: nat, end: nat)
    requires 1 <= at < |der| && der[at] < 0x80 && DerInteger(der, at - 1).Ok? && end == at + 1 + der[at]
    ensures der[at - 1] == 0x02 && at + 1 < end <= |der|
    ensures DerInteger(der, at - 1) == Ok(Integer(der[at + 1..end], end))
  {
    assert DerLength(der, at) == Ok(Length(der[at], at + 1));
  }

  lemma StrictIsMinimal(der: seq<Byte>, at: nat, end: nat)
    requires StrictInteger(der, at) && end == at + 1 + der[at] <= |der| && der[at] >= 1
    ensures Minimal(der[at + 1..end])
  {
    var c := der[at + 1..end];
    assert c[0] == der[at + 1] && (|c| > 1 ==> c[1] == der[at + 2]);
  }

  lemma ElementAt(der: seq<Byte>, at: nat, end: nat)
    requires 1 <= at < |der| && der[at - 1] == 0x02 && der[at] < 0x80 && end == at + 1 + der[at] <= |der|
    ensures der[at - 1..end] == Element(0x02, der[at + 1..end])
  {
    ShortElement(0x02, der[at + 1..end]);
  }

  /** An accepted input has a length and two INTEGERs where the code looks for them. */
  lemma AcceptedReads(der: seq<Byte>)
    requires RawSignature(der).Ok?
    ensures |der| >= 8 && der[0] == 0x30 && DerLength(der, 1).Ok?
    ensures DerInteger(der, DerLength(der, 1).value.next).Ok?
    ensures DerInteger(der, DerInteger(der, DerLength(der, 1).value.next).value.next).Ok?
  {
  }

  lemma StrictIsWellFormed(der: seq<Byte>)
    requires RawSignature(der).Ok? && StrictOctets(der)
    ensures WellFormed(der)
  {
    AcceptedReads(der);
    assert DerLength(der, 1) == Ok(Length(der[1], 2));
    var at := 5 + der[3];
    StrictPart(der, 3, at - 1);
    StrictPart(der, at, |der|);
    StrictPartsSpell(der, at);
  }

  /** A strict INTEGER where the code reads one. */
  lemma StrictPart(der: seq<Byte>, at: nat, end: nat)
    requires at >= 1 && StrictInteger(der, at) && DerInteger(der, at - 1).Ok? && end == at + 1 + der[at]
    ensures end <= |der| && Minimal(der[at + 1..end]) && der[at - 1..end] == Element(0x02, der[at + 1..end])
    ensures DerInteger(der, at - 1).value.next == end
  {
    ShortInteger(der, at, end);
    StrictIsMinimal(der, at, end);
    ElementAt(der, at, end);
  }

  lemma Parts(der: seq<Byte>, middle: nat)
    requires 2 <= middle <= |der|
    ensures der == [der[0], der[1]] + (der[2..middle] + der[middle..|der|])
  {
  }

  lemma StrictPartsSpell(der: seq<Byte>, at: nat)
    requires 5 <= at < |der| < 0x82 && der[0] == 0x30 && der[1] == |der| - 2
    requires Minimal(der[4..at - 1]) && Minimal(der[at + 1..|der|])
    requires der[2..at - 1] == Element(0x02, der[4..at - 1])
    requires der[at - 1..|der|] == Element(0x02, der[at + 1..|der|])
    ensures WellFormed(der)
  {
    var rc, sc := der[4..at - 1], der[at + 1..|der|];
    Parts(der, at - 1);
    ShortElement(0x30, Element(0x02, rc) + Element(0x02, sc));
    SpelledIsWellFormed(der, rc, sc);
  }

  lemma SpelledIsWellFormed(der: seq<Byte>, rc: seq<Byte>, sc: seq<Byte>)
    requires Spells(der, rc, sc)
    ensures WellFormed(der)
  {
  }

  lemma ShortElement(tag: Byte, c: seq<Byte>)
    requires |c| < 0x80
    ensures Element(tag, c) == [tag, |c|] + c
  {
  }

  lemma AcceptedIsShort(der: seq<Byte>, rc: seq<Byte>, sc: seq<Byte>)
    requires Spells(der, rc, sc) && RawSignature(der).Ok?
    ensures |rc| <= 33 && |sc| <= 33
  {
    WellFormedDecoded(der, rc, sc);
    MinimalIsShort(rc);
    MinimalIsShort(sc);
  }

  lemma ShortEncoding(rc: seq<Byte>, sc: seq<Byte>)
    requires |rc| <= 33 && |sc| <= 33
    ensures EncodeContents(rc, sc) == [0x30, |rc| + |sc| + 4] + (([0x02, |rc|] + rc) + ([0x02, |sc|] + sc))
  {
    ShortElement(0x02, rc);
    ShortElement(0x02, sc);
    ShortElement(0x30, ([0x02, |rc|] + rc) + ([0x02, |sc|] + sc));
  }

  lemma WellFormedIsStrict(der: seq<Byte>, rc: seq<Byte>, sc: seq<Byte>)
    requires Spells(der, rc, sc) && RawSignature(der).Ok?
    ensures StrictOctets(der)
  {
    AcceptedIsShort(der, rc, sc);
    ShortEncoding(rc, sc);
    ShortPartsAreStrict(der, rc, sc);
  }

  lemma ShortPartsAreStrict(der: seq<Byte>, rc: seq<Byte>, sc: seq<Byte>)
    requires Minimal(rc) && Minimal(sc) && |rc| <= 33 && |sc| <= 33
    requires der == [0x30, |rc| + |sc| + 4] + (([0x02, |rc|] + rc) + ([0x02, |sc|] + sc))
    ensures StrictOctets(der)
  {
    var at := 5 + |rc|;
    assert |der| == 6 + |rc| + |sc| && der[1] == |rc| + |sc| + 4;
    assert der[3] == |rc| && der[4] == rc[0] && (|rc| > 1 ==> der[5] == rc[1]);
    assert der[at] == |sc| && der[at + 1] == sc[0] && (|sc| > 1 ==> der[at + 2] == sc[1]);
  }

  /** Among the accepted inputs, exactly those whose octets pass these tests are well formed. */
  lemma AcceptedExact(der: seq<Byte>)
    requires RawSignature(der).Ok?
    ensures WellFormed(der) <==> StrictOctets(der)
  {
    if StrictOctets(der) {
      StrictIsWellFormed(der);
    }
    if WellFormed(der) {
      var rc, sc :| Spells(der, rc, sc);
      WellFormedIsStrict(der, rc, sc);
    }
  }

  /**
   * With those tests added, exactly the well-formed inputs with both values below
   * 2^256 would be accepted, and each is decoded to its two values.
   */
  lemma StrictDecoderExact(der: seq<Byte>)
    ensures RawSignature(der).Ok? && StrictOctets(der) <==>
            exists rc, sc :: Spells(der, rc, sc) && Unsigned(rc) < Pow256(32) && Unsigned(sc) < Pow256(32)
    ensures forall rc, sc :: RawSignature(der).Ok? && Spells(der, rc, sc) ==>
              RawSignature(der).value == BigEndian(Unsigned(rc), 32) + BigEndian(Unsigned(sc), 32)
  {
    forall rc, sc | Spells(der, rc, sc)
      ensures RawSignature(der) ==
              if Unsigned(rc) < Pow256(32) && Unsigned(sc) < Pow256(32)
              then Ok(BigEndian(Unsigned(rc), 32) + BigEndian(Unsigned(sc), 32)) else Err(TooWide)
    {
      WellFormedDecoded(der, rc, sc);
    }
    if RawSignature(der).Ok? {
      AcceptedExact(der);
    }
  }

  /** Which inputs are refused at once, and which for a value of 2^256 or more. */
  lemma RefusedExactly(der: seq<Byte>)
    ensures RawSignature(der) == Err(NotASequence) <==> |der| < 8 || der[0] != 0x30
    ensures RawSignature(der) == Err(TooWide) <==>
            && ReadContents(der).Some?
            && !(Unsigned(ReadContents(der).value.r) < Pow256(32) && Unsigned(ReadContents(der).value.s) < Pow256(32))
  {
    ResultOfContents(der);
    RawFromContents(der);
    if ReadContents(der).Some? {
      FixedWidthCorrect(ReadContents(der).value.r, 32);
      FixedWidthCorrect(ReadContents(der).value.s, 32);
    }
  }

  lemma OneOctetIntegers(der: seq<Byte>)
    requires |der| >= 8 && der[0] == 0x30 && der[1] < 0x80
    requires der[2] == der[5] == 0x02 && der[3] == der[6] == 0x01
    ensures RawSignature(der).Ok?
  {
    assert DerLength(der, 1) == Ok(Length(der[1], 2));
    assert DerLength(der, 3) == Ok(Length(1, 4)) && DerLength(der, 6) == Ok(Length(1, 7));
  }

  /** A SEQUENCE that announces no octets before six. */
  lemma ShortSequenceAccepted()
    ensures var der: seq<Byte> := [0x30, 0x00, 0x02, 0x01, 0x01, 0x02, 0x01, 0x01];
            RawSignature(der).Ok? && !WellFormed(der)
  {
    var der: seq<Byte> := [0x30, 0x00, 0x02, 0x01, 0x01, 0x02, 0x01, 0x01];
    OneOctetIntegers(der);
    AcceptedExact(der);
  }

  /** A negative INTEGER. */
  lemma NegativeIntegerAccepted()
    ensures var der: seq<Byte> := [0x30, 0x06, 0x02, 0x01, 0x80, 0x02, 0x01, 0x01];
            RawSignature(der).Ok? && !WellFormed(der)
  {
    var der: seq<Byte> := [0x30, 0x06, 0x02, 0x01, 0x80, 0x02, 0x01, 0x01];
    OneOctetIntegers(der);
    AcceptedExact(der);
  }

  /** An octet left over after the SEQUENCE. */
  lemma TrailingOctetAccepted()
    ensures var der: seq<Byte> := [0x30, 0x06, 0x02, 0x01, 0x01, 0x02, 0x01, 0x01, 0xFF];
            RawSignature(der).Ok? && !WellFormed(der)
  {
    var der: seq<Byte> := [0x30, 0x06, 0x02, 0x01, 0x01, 0x02, 0x01, 0x01, 0xFF];
    OneOctetIntegers(der);
    AcceptedExact(der);
  }

  /** An INTEGER with a leading zero octet it does not need. */
  lemma PaddedIntegerAccepted()
    ensures var der: seq<Byte> := [0x30, 0x07, 0x02, 0x02, 0x00, 0x01, 0x02, 0x01, 0x01];
            RawSignature(der).Ok? && !WellFormed(der)
  {
    var der: seq<Byte> := [0x30, 0x07, 0x02, 0x02, 0x00, 0x01, 0x02, 0x01, 0x01];
    assert DerLength(der, 1) == Ok(Length(7, 2));
    assert DerLength(der, 3) == Ok(Length(2, 4)) && DerLength(der, 7) == Ok(Length(1, 8));
    AcceptedExact(der);
  }

  lemma {:induction false} MinusSix(octets: seq<Byte>)
    requires octets == [0xFF, 0xFF, 0xFF, 0xFA]
    ensures ShiftIn(octets) == -6
  {
    ShiftInFour(octets);
    assert octets[..3][..2][..1][..0] == [];
    assert Unsigned(octets[..3][..2][..1]) == 0xFF;
    assert Unsigned(octets[..3][..2]) == 0xFFFF;
    assert Unsigned(octets[..3]) == 0xFF_FFFF;
  }

  /** An INTEGER that announces 2^32 - 6 octets, which a 32-bit shift turns into -6. */
  lemma NegativeLengthAccepted()
    ensures var der: seq<Byte> := [0x30, 0x06, 0x02, 0x84, 0xFF, 0xFF, 0xFF, 0xFA];
            RawSignature(der) == Ok(Zeros(32) + Zeros(32)) && Reference(der).None? && !WellFormed(der)
  {
    var der: seq<Byte> := [0x30, 0x06, 0x02, 0x84, 0xFF, 0xFF, 0xFF, 0xFA];
    MinusSix(der[4..8]);
    assert DerLength(der, 3) == Ok(Length(-6, 8));
    assert DerInteger(der, 2) == Ok(Integer([], 2));
    assert FixedWidth([], 32) == Ok(Zeros(32) + []);
    assert Zeros(32) + [] == Zeros(32);
    IntegersDisagree(der, 2);
    AcceptedExact(der);
  }
}
